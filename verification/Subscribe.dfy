/**
 Decoding the SUBSCRIBE packet, section 3.8 of MQTT Version 5.0, against the
 layout the section gives.
 */
module Subscribe {
  import opened Wrappers
  import opened Bytes
  import opened ServiceLevels
  import opened RemainingLength

  datatype Malformed = MalformedPacket | ProtocolError | QoSNotSupported

  datatype Filter = Filter(topic: Str, maxQos: ServiceLevel)

  datatype Packet = Packet(id: u16, list: seq<Filter>)

  // ---- Reading ----

  function LevelOf(options: byte): Option<ServiceLevel> {
    TryFrom(options % 4)
  }

  /** One topic filter and what follows it. */
  function ParseFilter(s: Str): (r: Outcome<(Filter, Str), Malformed>)
    ensures r.Ok? ==> |r.value.1| < |s|
  {
    match ParseU16(s)
    case Panic => Panic
    case Err(e) => Panic
    case Ok(Read(n, rest)) =>
      if n > |rest| then Panic
      else if !ValidUtf8(rest[..n]) then Err(MalformedPacket)
      else if n == |rest| then Panic
      else if LevelOf(rest[n]).None? then Err(QoSNotSupported)
      else Ok((Filter(rest[..n], LevelOf(rest[n]).value), rest[n + 1..]))
  }

  function Joined(list: seq<Filter>, r: Outcome<seq<Filter>, Malformed>): Outcome<seq<Filter>, Malformed> {
    match r
    case Ok(more) => Ok(list + more)
    case Err(e) => Err(e)
    case Panic => Panic
  }

  function ParseFilters(s: Str): Outcome<seq<Filter>, Malformed>
    decreases |s|
  {
    if s == [] then Ok([])
    else
      match ParseFilter(s)
      case Ok((f, rest)) => Joined([f], ParseFilters(rest))
      case Err(e) => Err(e)
      case Panic => Panic
  }

  /** The frame: packet identifier, one byte of property length, filters. */
  function ParseFrame(s: Str): Outcome<Packet, Malformed> {
    if |s| < 3 then Panic
    else
      match ParseFilters(s[3..])
      case Ok(list) => Ok(Packet(Big(s[0], s[1]), list))
      case Err(e) => Err(e)
      case Panic => Panic
  }

  function SkippedHeader(s: Str): Outcome<Packet, Malformed> {
    match ParseLen(s)
    case Panic => Panic
    case Err(e) => Err(ProtocolError)
    case Ok(Read(n, rest)) => if n > |rest| then Panic else ParseFrame(rest[..n])
  }

  function Decoding(s: Str): Outcome<Packet, Malformed> {
    if s == [] then Panic
    else if s[0] / 16 != 8 then Err(ProtocolError)
    else SkippedHeader(s[1..])
  }

  /** The level is in the low two bits of the options, whatever the upper six are;
      three names none. */
  lemma {:induction false} OptionBits(upper: nat, low: nat)
    requires upper < 64 && low < 4
    ensures LevelOf(4 * upper + low)
      == match low case 0 => Some(QoS0) case 1 => Some(QoS1) case 2 => Some(QoS2) case _ => None
  {
    assert (4 * upper + low) % 4 == low;
  }

  // ---- The layout of the section ----

  predicate GoodFilter(f: Filter) {
    |f.topic| <= MAX_STR && ValidUtf8(f.topic)
  }

  predicate GoodFilters(list: seq<Filter>) {
    forall f :: f in list ==> GoodFilter(f)
  }

  function FiltersBytes(list: seq<Filter>): Str
    requires GoodFilters(list)
  {
    if list == [] then []
    else
      assert list[0] in list;
      StrBytes(list[0].topic) + [Code(list[0].maxQos)] + FiltersBytes(list[1..])
  }

  /** The packet identifier, the properties `props` and their length, the filters. */
  function Frame(p: Packet, props: Str): Str
    requires GoodFilters(p.list)
  {
    U16Bytes(p.id) + VarLen(|props|) + props + FiltersBytes(p.list)
  }

  function Layout(p: Packet, props: Str): Str
    requires GoodFilters(p.list)
  {
    [0x82] + LenBytes(|Frame(p, props)|) + Frame(p, props)
  }

  // ---- Reading undoes the layout ----

  lemma {:induction false} FilterBack(f: Filter, t: Str)
    requires GoodFilter(f)
    ensures ParseFilter(StrBytes(f.topic) + [Code(f.maxQos)] + t) == Ok((f, t))
  {
    var n, rest := |f.topic|, f.topic + [Code(f.maxQos)] + t;
    assert StrBytes(f.topic) + [Code(f.maxQos)] + t == U16Bytes(n) + rest;
    U16RoundTrip(n, rest);
    CodesAreNames(Code(f.maxQos));
    assert rest[..n] == f.topic && rest[n] == Code(f.maxQos) && rest[n + 1..] == t;
  }

  lemma {:induction false} FiltersBack(list: seq<Filter>)
    requires GoodFilters(list)
    ensures ParseFilters(FiltersBytes(list)) == Ok(list)
  {
    if list != [] {
      assert list[0] in list && list == [list[0]] + list[1..];
      FiltersBack(list[1..]);
      FilterBack(list[0], FiltersBytes(list[1..]));
    }
  }

  // ---- On any input, what is accepted was there ----

  /** The bytes of a list of filters with any options in the reserved bits. */
  ghost predicate LaidOut(s: Str, list: seq<Filter>) {
    if list == [] then s == []
    else
      var n := |list[0].topic|;
      && |s| > n + 2 && Big(s[0], s[1]) == n && s[2..n + 2] == list[0].topic && ValidUtf8(list[0].topic)
      && LevelOf(s[n + 2]) == Some(list[0].maxQos)
      && LaidOut(s[n + 3..], list[1..])
  }

  lemma {:induction false} LaidOutHead(s: Str, list: seq<Filter>)
    requires list != [] && LaidOut(s, list)
    ensures ParseFilter(s) == Ok((list[0], s[|list[0].topic| + 3..]))
  {
    var n := |list[0].topic|;
    assert s[2..][..n] == list[0].topic && s[2..][n + 1..] == s[n + 3..];
  }

  lemma {:induction false} ParsedHead(s: Str, list: seq<Filter>)
    requires s != [] && ParseFilters(s) == Ok(list)
    ensures list != [] && ParseFilter(s) == Ok((list[0], s[|list[0].topic| + 3..]))
    ensures ParseFilters(s[|list[0].topic| + 3..]) == Ok(list[1..])
    ensures LaidOut(s, list) <==> LaidOut(s[|list[0].topic| + 3..], list[1..])
  {
    var (f, rest) := ParseFilter(s).value;
    assert list[1..] == ParseFilters(rest).value;
    assert s[2..][..|f.topic|] == s[2..|f.topic| + 2] && s[2..][|f.topic| + 1..] == s[|f.topic| + 3..];
  }

  /** Filters are accepted exactly when the bytes are filters laid out one
      after the other to the last byte. */
  lemma {:induction false} FiltersAccepted(s: Str, list: seq<Filter>)
    ensures ParseFilters(s) == Ok(list) <==> LaidOut(s, list)
    decreases |list|
  {
    if ParseFilters(s) == Ok(list) && s != [] {
      ParsedHead(s, list);
      FiltersAccepted(s[|list[0].topic| + 3..], list[1..]);
    }
    if LaidOut(s, list) && list != [] {
      LaidOutHead(s, list);
      FiltersAccepted(s[|list[0].topic| + 3..], list[1..]);
      assert [list[0]] + list[1..] == list;
    }
  }

  // ---- Whole packets ----

  function SizeOf(list: seq<Filter>): nat {
    if list == [] then 0 else |list[0].topic| + 3 + SizeOf(list[1..])
  }

  lemma {:induction false} LaidOutSize(s: Str, list: seq<Filter>)
    requires LaidOut(s, list)
    ensures |s| == SizeOf(list)
    decreases |list|
  {
    if list != [] { LaidOutSize(s[|list[0].topic| + 3..], list[1..]); }
  }

  lemma {:induction false} FiltersSize(list: seq<Filter>)
    requires GoodFilters(list)
    ensures |FiltersBytes(list)| == SizeOf(list)
  {
    if list != [] {
      assert list[0] in list;
      FiltersSize(list[1..]);
    }
  }

  /** Bytes before the filters are never read as nothing. */
  lemma {:induction false} MoreIsOther(more: Str, list: seq<Filter>)
    requires GoodFilters(list) && more != []
    ensures ParseFilters(more + FiltersBytes(list)) != Ok(list)
  {
    var s := more + FiltersBytes(list);
    FiltersAccepted(s, list);
    FiltersSize(list);
    if LaidOut(s, list) { LaidOutSize(s, list); }
  }

  lemma {:induction false} DropOne(s: Str, t: Str)
    requires s != []
    ensures (s + t)[1..] == s[1..] + t
  {
  }

  lemma {:induction false} IdRead(id: u16, t: Str)
    requires t != []
    ensures ParseFrame(U16Bytes(id) + t) ==
      match ParseFilters(t[1..])
      case Ok(list) => Ok(Packet(id, list))
      case Err(e) => Err(e)
      case Panic => Panic
  {
    var s := U16Bytes(id) + t;
    assert s[3..] == t[1..];
  }

  lemma {:induction false} FrameBack(p: Packet, props: Str)
    requires GoodFilters(p.list)
    ensures ParseFrame(Frame(p, props)) == Ok(p) <==> props == []
  {
    var len, filters := VarLen(|props|), FiltersBytes(p.list);
    Regroup(U16Bytes(p.id), len, props);
    Regroup(U16Bytes(p.id), len + props, filters);
    IdRead(p.id, len + props + filters);
    DropOne(len, props);
    DropOne(len + props, filters);
    if props == [] {
      assert len[1..] + props + filters == filters;
      FiltersBack(p.list);
    } else {
      MoreIsOther(len[1..] + props, p.list);
    }
  }

  lemma {:induction false} FrameCut(s: Str, frame: Str, trailing: Str)
    requires ParseLen(s) == Ok(Read(|frame|, frame + trailing))
    ensures SkippedHeader(s) == ParseFrame(frame)
  {
    assert (frame + trailing)[..|frame|] == frame;
  }

  lemma {:induction false} FrameRead(frame: Str, trailing: Str)
    requires 0 < |frame| <= MAX_ENCODABLE
    ensures Decoding([0x82] + LenBytes(|frame|) + frame + trailing) == ParseFrame(frame)
  {
    var len := LenBytes(|frame|);
    Regroup([0x82], len, frame);
    Regroup([0x82], len + frame, trailing);
    Regroup(len, frame, trailing);
    DropOne([0x82], len + frame + trailing);
    LenRoundTrip(|frame|, frame + trailing);
    FrameCut(len + (frame + trailing), frame, trailing);
  }

  /** A packet laid out as the section says is read back exactly when it has no
      properties, whatever bytes follow the frame. */
  lemma {:induction false} SubscribeRoundTrip(p: Packet, props: Str, trailing: Str)
    requires GoodFilters(p.list) && |Frame(p, props)| <= MAX_ENCODABLE
    ensures Decoding(Layout(p, props) + trailing) == Ok(p) <==> props == []
  {
    FrameRead(Frame(p, props), trailing);
    FrameBack(p, props);
  }

  // ---- What is refused ----

  /** What a filter is read as, on any bytes. */
  lemma {:induction false} FilterExactly(s: Str)
    ensures |s| < 2 ==> ParseFilter(s) == Panic
    ensures |s| >= 2 ==>
      var n := 0x100 * (s[0] as int) + s[1];
      ParseFilter(s) ==
        if n > |s| - 2 then Panic
        else if !ValidUtf8(s[2..n + 2]) then Err(MalformedPacket)
        else if n == |s| - 2 then Panic
        else if s[n + 2] % 4 == 3 then Err(QoSNotSupported)
        else Ok((Filter(s[2..n + 2], TryFrom(s[n + 2] % 4).value), s[n + 3..]))
  {
    if |s| >= 2 {
      var n := 0x100 * (s[0] as int) + s[1];
      if n <= |s| - 2 { assert s[2..][..n] == s[2..n + 2]; }
      if n < |s| - 2 {
        assert s[2..][n + 1..] == s[n + 3..] && s[2..][n] == s[n + 2];
        CodesAreNames(s[n + 2] % 4);
      }
    }
  }

  /** Filters that can be read leave the outcome to what follows them. */
  lemma {:induction false} FiltersThen(list: seq<Filter>, t: Str)
    requires GoodFilters(list)
    ensures ParseFilters(FiltersBytes(list) + t) == Joined(list, ParseFilters(t))
  {
    if list == [] {
      assert FiltersBytes(list) + t == t;
      if ParseFilters(t).Ok? { assert [] + ParseFilters(t).value == ParseFilters(t).value; }
    } else {
      assert list[0] in list && list == [list[0]] + list[1..];
      FiltersThen(list[1..], t);
      FilterBack(list[0], FiltersBytes(list[1..]) + t);
      Regroup(StrBytes(list[0].topic) + [Code(list[0].maxQos)], FiltersBytes(list[1..]), t);
      JoinedTwice(list[0], list[1..], ParseFilters(t));
    }
  }

  lemma {:induction false} JoinedTwice(f: Filter, list: seq<Filter>, r: Outcome<seq<Filter>, Malformed>)
    ensures Joined([f], Joined(list, r)) == Joined([f] + list, r)
  {
    if r.Ok? { assert [f] + (list + r.value) == [f] + list + r.value; }
  }

  /** When the fixed header or its length refuses a packet. */
  lemma {:induction false} HeaderRefused(s: Str)
    ensures s == [] ==> Decoding(s) == Panic
    ensures s != [] && s[0] / 16 != 8 ==> Decoding(s) == Err(ProtocolError)
    ensures s != [] && s[0] / 16 == 8 ==>
      && (Continues(s[1..], 4) ==> Decoding(s) == Err(ProtocolError))
      && (|s| < 5 && Continues(s[1..], |s| - 1) ==> Decoding(s) == Panic)
  {
    if s != [] { DecodeStops(s[1..]); }
  }

  /** A frame cut short after its length is a panic. */
  lemma {:induction false} CutIsRefused(frame: Str, k: nat)
    requires 0 < |frame| <= MAX_ENCODABLE && k < |frame|
    ensures Decoding([0x82] + LenBytes(|frame|) + frame[..k]) == Panic
  {
    var len := LenBytes(|frame|);
    Regroup([0x82], len, frame[..k]);
    DropOne([0x82], len + frame[..k]);
    LenRoundTrip(|frame|, frame[..k]);
  }

  // ---- The decoder ----

  method SkipHeader(buf: BytesMut) returns (r: Outcome<Packet, Malformed>)
    modifies buf
    ensures r == SkippedHeader(old(buf.data))
    ensures r.Ok? ==> buf.data == []
  {
    var n := RemainingLength.Decode(buf);
    if n.Panic? { return Panic; }
    if n.Err? { return Err(ProtocolError); }
    if n.value > |buf.data| { return Panic; }
    buf.data := buf.data[..n.value];
    ghost var frame := buf.data;
    var id := buf.GetU16();
    if id.Panic? { return Panic; }
    var propLen := buf.GetU8();
    if propLen.Panic? { return Panic; }
    assert buf.data == frame[3..];
    var list := GetFilters(buf);
    if list.Panic? { return Panic; }
    if list.Err? { return Err(list.error); }
    r := Ok(Packet(id.value, list.value));
  }

  method GetFilters(buf: BytesMut) returns (r: Outcome<seq<Filter>, Malformed>)
    modifies buf
    ensures r == ParseFilters(old(buf.data))
    ensures r.Ok? ==> buf.data == []
  {
    var list: seq<Filter> := [];
    assert Joined([], ParseFilters(buf.data)) == ParseFilters(buf.data) by {
      var p := ParseFilters(buf.data);
      if p.Ok? { assert [] + p.value == p.value; }
    }
    while |buf.data| != 0
      invariant Joined(list, ParseFilters(buf.data)) == ParseFilters(old(buf.data))
      decreases |buf.data|
    {
      var f := GetFilter(buf);
      if f.Panic? { return Panic; }
      if f.Err? { return Err(f.error); }
      JoinOne(list, f.value, ParseFilters(buf.data));
      list := list + [f.value];
    }
    assert list + [] == list;
    r := Ok(list);
  }

  lemma {:induction false} JoinOne(list: seq<Filter>, f: Filter, r: Outcome<seq<Filter>, Malformed>)
    ensures Joined(list, Joined([f], r)) == Joined(list + [f], r)
  {
    if r.Ok? { assert list + ([f] + r.value) == list + [f] + r.value; }
  }

  method GetFilter(buf: BytesMut) returns (r: Outcome<Filter, Malformed>)
    modifies buf
    ensures match ParseFilter(old(buf.data))
      case Ok((f, rest)) => r == Ok(f) && buf.data == rest
      case Err(e) => r == Err(e)
      case Panic => r.Panic?
  {
    var n := buf.GetU16();
    if n.Panic? { return Panic; }
    if n.value > |buf.data| { return Panic; }
    var topic := buf.SplitTo(n.value);
    if !ValidUtf8(topic) { return Err(MalformedPacket); }
    var options := buf.GetU8();
    if options.Panic? { return Panic; }
    var level := TryFrom(options.value % 4);
    if level.None? { return Err(QoSNotSupported); }
    r := Ok(Filter(topic, level.value));
  }

  method Decode(buf: BytesMut) returns (r: Outcome<Packet, Malformed>)
    modifies buf
    ensures r == Decoding(old(buf.data))
    ensures r.Ok? ==> buf.data == []
  {
    var header := buf.GetU8();
    if header.Panic? { return Panic; }
    if header.value / 16 != 8 { return Err(ProtocolError); }
    r := SkipHeader(buf);
  }
}
