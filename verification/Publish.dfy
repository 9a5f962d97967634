/**
 The PUBLISH packet, section 3.3 of MQTT Version 5.0: the encoder with its
 lengths computed in advance, and the decoder that loops over tagged
 properties in any order.
 */
module Publish {
  import opened Wrappers
  import opened Bytes
  import opened ServiceLevels
  import opened RemainingLength

  datatype Properties = Properties(
    payloadFormat: Option<byte>,
    expiry: Option<u32>,
    topicAlias: Option<u16>,
    responseTopic: Option<Str>,
    correlationData: Option<Str>,
    users: Option<Pairs>,
    subscriptionId: Option<seq<nat>>,
    contentType: Option<Str>)

  const NO_PROPERTIES := Properties(None, None, None, None, None, None, None, None)

  datatype Packet = Packet(
    dup: bool,
    qos: ServiceLevel,
    retain: bool,
    topic: Str,
    id: Option<u16>,
    payload: Str,
    properties: Option<Properties>)

  // ---- Writing ----

  function UsersLen(us: Pairs): nat {
    if us == [] then 0 else 5 + |us[0].0| + |us[0].1| + UsersLen(us[1..])
  }

  /** The length announced for the properties before any is written. */
  function EstLen(p: Properties): nat {
    (if p.payloadFormat.Some? then 2 else 0)
    + (if p.expiry.Some? then 5 else 0)
    + (if p.contentType.Some? then 3 + |p.contentType.value| else 0)
    + UsersLen(ListOf(p.users))
  }

  predicate Fits(p: Properties) {
    Short(p.contentType) && ShortPairs(ListOf(p.users))
  }

  /** The four kinds of property the encoder writes, in its order. */
  function PropBytes(p: Properties): Str
    requires Fits(p)
  {
    Tagged8(0x01, p.payloadFormat) + Tagged32(0x02, p.expiry) + TaggedStr(0x03, p.contentType)
    + PairsBytes(ListOf(p.users))
  }

  function PropsEncoding(p: Properties): Outcome<Str, string> {
    if EstLen(p) % WORD > MAX_ENCODABLE then Err("error encode length")
    else if !Fits(p) then Err("String too long")
    else Ok(LenBytes(EstLen(p) % WORD) + PropBytes(p))
  }

  function Header(p: Packet): byte {
    ((0x30 as bv8) | ((if p.dup then 1 else 0) << 4) | ((Code(p.qos) as bv8) << 1) | (if p.retain then 1 else 0))
      as byte
  }

  function IdBytes(o: Option<u16>): Str {
    match o case None => [] case Some(v) => U16Bytes(v)
  }

  function Body(p: Packet, prop: Str): Str
    requires |p.topic| <= MAX_STR
  {
    StrBytes(p.topic) + IdBytes(p.id) + prop + p.payload
  }

  /** The length announced for the packet, from lengths alone. */
  function BodyLen(p: Packet, prop: Str): nat {
    2 + |p.topic| + |prop| + |p.payload| + if p.id.Some? then 2 else 0
  }

  function PropPart(p: Packet): Outcome<Str, string> {
    match p.properties case None => Ok([0]) case Some(pr) => PropsEncoding(pr)
  }

  function Encoding(p: Packet): Outcome<Str, string> {
    match PropPart(p)
    case Panic => Panic
    case Err(e) => Err(e)
    case Ok(prop) =>
      if BodyLen(p, prop) % WORD > MAX_ENCODABLE then Err("error encode length")
      else if |p.topic| > MAX_STR then Err("String too long")
      else Ok([Header(p)] + LenBytes(BodyLen(p, prop) % WORD) + Body(p, prop))
  }

  // ---- Reading ----

  /** One tagged property read into `acc`. */
  function ParseField(s: Str, acc: Properties): (r: Parse<Properties>)
    requires s != []
    ensures r.Ok? ==> |r.value.rest| < |s|
  {
    var t := s[1..];
    match s[0]
    case 0x01 => Lift(ParseU8(t), (v: byte) => acc.(payloadFormat := Some(v)))
    case 0x02 => Lift(ParseU32(t), (v: u32) => acc.(expiry := Some(v)))
    case 0x23 => Lift(ParseU16(t), (v: u16) => acc.(topicAlias := Some(v)))
    case 0x08 => Lift(ParseString(t), (v: Str) => acc.(responseTopic := Some(v)))
    case 0x09 => Lift(ParseBinary(t), (v: Str) => acc.(correlationData := Some(v)))
    case 0x26 => Lift(ParsePair(t), (v: (Str, Str)) => acc.(users := Push(acc.users, v)))
    case 0x0B => Lift(ParseLen(t), (v: nat) => acc.(subscriptionId := Some([v])))
    case 0x03 => Lift(ParseString(t), (v: Str) => acc.(contentType := Some(v)))
    case _ => Err("Unknown property identifier")
  }

  function ParseFields(s: Str, acc: Properties): Outcome<Properties, string>
    decreases |s|
  {
    if s == [] then Ok(acc)
    else
      match ParseField(s, acc)
      case Ok(Read(acc', rest)) => ParseFields(rest, acc')
      case Err(e) => Err(e)
      case Panic => Panic
  }

  function ParseProps(s: Str): Parse<Option<Properties>> {
    match ParseLen(s)
    case Panic => Panic
    case Err(e) => Err("Failed to decode properties length")
    case Ok(Read(n, rest)) =>
      if n == 0 then Ok(Read(None, rest))
      else if |rest| < n then Err("Buffer too short for properties")
      else
        match ParseFields(rest[..n], NO_PROPERTIES)
        case Ok(p) => Ok(Read(Some(p), rest[n..]))
        case Err(e) => Err(e)
        case Panic => Panic
  }

  function ParseId(q: ServiceLevel, s: Str): Parse<Option<u16>> {
    if Code(q) > 0 then Lift(ParseU16(s), (v: u16) => Some(v)) else Ok(Read(None, s))
  }

  function Flag(h: byte, mask: bv8): bool {
    (h as bv8) & mask != 0
  }

  function LevelBits(h: byte): byte {
    (((h as bv8) & 0x06) >> 1) as byte
  }

  function Decoding(s: Str): Outcome<Packet, string> {
    if |s| < 2 then Err("Buffer too short")
    else if s[0] / 16 != 3 then Err("Invalid packet type for PUBLISH")
    else if TryFrom(LevelBits(s[0])).None? then Err("QoS not Supported")
    else
      match ParseLen(s[1..])
      case Panic => Panic
      case Err(e) => Err("Failed to decode remaining length")
      case Ok(Read(n, rest)) =>
        if |rest| < n then Err("Buffer too short for remaining length")
        else DecodingBody(s[0], TryFrom(LevelBits(s[0])).value, rest)
  }

  function DecodingBody(h: byte, q: ServiceLevel, s: Str): Outcome<Packet, string> {
    match ParseString(s)
    case Panic => Panic
    case Err(e) => Err(e)
    case Ok(Read(topic, s1)) =>
      match ParseId(q, s1)
      case Panic => Panic
      case Err(e) => Err(e)
      case Ok(Read(id, s2)) =>
        match ParseProps(s2)
        case Panic => Panic
        case Err(e) => Err(e)
        case Ok(Read(properties, payload)) =>
          Ok(Packet(Flag(h, 0x08), q, Flag(h, 0x01), topic, id, payload, properties))
  }

  // ---- The announced lengths are the lengths written ----

  lemma {:induction false} UsersLenIsSize(us: Pairs)
    requires ShortPairs(us)
    ensures UsersLen(us) == |PairsBytes(us)|
  {
    if us != [] {
      assert us[0] in us;
      UsersLenIsSize(us[1..]);
    }
  }

  lemma {:induction false} EstLenIsSize(p: Properties)
    requires Fits(p)
    ensures EstLen(p) == |PropBytes(p)|
  {
    UsersLenIsSize(ListOf(p.users));
  }

  lemma {:induction false} BodyLenIsSize(p: Packet, prop: Str)
    requires |p.topic| <= MAX_STR
    ensures BodyLen(p, prop) == |Body(p, prop)|
  {
  }

  // ---- The encoder and decoder ----

  method EstimateLen(p: Properties) returns (len: nat)
    ensures len == EstLen(p)
  {
    len := 0;
    if p.payloadFormat.Some? { len := len + 2; }
    if p.expiry.Some? { len := len + 5; }
    if p.contentType.Some? { len := len + 3 + |p.contentType.value|; }
    if p.users.Some? {
      var us, i := p.users.value, 0;
      while i < |us|
        invariant 0 <= i <= |us| && len + UsersLen(us[i..]) == EstLen(p)
      {
        assert us[i..][1..] == us[i + 1..];
        len := len + 5 + |us[i].0| + |us[i].1|;
        i := i + 1;
      }
    }
  }

  method PutProps(buf: BytesMut, p: Properties) returns (ok: bool)
    modifies buf
    ensures ok == Fits(p)
    ensures ok ==> buf.data == old(buf.data) + PropBytes(p)
  {
    buf.PutTagged8(0x01, p.payloadFormat);
    buf.PutTagged32(0x02, p.expiry);
    ok := buf.PutTaggedStr(0x03, p.contentType);
    if !ok { return; }
    if p.users.Some? {
      ok := buf.PutPairs(p.users.value);
      if !ok { return; }
    }
    Assoc(old(buf.data), Tagged8(0x01, p.payloadFormat), Tagged32(0x02, p.expiry),
          TaggedStr(0x03, p.contentType), PairsBytes(ListOf(p.users)));
  }

  method EncodeProps(p: Properties) returns (r: Outcome<Str, string>)
    ensures r == PropsEncoding(p)
  {
    var n := EstimateLen(p);
    var ok, rml, sz := RemainingLength.Encode(n % WORD);
    if !ok { return Err("error encode length"); }
    var buf := new BytesMut(rml[..sz]);
    ok := PutProps(buf, p);
    if !ok { return Err("String too long"); }
    r := Ok(buf.data);
  }

  method PutBody(buf: BytesMut, p: Packet, prop: Str) returns (ok: bool)
    modifies buf
    ensures ok == (|p.topic| <= MAX_STR)
    ensures ok ==> buf.data == old(buf.data) + Body(p, prop)
  {
    ok := buf.EncodeString(p.topic);
    if !ok { return; }
    if p.id.Some? { buf.Put(U16Bytes(p.id.value)); }
    buf.Put(prop);
    buf.Put(p.payload);
    Assoc(old(buf.data), StrBytes(p.topic), IdBytes(p.id), prop, p.payload);
  }

  method Encode(p: Packet) returns (r: Outcome<Str, string>)
    ensures r == Encoding(p)
  {
    var prop: Str := [0x00];
    if p.properties.Some? {
      var pr := EncodeProps(p.properties.value);
      if !pr.Ok? { return pr; }
      prop := pr.value;
    }
    var len := 2 + |p.topic| + |prop| + |p.payload|;
    if p.id.Some? { len := len + 2; }
    var ok, rml, sz := RemainingLength.Encode(len % WORD);
    if !ok { return Err("error encode length"); }
    var buf := new BytesMut([Header(p)]);
    buf.Put(rml[..sz]);
    ok := PutBody(buf, p, prop);
    if !ok { return Err("String too long"); }
    r := Ok(buf.data);
  }

  method DecodeField(buf: BytesMut, acc: Properties) returns (r: Outcome<Properties, string>)
    requires buf.data != []
    modifies buf
    ensures Agrees(r, buf.data, ParseField(old(buf.data), acc))
  {
    var tag := buf.GetU8();
    match tag.value
    case 0x01 =>
      var v := buf.GetU8();
      r := Fill(v, x => acc.(payloadFormat := Some(x)));
    case 0x02 =>
      var v := buf.GetU32();
      r := Fill(v, x => acc.(expiry := Some(x)));
    case 0x23 =>
      var v := buf.GetU16();
      r := Fill(v, x => acc.(topicAlias := Some(x)));
    case 0x08 =>
      var v := buf.DecodeString();
      r := Fill(v, x => acc.(responseTopic := Some(x)));
    case 0x09 =>
      var v := buf.DecodeBinary();
      r := Fill(v, x => acc.(correlationData := Some(x)));
    case 0x26 =>
      var v := buf.DecodePair();
      r := Fill(v, x => acc.(users := Push(acc.users, x)));
    case 0x0B =>
      var v := RemainingLength.Decode(buf);
      r := Fill(v, x => acc.(subscriptionId := Some([x])));
    case 0x03 =>
      var v := buf.DecodeString();
      r := Fill(v, x => acc.(contentType := Some(x)));
    case _ =>
      r := Err("Unknown property identifier");
  }

  method DecodeProps(buf: BytesMut) returns (r: Outcome<Option<Properties>, string>)
    modifies buf
    ensures Agrees(r, buf.data, ParseProps(old(buf.data)))
  {
    var n := RemainingLength.Decode(buf);
    if n.Panic? { return Panic; }
    if n.Err? { return Err("Failed to decode properties length"); }
    if n.value == 0 { return Ok(None); }
    if |buf.data| < n.value { return Err("Buffer too short for properties"); }
    var block := buf.SplitTo(n.value);
    ghost var rest := buf.data;
    var part := new BytesMut(block);
    var acc := NO_PROPERTIES;
    while |part.data| != 0
      invariant buf.data == rest && fresh(part)
      invariant ParseFields(part.data, acc) == ParseFields(block, NO_PROPERTIES)
      decreases |part.data|
    {
      var f := DecodeField(part, acc);
      if f.Panic? { return Panic; }
      if f.Err? { return Err(f.error); }
      acc := f.value;
    }
    r := Ok(Some(acc));
  }

  method Decode(buf: BytesMut) returns (r: Outcome<Packet, string>)
    modifies buf
    ensures r == Decoding(old(buf.data))
  {
    if |buf.data| < 2 { return Err("Buffer too short"); }
    var h := buf.GetU8();
    if h.value / 16 != 3 { return Err("Invalid packet type for PUBLISH"); }
    var qos := TryFrom(LevelBits(h.value));
    if qos.None? { return Err("QoS not Supported"); }
    var n := RemainingLength.Decode(buf);
    if n.Panic? { return Panic; }
    if n.Err? { return Err("Failed to decode remaining length"); }
    if |buf.data| < n.value { return Err("Buffer too short for remaining length"); }
    r := DecodeBody(buf, h.value, qos.value);
  }

  method DecodeBody(buf: BytesMut, h: byte, q: ServiceLevel) returns (r: Outcome<Packet, string>)
    modifies buf
    ensures r == DecodingBody(h, q, old(buf.data))
  {
    var topic := buf.DecodeString();
    if topic.Panic? { return Panic; }
    if topic.Err? { return Err(topic.error); }
    var id: Option<u16> := None;
    if Code(q) > 0 {
      var v := buf.GetU16();
      if v.Panic? { return Panic; }
      id := Some(v.value);
    }
    var properties := DecodeProps(buf);
    if properties.Panic? { return Panic; }
    if properties.Err? { return Err(properties.error); }
    r := Ok(Packet(Flag(h, 0x08), q, Flag(h, 0x01), topic.value, id, buf.data, properties.value));
  }
}
