/**
 Decoding an encoded PUBLISH packet: what comes back in every case, and
 exactly which packets come back unchanged.
 */
module PublishRoundTrip {
  import opened Wrappers
  import opened Bytes
  import opened ServiceLevels
  import opened RemainingLength
  import opened Publish

  predicate TextPairs(us: Pairs) {
    forall u :: u in us ==> ValidUtf8(u.0) && ValidUtf8(u.1)
  }

  /** The strings of the packet are strings. */
  predicate Typed(p: Packet) {
    ValidUtf8(p.topic) && (p.properties.Some? ==> TypedProps(p.properties.value))
  }

  predicate TypedProps(p: Properties) {
    TextOf(p.contentType) && TextPairs(ListOf(p.users))
  }

  /** The packet with everything the encoder does not write removed. */
  function Written(p: Properties): Properties {
    NO_PROPERTIES.(payloadFormat := p.payloadFormat, expiry := p.expiry, contentType := p.contentType,
                   users := PushAll(None, ListOf(p.users)))
  }

  // ---- Fields ----

  lemma {:induction false} Field8Back(o: Option<byte>, t: Str, acc: Properties)
    requires acc.payloadFormat.None?
    ensures ParseFields(Tagged8(0x01, o) + t, acc) == ParseFields(t, acc.(payloadFormat := o))
  {
    var s := Tagged8(0x01, o) + t;
    if o.Some? {
      assert s[1..][1..] == t;
    } else {
      assert s == t;
    }
  }

  lemma {:induction false} Field32Back(o: Option<u32>, t: Str, acc: Properties)
    requires acc.expiry.None?
    ensures ParseFields(Tagged32(0x02, o) + t, acc) == ParseFields(t, acc.(expiry := o))
  {
    var s := Tagged32(0x02, o) + t;
    if o.Some? {
      assert s[1..] == U32Bytes(o.value) + t;
      U32RoundTrip(o.value, t);
    } else {
      assert s == t;
    }
  }

  lemma {:induction false} TaggedRest(tag: byte, v: Str, t: Str)
    ensures ([tag] + v + t)[1..] == v + t
  {
  }

  lemma {:induction false} FieldStrBack(o: Option<Str>, t: Str, acc: Properties)
    requires Short(o) && TextOf(o) && acc.contentType.None?
    ensures ParseFields(TaggedStr(0x03, o) + t, acc) == ParseFields(t, acc.(contentType := o))
  {
    var s := TaggedStr(0x03, o) + t;
    if o.Some? {
      TaggedRest(0x03, StrBytes(o.value), t);
      StringRoundTrip(o.value, t);
      StrRead(s, o.value, t, acc);
    } else {
      assert s == t;
    }
  }

  lemma {:induction false} StrRead(s: Str, v: Str, t: Str, acc: Properties)
    requires s != [] && s[0] == 0x03 && ParseString(s[1..]) == Ok(Read(v, t))
    ensures ParseFields(s, acc) == ParseFields(t, acc.(contentType := Some(v)))
  {
    FieldRead(s, acc, acc.(contentType := Some(v)), t);
  }

  /** A field read, then the rest. */
  lemma {:induction false} FieldRead(s: Str, acc: Properties, acc': Properties, t: Str)
    requires s != [] && ParseField(s, acc) == Ok(Read(acc', t))
    ensures ParseFields(s, acc) == ParseFields(t, acc')
  {
  }

  lemma {:induction false} UserBack(u: (Str, Str), t: Str, acc: Properties)
    requires |u.0| <= MAX_STR && |u.1| <= MAX_STR && ValidUtf8(u.0) && ValidUtf8(u.1)
    ensures ParseFields(PairBytes(u) + t, acc) == ParseFields(t, acc.(users := Push(acc.users, u)))
  {
    var s := PairBytes(u) + t;
    assert s[1..] == StrBytes(u.0) + StrBytes(u.1) + t;
    PairRoundTrip(u.0, u.1, t);
    UserRead(s, u, t, acc);
  }

  lemma {:induction false} UserRead(s: Str, u: (Str, Str), t: Str, acc: Properties)
    requires s != [] && s[0] == USER_TAG && ParsePair(s[1..]) == Ok(Read(u, t))
    ensures ParseFields(s, acc) == ParseFields(t, acc.(users := Push(acc.users, u)))
  {
    var f := (v: (Str, Str)) => acc.(users := Push(acc.users, v));
    assert ParseField(s, acc) == Lift(ParsePair(s[1..]), f);
    assert ParseField(s, acc) == Ok(Read(f(u), t));
    FieldRead(s, acc, f(u), t);
  }

  lemma {:induction false} UsersBack(us: Pairs, acc: Properties)
    requires ShortPairs(us) && TextPairs(us)
    ensures ParseFields(PairsBytes(us), acc) == Ok(acc.(users := PushAll(acc.users, us)))
    decreases |us|
  {
    if us != [] {
      assert us[0] in us;
      UserBack(us[0], PairsBytes(us[1..]), acc);
      UsersBack(us[1..], acc.(users := Push(acc.users, us[0])));
      PushAllStep(acc.users, us);
    }
  }

  lemma {:induction false} FieldsBack(p: Properties)
    requires Fits(p) && TypedProps(p)
    ensures ParseFields(PropBytes(p), NO_PROPERTIES) == Ok(Written(p))
  {
    var us := PairsBytes(ListOf(p.users));
    var c := TaggedStr(0x03, p.contentType) + us;
    var e := Tagged32(0x02, p.expiry) + c;
    assert PropBytes(p) == Tagged8(0x01, p.payloadFormat) + e;
    var a1 := NO_PROPERTIES.(payloadFormat := p.payloadFormat);
    var a2 := a1.(expiry := p.expiry);
    Field8Back(p.payloadFormat, e, NO_PROPERTIES);
    Field32Back(p.expiry, c, a1);
    FieldStrBack(p.contentType, us, a2);
    UsersBack(ListOf(p.users), a2.(contentType := p.contentType));
  }

  /** A property block comes back without the fields the encoder skips. */
  lemma {:induction false} PropsBack(p: Properties, t: Str)
    requires Fits(p) && TypedProps(p) && 0 < EstLen(p) <= MAX_ENCODABLE
    ensures ParseProps(LenBytes(EstLen(p)) + PropBytes(p) + t) == Ok(Read(Some(Written(p)), t))
  {
    var n, b := EstLen(p), PropBytes(p);
    Regroup(LenBytes(n), b, t);
    LenRoundTrip(n, b + t);
    EstLenIsSize(p);
    FieldsBack(p);
    PropsRead(LenBytes(n) + b + t, b, t, Written(p));
  }

  lemma {:induction false} PropsRead(s: Str, b: Str, t: Str, pr: Properties)
    requires b != [] && ParseLen(s) == Ok(Read(|b|, b + t)) && ParseFields(b, NO_PROPERTIES) == Ok(pr)
    ensures ParseProps(s) == Ok(Read(Some(pr), t))
  {
    assert (b + t)[..|b|] == b && (b + t)[|b|..] == t;
  }

  // ---- Header ----

  lemma {:induction false} HeaderBits(p: Packet)
    ensures Header(p) / 16 == 3
    ensures LevelBits(Header(p)) == Code(p.qos)
    ensures !Flag(Header(p), 0x08) && Flag(Header(p), 0x01) == p.retain
  {
    match p.qos
    case QoS0 =>
    case QoS1 =>
    case QoS2 =>
  }

  // ---- The whole packet ----

  /** The packet encodes within one frame. */
  predicate FrameFits(p: Packet) {
    PropPart(p).Ok? && BodyLen(p, PropPart(p).value) <= MAX_ENCODABLE && |p.topic| <= MAX_STR
  }

  predicate IdWhenNeeded(p: Packet) {
    p.id.Some? <==> Code(p.qos) > 0
  }

  lemma {:induction false} FramePropsFit(p: Packet)
    requires FrameFits(p) && p.properties.Some?
    ensures Fits(p.properties.value) && EstLen(p.properties.value) <= MAX_ENCODABLE
    ensures PropPart(p).value == LenBytes(EstLen(p.properties.value)) + PropBytes(p.properties.value)
  {
    var pr := p.properties.value;
    EstLenIsSize(pr);
    assert |PropPart(p).value| >= EstLen(pr);
    NoWrap(EstLen(pr));
  }

  lemma {:induction false} IdBack(p: Packet, t: Str)
    requires IdWhenNeeded(p)
    ensures ParseId(p.qos, IdBytes(p.id) + t) == Ok(Read(p.id, t))
  {
    if p.id.Some? {
      U16RoundTrip(p.id.value, t);
    } else {
      assert IdBytes(p.id) + t == t;
    }
  }

  /** Up to the properties the packet is read back as written. */
  lemma {:induction false} BodyBack(p: Packet, prop: Str, h: byte)
    requires |p.topic| <= MAX_STR && ValidUtf8(p.topic) && IdWhenNeeded(p)
    ensures DecodingBody(h, p.qos, Body(p, prop)) ==
      match ParseProps(prop + p.payload)
      case Panic => Panic
      case Err(e) => Err(e)
      case Ok(Read(pr, payload)) => Ok(Packet(Flag(h, 0x08), p.qos, Flag(h, 0x01), p.topic, p.id, payload, pr))
  {
    var rest := IdBytes(p.id) + (prop + p.payload);
    assert Body(p, prop) == StrBytes(p.topic) + rest;
    StringRoundTrip(p.topic, rest);
    IdBack(p, prop + p.payload);
  }

  /** An encoded frame is accepted up to its body, which is not cut at the length
      announced: bytes that follow the frame are read as more of it. */
  lemma {:induction false} FrameBack(p: Packet, t: Str)
    requires FrameFits(p)
    ensures Encoding(p).Ok?
    ensures Decoding(Encoding(p).value + t) == DecodingBody(Header(p), p.qos, Body(p, PropPart(p).value) + t)
  {
    var body := Body(p, PropPart(p).value);
    var n := BodyLen(p, PropPart(p).value);
    BodyLenIsSize(p, PropPart(p).value);
    NoWrap(n);
    LenRoundTrip(n, body + t);
    HeaderBits(p);
    FrameRead(Header(p), LenBytes(n), body, t);
    CodesAreNames(Code(p.qos));
  }

  lemma {:induction false} FrameRead(h: byte, len: Str, body: Str, t: Str)
    requires ParseLen(len + (body + t)) == Ok(Read(|body|, body + t))
    requires h / 16 == 3 && TryFrom(LevelBits(h)).Some?
    ensures Decoding([h] + len + body + t) == DecodingBody(h, TryFrom(LevelBits(h)).value, body + t)
  {
    var s := [h] + len + body + t;
    assert s[1..] == len + (body + t);
  }

  /** The packet with more bytes at the end of its payload. */
  function Longer(p: Packet, t: Str): Packet {
    p.(payload := p.payload + t)
  }

  lemma {:induction false} LongerBody(p: Packet, prop: Str, t: Str)
    requires |p.topic| <= MAX_STR
    ensures Body(p, prop) + t == Body(Longer(p, t), prop)
  {
  }

  /** What decoding gives back: everything but the dup flag and the property
      fields the encoder skips, and whatever follows the frame as payload. */
  lemma {:induction false} PublishComesBack(p: Packet, t: Str)
    requires Typed(p) && FrameFits(p) && IdWhenNeeded(p)
    requires p.properties.Some? ==> EstLen(p.properties.value) > 0
    ensures Encoding(p).Ok?
    ensures Decoding(Encoding(p).value + t) == Ok(Longer(p, t).(
        dup := false,
        properties := if p.properties.None? then None else Some(Written(p.properties.value))))
  {
    var prop, long := PropPart(p).value, Longer(p, t);
    FrameBack(p, t);
    LongerBody(p, prop, t);
    BodyBack(long, prop, Header(p));
    HeaderBits(p);
    if p.properties.Some? {
      FramePropsFit(p);
      PropsBack(p.properties.value, long.payload);
    } else {
      assert ([0] + long.payload)[1..] == long.payload;
    }
  }

  /** Nothing but the four written kinds of property, at least one of them,
      and no empty list of user properties. */
  predicate WritesAll(p: Properties) {
    && p.topicAlias.None? && p.responseTopic.None? && p.correlationData.None? && p.subscriptionId.None?
    && (p.payloadFormat.Some? || p.expiry.Some? || p.contentType.Some? || p.users.Some?)
    && p.users != Some([])
  }

  predicate Faithful(p: Packet) {
    !p.dup && IdWhenNeeded(p) && (p.properties.Some? ==> WritesAll(p.properties.value))
  }

  lemma {:induction false} WritesAllMeans(p: Properties)
    ensures WritesAll(p) <==> EstLen(p) > 0 && Written(p) == p
  {
    assert [] + ListOf(p.users) == ListOf(p.users);
    assert ListOf(p.users) != [] ==> UsersLen(ListOf(p.users)) > 0;
  }

  lemma {:induction false} DecodedIds(h: byte, q: ServiceLevel, s: Str)
    ensures var r := DecodingBody(h, q, s); r.Ok? ==> r.value.qos == q && IdWhenNeeded(r.value)
  {
  }

  /** With nothing written for the properties, the payload is read as them. */
  lemma {:induction false} NoPropsShortens(p: Packet)
    requires Typed(p) && FrameFits(p) && IdWhenNeeded(p) && p.properties.Some? && EstLen(p.properties.value) == 0
    ensures Encoding(p).Ok? && Decoding(Encoding(p).value) != Ok(p)
  {
    FrameBack(p, []);
    assert Encoding(p).value + [] == Encoding(p).value && Body(p, PropPart(p).value) + [] == Body(p, PropPart(p).value);
    EmptyPropPart(p);
    BodyBack(p, [], Header(p));
    assert [] + p.payload == p.payload;
    PropsShorten(p.payload);
  }

  lemma {:induction false} EmptyPropPart(p: Packet)
    requires FrameFits(p) && p.properties.Some? && EstLen(p.properties.value) == 0
    ensures PropPart(p).value == []
  {
    FramePropsFit(p);
    EstLenIsSize(p.properties.value);
  }

  lemma {:induction false} PropsShorten(s: Str)
    ensures ParseProps(s).Ok? ==> |ParseProps(s).value.rest| < |s|
  {
  }

  /** Among packets that fit one frame, exactly the faithful ones come back
      unchanged. */
  lemma {:induction false} PublishRoundTrip(p: Packet)
    requires Typed(p) && FrameFits(p)
    ensures Encoding(p).Ok?
    ensures Decoding(Encoding(p).value) == Ok(p) <==> Faithful(p)
  {
    FrameBack(p, []);
    assert Encoding(p).value + [] == Encoding(p).value;
    if !IdWhenNeeded(p) {
      DecodedIds(Header(p), p.qos, Body(p, PropPart(p).value) + []);
    } else if p.properties.Some? && EstLen(p.properties.value) == 0 {
      NoPropsShortens(p);
      WritesAllMeans(p.properties.value);
    } else {
      PublishComesBack(p, []);
      assert Longer(p, []) == p by { assert p.payload + [] == p.payload; }
      if p.properties.Some? { WritesAllMeans(p.properties.value); }
    }
  }
}
