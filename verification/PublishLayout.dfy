/**
 The bytes of a PUBLISH packet as section 3.3 of MQTT Version 5.0 lays them out:
 what any laid out packet is decoded to, what an encoded packet looks like, and
 which packets are refused.
 */
module PublishLayout {
  import opened Wrappers
  import opened Bytes
  import opened Picks
  import opened ServiceLevels
  import opened RemainingLength
  import opened Publish
  import opened PublishRoundTrip

  // ---- Property sections ----

  /** A property of section 3.3.2.3. */
  datatype Item =
    | PayloadFormat(format: byte)
    | Expiry(seconds: u32)
    | Alias(alias: u16)
    | Response(response: Str)
    | Correlation(data: Str)
    | User(name: Str, value: Str)
    | Subscription(id: nat)
    | ContentType(content: Str)

  /** Strings are short and UTF-8, and numbers can be encoded. */
  predicate GoodItem(x: Item) {
    match x
    case Response(v) => |v| <= MAX_STR && ValidUtf8(v)
    case Correlation(v) => |v| <= MAX_STR
    case User(k, v) => |k| <= MAX_STR && |v| <= MAX_STR && ValidUtf8(k) && ValidUtf8(v)
    case Subscription(n) => n <= MAX_ENCODABLE
    case ContentType(v) => |v| <= MAX_STR && ValidUtf8(v)
    case _ => true
  }

  predicate GoodItems(items: seq<Item>) {
    forall x :: x in items ==> GoodItem(x)
  }

  function ItemBytes(x: Item): Str
    requires GoodItem(x)
  {
    match x
    case PayloadFormat(b) => [0x01, b]
    case Expiry(n) => [0x02] + U32Bytes(n)
    case Alias(n) => [0x23] + U16Bytes(n)
    case Response(v) => [0x08] + StrBytes(v)
    case Correlation(v) => [0x09] + StrBytes(v)
    case User(k, v) => [0x26] + (StrBytes(k) + StrBytes(v))
    case Subscription(n) => [0x0B] + VarLen(n)
    case ContentType(v) => [0x03] + StrBytes(v)
  }

  function ItemsBytes(items: seq<Item>): Str
    requires GoodItems(items)
  {
    if items == [] then [] else assert items[0] in items; ItemBytes(items[0]) + ItemsBytes(items[1..])
  }

  function FormatOf(x: Item): Option<byte> {
    if x.PayloadFormat? then Some(x.format) else None
  }

  function ExpiryOf(x: Item): Option<u32> {
    if x.Expiry? then Some(x.seconds) else None
  }

  function AliasOf(x: Item): Option<u16> {
    if x.Alias? then Some(x.alias) else None
  }

  function ResponseOf(x: Item): Option<Str> {
    if x.Response? then Some(x.response) else None
  }

  function CorrelationOf(x: Item): Option<Str> {
    if x.Correlation? then Some(x.data) else None
  }

  function SubscriptionOf(x: Item): Option<seq<nat>> {
    if x.Subscription? then Some([x.id]) else None
  }

  function ContentOf(x: Item): Option<Str> {
    if x.ContentType? then Some(x.content) else None
  }

  function UserOf(x: Item): Option<(Str, Str)> {
    if x.User? then Some((x.name, x.value)) else None
  }

  /** Every field holds the last value laid out for it, the user properties all. */
  predicate Holds(p: Properties, items: seq<Item>) {
    && p.payloadFormat == LastOf(items, FormatOf)
    && p.expiry == LastOf(items, ExpiryOf)
    && p.topicAlias == LastOf(items, AliasOf)
    && p.responseTopic == LastOf(items, ResponseOf)
    && p.correlationData == LastOf(items, CorrelationOf)
    && p.subscriptionId == LastOf(items, SubscriptionOf)
    && p.contentType == LastOf(items, ContentOf)
    && ListOf(p.users) == AllOf(items, UserOf)
    && p.users != Some([])
  }

  // ---- One property read ----

  /** The fields of `q` are those of `p`, but the one of `x`, which is its value. */
  predicate Sets(p: Properties, x: Item, q: Properties) {
    && q.payloadFormat == (if x.PayloadFormat? then Some(x.format) else p.payloadFormat)
    && q.expiry == (if x.Expiry? then Some(x.seconds) else p.expiry)
    && q.topicAlias == (if x.Alias? then Some(x.alias) else p.topicAlias)
    && q.responseTopic == (if x.Response? then Some(x.response) else p.responseTopic)
    && q.correlationData == (if x.Correlation? then Some(x.data) else p.correlationData)
    && q.subscriptionId == (if x.Subscription? then Some([x.id]) else p.subscriptionId)
    && q.contentType == (if x.ContentType? then Some(x.content) else p.contentType)
    && q.users == (if x.User? then Some(ListOf(p.users) + [(x.name, x.value)]) else p.users)
  }

  lemma {:induction false} TagRead(tag: byte, v: Str, t: Str)
    ensures ([tag] + v + t)[0] == tag && ([tag] + v + t)[1..] == v + t
  {
  }

  lemma {:induction false} NumberRead(x: Item, t: Str, acc: Properties) returns (q: Properties)
    requires x.PayloadFormat? || x.Expiry? || x.Alias? || (x.Subscription? && GoodItem(x))
    ensures ParseField(ItemBytes(x) + t, acc) == Ok(Read(q, t)) && Sets(acc, x, q)
  {
    match x
    case PayloadFormat(b) =>
      TagRead(0x01, [b], t);
      assert [0x01, b] == [0x01] + [b] && ([b] + t)[1..] == t;
      q := acc.(payloadFormat := Some(b));
    case Expiry(n) =>
      TagRead(0x02, U32Bytes(n), t);
      U32RoundTrip(n, t);
      q := acc.(expiry := Some(n));
    case Alias(n) =>
      TagRead(0x23, U16Bytes(n), t);
      U16RoundTrip(n, t);
      q := acc.(topicAlias := Some(n));
    case Subscription(n) =>
      TagRead(0x0B, VarLen(n), t);
      VarLenBack(n, t);
      q := acc.(subscriptionId := Some([n]));
  }

  lemma {:induction false} StringFieldRead(s: Str, v: Str, t: Str, acc: Properties)
    requires s != [] && ParseString(s[1..]) == Ok(Read(v, t))
    ensures s[0] == 0x08 ==> ParseField(s, acc) == Ok(Read(acc.(responseTopic := Some(v)), t))
    ensures s[0] == 0x03 ==> ParseField(s, acc) == Ok(Read(acc.(contentType := Some(v)), t))
  {
  }

  lemma {:induction false} DataFieldRead(s: Str, v: Str, t: Str, acc: Properties)
    requires s != [] && s[0] == 0x09 && ParseBinary(s[1..]) == Ok(Read(v, t))
    ensures ParseField(s, acc) == Ok(Read(acc.(correlationData := Some(v)), t))
  {
  }

  lemma {:induction false} UserFieldRead(s: Str, u: (Str, Str), t: Str, acc: Properties)
    requires s != [] && s[0] == 0x26 && ParsePair(s[1..]) == Ok(Read(u, t))
    ensures ParseField(s, acc) == Ok(Read(acc.(users := Push(acc.users, u)), t))
  {
    var f := (v: (Str, Str)) => acc.(users := Push(acc.users, v));
    assert ParseField(s, acc) == Lift(ParsePair(s[1..]), f);
  }

  lemma {:induction false} StringRead(x: Item, t: Str, acc: Properties) returns (q: Properties)
    requires GoodItem(x) && (x.Response? || x.ContentType?)
    ensures ParseField(ItemBytes(x) + t, acc) == Ok(Read(q, t)) && Sets(acc, x, q)
  {
    var tag, v := if x.Response? then 0x08 else 0x03, if x.Response? then x.response else x.content;
    TagRead(tag, StrBytes(v), t);
    StringRoundTrip(v, t);
    StringFieldRead(ItemBytes(x) + t, v, t, acc);
    q := if x.Response? then acc.(responseTopic := Some(v)) else acc.(contentType := Some(v));
  }

  lemma {:induction false} DataRead(x: Item, t: Str, acc: Properties) returns (q: Properties)
    requires GoodItem(x) && x.Correlation?
    ensures ParseField(ItemBytes(x) + t, acc) == Ok(Read(q, t)) && Sets(acc, x, q)
  {
    TagRead(0x09, StrBytes(x.data), t);
    BinaryRoundTrip(x.data, t);
    DataFieldRead(ItemBytes(x) + t, x.data, t, acc);
    q := acc.(correlationData := Some(x.data));
  }

  lemma {:induction false} UserItemRead(x: Item, t: Str, acc: Properties) returns (q: Properties)
    requires GoodItem(x) && x.User?
    ensures ParseField(ItemBytes(x) + t, acc) == Ok(Read(q, t)) && Sets(acc, x, q)
  {
    TagRead(0x26, StrBytes(x.name) + StrBytes(x.value), t);
    PairRoundTrip(x.name, x.value, t);
    UserFieldRead(ItemBytes(x) + t, (x.name, x.value), t, acc);
    q := acc.(users := Push(acc.users, (x.name, x.value)));
  }

  lemma {:induction false} ItemRead(x: Item, t: Str, acc: Properties) returns (q: Properties)
    requires GoodItem(x)
    ensures ParseField(ItemBytes(x) + t, acc) == Ok(Read(q, t)) && Sets(acc, x, q)
  {
    if x.Response? || x.ContentType? {
      q := StringRead(x, t, acc);
    } else if x.Correlation? {
      q := DataRead(x, t, acc);
    } else if x.User? {
      q := UserItemRead(x, t, acc);
    } else {
      q := NumberRead(x, t, acc);
    }
  }

  // ---- Any section read ----

  lemma {:induction false} HoldsMore(p: Properties, items: seq<Item>, x: Item, q: Properties)
    requires Holds(p, items) && Sets(p, x, q)
    ensures Holds(q, items + [x])
  {
    OneMorePick(items, x, FormatOf);
    OneMorePick(items, x, ExpiryOf);
    OneMorePick(items, x, AliasOf);
    OneMorePick(items, x, ResponseOf);
    OneMorePick(items, x, CorrelationOf);
    OneMorePick(items, x, SubscriptionOf);
    OneMorePick(items, x, ContentOf);
    OneMorePick(items, x, UserOf);
  }

  lemma {:induction false} ItemsRead(done: seq<Item>, items: seq<Item>, t: Str, p: Properties) returns (q: Properties)
    requires GoodItems(items) && Holds(p, done)
    ensures ParseFields(ItemsBytes(items) + t, p) == ParseFields(t, q) && Holds(q, done + items)
    decreases |items|
  {
    hide Holds, Sets, ItemBytes, GoodItem;
    if items == [] {
      assert done + items == done && ItemsBytes(items) + t == t;
      q := p;
    } else {
      var x, rest := items[0], items[1..];
      assert x in items;
      var p1 := ItemRead(x, ItemsBytes(rest) + t, p);
      HoldsMore(p, done, x, p1);
      q := ItemsRead(done + [x], rest, t, p1);
      Regroup(ItemBytes(x), ItemsBytes(rest), t);
      FieldRead(ItemBytes(x) + (ItemsBytes(rest) + t), p, p1, ItemsBytes(rest) + t);
      assert done + [x] + rest == done + items;
    }
  }

  predicate KnownTag(tag: byte) {
    tag == 0x01 || tag == 0x02 || tag == 0x03 || tag == 0x08 || tag == 0x09 || tag == 0x0B || tag == 0x23 || tag == 0x26
  }

  /** A section is refused at the first byte that should be a tag and is none. */
  lemma {:induction false} UnknownRefused(items: seq<Item>, tag: byte, t: Str)
    requires GoodItems(items) && !KnownTag(tag)
    ensures ParseFields(ItemsBytes(items) + ([tag] + t), NO_PROPERTIES) == Err("Unknown property identifier")
  {
    var q := ItemsRead([], items, [tag] + t, NO_PROPERTIES);
  }

  // ---- Whole packets ----

  /** The first byte: the packet type, and four flag bits. */
  function FirstByte(dup: bool, qos: ServiceLevel, retain: bool): byte {
    0x30 + (if dup then 8 else 0) + (match qos case QoS0 => 0 case QoS1 => 2 case QoS2 => 4) + if retain then 1 else 0
  }

  lemma {:induction false} FirstByteRead(dup: bool, qos: ServiceLevel, retain: bool)
    ensures var h := FirstByte(dup, qos, retain);
      h / 16 == 3 && Flag(h, 0x08) == dup && Flag(h, 0x01) == retain && TryFrom(LevelBits(h)) == Some(qos)
  {
    match qos
    case QoS0 =>
    case QoS1 =>
    case QoS2 =>
  }

  /** What follows the lengths of the frame: the topic, the packet identifier of the
      upper levels, the properties and their length, the payload. */
  function BodyLayout(topic: Str, id: Option<u16>, items: seq<Item>, payload: Str): Str
    requires |topic| <= MAX_STR && GoodItems(items)
  {
    StrBytes(topic) + IdLayout(id) + (VarLen(|ItemsBytes(items)|) + ItemsBytes(items) + payload)
  }

  function IdLayout(id: Option<u16>): Str {
    if id.Some? then U16Bytes(id.value) else []
  }

  function FrameLayout(h: byte, body: Str): Str {
    [h] + VarLen(|body|) + body
  }

  lemma {:induction false} AllItemsRead(items: seq<Item>) returns (q: Properties)
    requires GoodItems(items)
    ensures ParseFields(ItemsBytes(items), NO_PROPERTIES) == Ok(q) && Holds(q, items)
  {
    q := ItemsRead([], items, [], NO_PROPERTIES);
    assert [] + items == items && ItemsBytes(items) + [] == ItemsBytes(items);
  }

  lemma {:induction false} SectionRead(items: seq<Item>, t: Str) returns (o: Option<Properties>)
    requires GoodItems(items) && |ItemsBytes(items)| <= MAX_ENCODABLE
    ensures ParseProps(VarLen(|ItemsBytes(items)|) + ItemsBytes(items) + t) == Ok(Read(o, t))
    ensures o.None? <==> items == []
    ensures o.Some? ==> Holds(o.value, items)
  {
    hide Holds, GoodItem;
    var b := ItemsBytes(items);
    Regroup(VarLen(|b|), b, t);
    VarLenBack(|b|, b + t);
    if items == [] {
      assert b + t == t;
      o := None;
    } else {
      var q := AllItemsRead(items);
      assert items[0] in items;
      PropsRead(VarLen(|b|) + b + t, b, t, q);
      o := Some(q);
    }
  }

  lemma {:induction false} IdLaidOut(qos: ServiceLevel, id: Option<u16>, t: Str)
    requires id.Some? <==> !qos.QoS0?
    ensures ParseId(qos, IdLayout(id) + t) == Ok(Read(id, t))
  {
    if id.Some? { U16RoundTrip(id.value, t); } else { assert [] + t == t; }
  }

  lemma {:induction false} BodyLaidOut(h: byte, qos: ServiceLevel, topic: Str, id: Option<u16>, items: seq<Item>,
      payload: Str) returns (o: Option<Properties>)
    requires |topic| <= MAX_STR && ValidUtf8(topic) && (id.Some? <==> !qos.QoS0?)
    requires GoodItems(items) && |ItemsBytes(items)| <= MAX_ENCODABLE
    ensures DecodingBody(h, qos, BodyLayout(topic, id, items, payload))
      == Ok(Packet(Flag(h, 0x08), qos, Flag(h, 0x01), topic, id, payload, o))
    ensures o.None? <==> items == []
    ensures o.Some? ==> Holds(o.value, items)
  {
    var section := VarLen(|ItemsBytes(items)|) + ItemsBytes(items) + payload;
    Regroup(StrBytes(topic), IdLayout(id), section);
    StringRoundTrip(topic, IdLayout(id) + section);
    IdLaidOut(qos, id, section);
    o := SectionRead(items, payload);
  }

  lemma {:induction false} FrameLaidOut(h: byte, body: Str, t: Str)
    requires h / 16 == 3 && TryFrom(LevelBits(h)).Some? && |body| <= MAX_ENCODABLE
    ensures Decoding(FrameLayout(h, body) + t) == DecodingBody(h, TryFrom(LevelBits(h)).value, body + t)
  {
    VarLenBack(|body|, body + t);
    var s := FrameLayout(h, body) + t;
    assert s[1..] == VarLen(|body|) + (body + t);
  }

  lemma {:induction false} MorePayload(topic: Str, id: Option<u16>, items: seq<Item>, payload: Str, t: Str)
    requires |topic| <= MAX_STR && GoodItems(items)
    ensures BodyLayout(topic, id, items, payload) + t == BodyLayout(topic, id, items, payload + t)
  {
  }

  /** Whatever is laid out as the section says, with any of the eight properties in
      any order and any bytes after the frame, is decoded to the packet with every
      flag and field, the last value of a repeated property, and those bytes at the
      end of the payload. */
  lemma {:induction false} LaidOutDecodes(dup: bool, qos: ServiceLevel, retain: bool, topic: Str, id: Option<u16>,
      items: seq<Item>, payload: Str, t: Str) returns (o: Option<Properties>)
    requires |topic| <= MAX_STR && ValidUtf8(topic) && (id.Some? <==> !qos.QoS0?) && GoodItems(items)
    requires |BodyLayout(topic, id, items, payload)| <= MAX_ENCODABLE
    ensures Decoding(FrameLayout(FirstByte(dup, qos, retain), BodyLayout(topic, id, items, payload)) + t)
      == Ok(Packet(dup, qos, retain, topic, id, payload + t, o))
    ensures o.None? <==> items == []
    ensures o.Some? ==> Holds(o.value, items)
  {
    var h := FirstByte(dup, qos, retain);
    FirstByteRead(dup, qos, retain);
    FrameLaidOut(h, BodyLayout(topic, id, items, payload), t);
    MorePayload(topic, id, items, payload, t);
    o := BodyLaidOut(h, qos, topic, id, items, payload + t);
  }

  // ---- What the encoder writes ----

  function OptItem<T>(o: Option<T>, make: T -> Item): seq<Item> {
    if o.Some? then [make(o.value)] else []
  }

  function UserItems(us: Pairs): seq<Item> {
    if us == [] then [] else [User(us[0].0, us[0].1)] + UserItems(us[1..])
  }

  /** The properties written, in order: the others are skipped. */
  function Items(p: Properties): seq<Item> {
    OptItem(p.payloadFormat, b => PayloadFormat(b)) + OptItem(p.expiry, n => Expiry(n))
    + OptItem(p.contentType, v => ContentType(v)) + UserItems(ListOf(p.users))
  }

  lemma {:induction false} ItemsBytesConcat(a: seq<Item>, b: seq<Item>)
    requires GoodItems(a) && GoodItems(b)
    ensures GoodItems(a + b) && ItemsBytes(a + b) == ItemsBytes(a) + ItemsBytes(b)
  {
    if a == [] {
      assert a + b == b;
    } else {
      assert a[0] in a && (a + b)[1..] == a[1..] + b;
      ItemsBytesConcat(a[1..], b);
    }
  }

  lemma {:induction false} OneItem(x: Item)
    requires GoodItem(x)
    ensures GoodItems([x]) && ItemsBytes([x]) == ItemBytes(x)
  {
    assert [x][1..] == [] && ItemBytes(x) + [] == ItemBytes(x);
  }

  lemma {:induction false} UserItemsBytes(us: Pairs)
    requires ShortPairs(us) && TextPairs(us)
    ensures GoodItems(UserItems(us)) && ItemsBytes(UserItems(us)) == PairsBytes(us)
  {
    if us != [] {
      assert us[0] in us && UserItems(us)[1..] == UserItems(us[1..]);
      UserItemsBytes(us[1..]);
      assert ItemBytes(UserItems(us)[0]) == PairBytes(us[0]);
    }
  }

  lemma {:induction false} OptItemBytes(p: Properties)
    requires Fits(p) && TypedProps(p)
    ensures GoodItems(OptItem(p.payloadFormat, b => PayloadFormat(b)))
    ensures ItemsBytes(OptItem(p.payloadFormat, b => PayloadFormat(b))) == Tagged8(0x01, p.payloadFormat)
    ensures GoodItems(OptItem(p.expiry, n => Expiry(n)))
    ensures ItemsBytes(OptItem(p.expiry, n => Expiry(n))) == Tagged32(0x02, p.expiry)
    ensures GoodItems(OptItem(p.contentType, v => ContentType(v)))
    ensures ItemsBytes(OptItem(p.contentType, v => ContentType(v))) == TaggedStr(0x03, p.contentType)
  {
    if p.payloadFormat.Some? { OneItem(PayloadFormat(p.payloadFormat.value)); }
    if p.expiry.Some? { OneItem(Expiry(p.expiry.value)); }
    if p.contentType.Some? { OneItem(ContentType(p.contentType.value)); }
  }

  lemma {:induction false} ItemsAreWritten(p: Properties)
    requires Fits(p) && TypedProps(p)
    ensures GoodItems(Items(p)) && ItemsBytes(Items(p)) == PropBytes(p)
  {
    var a, b := OptItem(p.payloadFormat, b => PayloadFormat(b)), OptItem(p.expiry, n => Expiry(n));
    var c, d := OptItem(p.contentType, v => ContentType(v)), UserItems(ListOf(p.users));
    OptItemBytes(p);
    UserItemsBytes(ListOf(p.users));
    ItemsBytesConcat(a, b);
    ItemsBytesConcat(a + b, c);
    ItemsBytesConcat(a + b + c, d);
  }

  lemma {:induction false} HeaderIsFirstByte(p: Packet)
    ensures Header(p) == FirstByte(false, p.qos, p.retain)
  {
    match p.qos
    case QoS0 =>
    case QoS1 =>
    case QoS2 =>
  }

  /** An encoded packet is laid out as the section says, without dup and the fields
      that are skipped. */
  lemma {:induction false} EncodedIsLaidOut(p: Packet)
    requires Typed(p) && |p.topic| <= MAX_STR
    requires p.properties.Some? ==> Fits(p.properties.value) && Items(p.properties.value) != []
    ensures var items := if p.properties.Some? then Items(p.properties.value) else [];
      && GoodItems(items)
      && var body := BodyLayout(p.topic, p.id, items, p.payload);
        |body| <= MAX_ENCODABLE ==> Encoding(p) == Ok(FrameLayout(FirstByte(false, p.qos, p.retain), body))
  {
    HeaderIsFirstByte(p);
    var items := if p.properties.Some? then Items(p.properties.value) else [];
    if p.properties.Some? {
      ItemsAreWritten(p.properties.value);
      EstLenIsSize(p.properties.value);
      assert items[0] in items;
    }
    var body := BodyLayout(p.topic, p.id, items, p.payload);
    if |body| <= MAX_ENCODABLE {
      var prop := VarLen(|ItemsBytes(items)|) + ItemsBytes(items);
      if p.properties.Some? { NoWrap(EstLen(p.properties.value)); } else { assert [0] + [] == [0]; }
      assert PropPart(p) == Ok(prop);
      BodyLenIsSize(p, prop);
      Regroup(StrBytes(p.topic) + IdLayout(p.id), prop, p.payload);
      NoWrap(BodyLen(p, prop));
    }
  }

  /** With nothing to write for its properties it lacks the property length. */
  lemma {:induction false} EncodedEmpty(p: Packet)
    requires Typed(p) && |p.topic| <= MAX_STR && p.properties.Some?
    requires Fits(p.properties.value) && Items(p.properties.value) == []
    ensures var body := StrBytes(p.topic) + IdLayout(p.id) + p.payload;
      |body| <= MAX_ENCODABLE ==> Encoding(p) == Ok(FrameLayout(FirstByte(false, p.qos, p.retain), body))
  {
    HeaderIsFirstByte(p);
    ItemsAreWritten(p.properties.value);
    EstLenIsSize(p.properties.value);
    var body := StrBytes(p.topic) + IdLayout(p.id) + p.payload;
    if |body| <= MAX_ENCODABLE {
      NoWrap(EstLen(p.properties.value));
      BodyLenIsSize(p, []);
      assert StrBytes(p.topic) + IdLayout(p.id) + [] == StrBytes(p.topic) + IdLayout(p.id);
      NoWrap(|body|);
    }
  }

  // ---- What is refused ----

  lemma {:induction false} QosBits(h: byte)
    requires h / 16 == 3
    ensures LevelBits(h) == h / 2 % 4
  {
    assert h == 0x30 || h == 0x31 || h == 0x32 || h == 0x33 || h == 0x34 || h == 0x35 || h == 0x36 || h == 0x37
      || h == 0x38 || h == 0x39 || h == 0x3A || h == 0x3B || h == 0x3C || h == 0x3D || h == 0x3E || h == 0x3F;
  }

  /** Whatever comes first in the buffer, the fixed header is refused for its size,
      its packet type, its level and its length, in this order. */
  lemma {:induction false} HeaderRefused(s: Str)
    ensures |s| < 2 ==> Decoding(s) == Err("Buffer too short")
    ensures |s| >= 2 && s[0] / 16 != 3 ==> Decoding(s) == Err("Invalid packet type for PUBLISH")
    ensures |s| >= 2 && s[0] / 16 == 3 && s[0] / 2 % 4 == 3 ==> Decoding(s) == Err("QoS not Supported")
    ensures |s| >= 2 && s[0] / 16 == 3 && s[0] / 2 % 4 != 3 ==>
      && (Continues(s[1..], 4) ==> Decoding(s) == Err("Failed to decode remaining length"))
      && (|s| < 5 && Continues(s[1..], |s| - 1) ==> Decoding(s) == Panic)
  {
    if |s| >= 2 {
      if s[0] / 16 == 3 { QosBits(s[0]); }
      DecodeStops(s[1..]);
      CodesAreNames(LevelBits(s[0]));
    }
  }

  lemma {:induction false} LengthCut(n: nat, j: nat)
    requires n <= MAX_ENCODABLE && j < |VarLen(n)|
    ensures ParseLen(VarLen(n)[..j]) == Panic
  {
    VarLenBack(n, []);
    assert VarLen(n) + [] == VarLen(n);
    DecodeStops(VarLen(n));
    DecodeStops(VarLen(n)[..j]);
    assert forall i :: 0 <= i < j ==> VarLen(n)[..j][i] == VarLen(n)[i];
  }

  /** A frame cut short anywhere is refused: in its first byte or right after it, in
      its length, which is a panic, or in what the length announces. */
  lemma {:induction false} CutIsRefused(h: byte, body: Str, k: nat)
    requires h / 16 == 3 && TryFrom(LevelBits(h)).Some? && |body| <= MAX_ENCODABLE
    requires k < |FrameLayout(h, body)|
    ensures Decoding(FrameLayout(h, body)[..k]) ==
      if k < 2 then Err("Buffer too short")
      else if k <= |VarLen(|body|)| then Panic
      else Err("Buffer too short for remaining length")
  {
    if 2 <= k <= |VarLen(|body|)| {
      CutInLength(h, body, k);
    } else if k >= 2 {
      CutInBody(h, body, k);
    }
  }

  lemma {:induction false} CutInLength(h: byte, body: Str, k: nat)
    requires h / 16 == 3 && TryFrom(LevelBits(h)).Some? && |body| <= MAX_ENCODABLE
    requires 2 <= k <= |VarLen(|body|)|
    ensures Decoding(FrameLayout(h, body)[..k]) == Panic
  {
    var s := FrameLayout(h, body)[..k];
    assert s[0] == h && s[1..] == VarLen(|body|)[..k - 1];
    LengthCut(|body|, k - 1);
  }

  lemma {:induction false} CutInBody(h: byte, body: Str, k: nat)
    requires h / 16 == 3 && TryFrom(LevelBits(h)).Some? && |body| <= MAX_ENCODABLE
    requires 2 <= k && |VarLen(|body|)| < k < |FrameLayout(h, body)|
    ensures Decoding(FrameLayout(h, body)[..k]) == Err("Buffer too short for remaining length")
  {
    var len := VarLen(|body|);
    var s, part := FrameLayout(h, body)[..k], body[..k - 1 - |len|];
    assert s == [h] + (len + part);
    assert s[0] == h && s[1..] == len + part;
    VarLenBack(|body|, part);
  }

  /** A string too long for its length field is refused. */
  lemma {:induction false} TooLongRefused(p: Packet)
    requires p.properties.Some? ==> EstLen(p.properties.value) <= MAX_ENCODABLE
    requires PropPart(p).Ok? ==> BodyLen(p, PropPart(p).value) <= MAX_ENCODABLE
    requires |p.topic| > MAX_STR || (p.properties.Some? && !Fits(p.properties.value))
    ensures Encoding(p) == Err("String too long")
  {
  }

  /** So is a packet, or a property section, too large for its length. */
  lemma {:induction false} TooLargeRefused(p: Packet)
    ensures p.properties.Some? && MAX_ENCODABLE < EstLen(p.properties.value) < WORD ==>
      Encoding(p) == Err("error encode length")
    ensures PropPart(p).Ok? && MAX_ENCODABLE < BodyLen(p, PropPart(p).value) < WORD ==>
      Encoding(p) == Err("error encode length")
  {
  }

  /** A property section is refused for its length, and when that announces more than
      there is. */
  lemma {:induction false} SectionRefused(s: Str)
    ensures Continues(s, 4) ==> ParseProps(s) == Err("Failed to decode properties length")
    ensures |s| < 4 && Continues(s, |s|) ==> ParseProps(s) == Panic
    ensures ParseLen(s).Ok? && ParseLen(s).value.value > |ParseLen(s).value.rest| ==>
      ParseProps(s) == Err("Buffer too short for properties")
  {
    DecodeStops(s);
  }
}
