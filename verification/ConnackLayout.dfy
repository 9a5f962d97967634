/**
 The bytes of a CONNACK packet as section 3.2 of MQTT Version 5.0 lays them out,
 for all of its properties in any order, but with two bytes for the maximum packet
 size: what they are decoded to, and what an encoded packet looks like.
 */
module ConnackLayout {
  import opened Wrappers
  import opened Bytes
  import opened Picks
  import opened RemainingLength
  import opened Connack
  import opened ConnackRoundTrip

  // ---- Properties ----

  /** A property of section 3.2.2.3. */
  datatype Item =
    | SessionExpiry(sessionExpiry: u32)
    | ReceiveMaximum(receiveMaximum: u16)
    | MaximumQos(maximumQos: byte)
    | RetainAvailable(retainAvailable: byte)
    | MaximumPacketSize(maximumPacketSize: u16)
    | AssignedClientId(assignedClientId: Str)
    | TopicAliasMaximum(topicAliasMaximum: u16)
    | ReasonString(reasonString: Str)
    | WildcardAvailable(wildcardAvailable: byte)
    | SubscriptionIdAvailable(subscriptionIdAvailable: byte)
    | SharedAvailable(sharedAvailable: byte)
    | ServerKeepAlive(serverKeepAlive: u16)
    | ResponseInformation(responseInformation: Str)
    | ServerReference(serverReference: Str)
    | AuthMethod(authMethod: Str)
    | AuthData(authData: Str)
    | User(name: Str, value: Str)

  /** Strings are short and UTF-8. */
  predicate GoodItem(x: Item) {
    match x
    case AssignedClientId(v) => |v| <= MAX_STR && ValidUtf8(v)
    case ReasonString(v) => |v| <= MAX_STR && ValidUtf8(v)
    case ResponseInformation(v) => |v| <= MAX_STR && ValidUtf8(v)
    case ServerReference(v) => |v| <= MAX_STR && ValidUtf8(v)
    case AuthMethod(v) => |v| <= MAX_STR && ValidUtf8(v)
    case AuthData(v) => |v| <= MAX_STR
    case User(k, v) => |k| <= MAX_STR && |v| <= MAX_STR && ValidUtf8(k) && ValidUtf8(v)
    case _ => true
  }

  predicate GoodItems(items: seq<Item>) {
    forall x :: x in items ==> GoodItem(x)
  }

  function ItemBytes(x: Item): Str
    requires GoodItem(x)
  {
    match x
    case SessionExpiry(v) => [0x11] + U32Bytes(v)
    case ReceiveMaximum(v) => [0x21] + U16Bytes(v)
    case MaximumQos(v) => [0x24] + [v]
    case RetainAvailable(v) => [0x25] + [v]
    case MaximumPacketSize(v) => [0x27] + U16Bytes(v)
    case AssignedClientId(v) => [0x12] + StrBytes(v)
    case TopicAliasMaximum(v) => [0x22] + U16Bytes(v)
    case ReasonString(v) => [0x1F] + StrBytes(v)
    case WildcardAvailable(v) => [0x28] + [v]
    case SubscriptionIdAvailable(v) => [0x29] + [v]
    case SharedAvailable(v) => [0x2A] + [v]
    case ServerKeepAlive(v) => [0x13] + U16Bytes(v)
    case ResponseInformation(v) => [0x1A] + StrBytes(v)
    case ServerReference(v) => [0x1C] + StrBytes(v)
    case AuthMethod(v) => [0x15] + StrBytes(v)
    case AuthData(v) => [0x16] + StrBytes(v)
    case User(k, v) => [0x26] + (StrBytes(k) + StrBytes(v))
  }

  function ItemsBytes(items: seq<Item>): Str
    requires GoodItems(items)
  {
    if items == [] then [] else assert items[0] in items; ItemBytes(items[0]) + ItemsBytes(items[1..])
  }

  function SessionExpiryOf(x: Item): Option<u32> {
    if x.SessionExpiry? then Some(x.sessionExpiry) else None
  }

  function ReceiveMaximumOf(x: Item): Option<u16> {
    if x.ReceiveMaximum? then Some(x.receiveMaximum) else None
  }

  function MaximumQosOf(x: Item): Option<byte> {
    if x.MaximumQos? then Some(x.maximumQos) else None
  }

  function RetainAvailableOf(x: Item): Option<byte> {
    if x.RetainAvailable? then Some(x.retainAvailable) else None
  }

  function MaximumPacketSizeOf(x: Item): Option<u16> {
    if x.MaximumPacketSize? then Some(x.maximumPacketSize) else None
  }

  function AssignedClientIdOf(x: Item): Option<Str> {
    if x.AssignedClientId? then Some(x.assignedClientId) else None
  }

  function TopicAliasMaximumOf(x: Item): Option<u16> {
    if x.TopicAliasMaximum? then Some(x.topicAliasMaximum) else None
  }

  function ReasonStringOf(x: Item): Option<Str> {
    if x.ReasonString? then Some(x.reasonString) else None
  }

  function WildcardAvailableOf(x: Item): Option<byte> {
    if x.WildcardAvailable? then Some(x.wildcardAvailable) else None
  }

  function SubscriptionIdAvailableOf(x: Item): Option<byte> {
    if x.SubscriptionIdAvailable? then Some(x.subscriptionIdAvailable) else None
  }

  function SharedAvailableOf(x: Item): Option<byte> {
    if x.SharedAvailable? then Some(x.sharedAvailable) else None
  }

  function ServerKeepAliveOf(x: Item): Option<u16> {
    if x.ServerKeepAlive? then Some(x.serverKeepAlive) else None
  }

  function ResponseInformationOf(x: Item): Option<Str> {
    if x.ResponseInformation? then Some(x.responseInformation) else None
  }

  function ServerReferenceOf(x: Item): Option<Str> {
    if x.ServerReference? then Some(x.serverReference) else None
  }

  function AuthMethodOf(x: Item): Option<Str> {
    if x.AuthMethod? then Some(x.authMethod) else None
  }

  function AuthDataOf(x: Item): Option<Str> {
    if x.AuthData? then Some(x.authData) else None
  }

  function UserOf(x: Item): Option<(Str, Str)> {
    if x.User? then Some((x.name, x.value)) else None
  }

  /** Every field holds the last value laid out for it, the user properties all. */
  predicate Holds(p: Properties, items: seq<Item>) {
    && p.sessionExpiry == LastOf(items, SessionExpiryOf)
    && p.receiveMaximum == LastOf(items, ReceiveMaximumOf)
    && p.maximumQos == LastOf(items, MaximumQosOf)
    && p.retainAvailable == LastOf(items, RetainAvailableOf)
    && p.maximumPacketSize == LastOf(items, MaximumPacketSizeOf)
    && p.assignedClientId == LastOf(items, AssignedClientIdOf)
    && p.topicAliasMaximum == LastOf(items, TopicAliasMaximumOf)
    && p.reasonString == LastOf(items, ReasonStringOf)
    && p.wildcardAvailable == LastOf(items, WildcardAvailableOf)
    && p.subscriptionIdAvailable == LastOf(items, SubscriptionIdAvailableOf)
    && p.sharedAvailable == LastOf(items, SharedAvailableOf)
    && p.serverKeepAlive == LastOf(items, ServerKeepAliveOf)
    && p.responseInformation == LastOf(items, ResponseInformationOf)
    && p.serverReference == LastOf(items, ServerReferenceOf)
    && p.authMethod == LastOf(items, AuthMethodOf)
    && p.authData == LastOf(items, AuthDataOf)
    && ListOf(p.users) == AllOf(items, UserOf) && p.users != Some([])
  }

  // ---- Reading ----

  /** The fields of `q` are those of `p`, but the one of `x`, which is its value. */
  predicate Sets(p: Properties, x: Item, q: Properties) {
    && q.sessionExpiry == (if x.SessionExpiry? then Some(x.sessionExpiry) else p.sessionExpiry)
    && q.receiveMaximum == (if x.ReceiveMaximum? then Some(x.receiveMaximum) else p.receiveMaximum)
    && q.maximumQos == (if x.MaximumQos? then Some(x.maximumQos) else p.maximumQos)
    && q.retainAvailable == (if x.RetainAvailable? then Some(x.retainAvailable) else p.retainAvailable)
    && q.maximumPacketSize == (if x.MaximumPacketSize? then Some(x.maximumPacketSize) else p.maximumPacketSize)
    && q.assignedClientId == (if x.AssignedClientId? then Some(x.assignedClientId) else p.assignedClientId)
    && q.topicAliasMaximum == (if x.TopicAliasMaximum? then Some(x.topicAliasMaximum) else p.topicAliasMaximum)
    && q.reasonString == (if x.ReasonString? then Some(x.reasonString) else p.reasonString)
    && q.wildcardAvailable == (if x.WildcardAvailable? then Some(x.wildcardAvailable) else p.wildcardAvailable)
    && q.subscriptionIdAvailable ==
        (if x.SubscriptionIdAvailable? then Some(x.subscriptionIdAvailable) else p.subscriptionIdAvailable)
    && q.sharedAvailable == (if x.SharedAvailable? then Some(x.sharedAvailable) else p.sharedAvailable)
    && q.serverKeepAlive == (if x.ServerKeepAlive? then Some(x.serverKeepAlive) else p.serverKeepAlive)
    && q.responseInformation == (if x.ResponseInformation? then Some(x.responseInformation) else p.responseInformation)
    && q.serverReference == (if x.ServerReference? then Some(x.serverReference) else p.serverReference)
    && q.authMethod == (if x.AuthMethod? then Some(x.authMethod) else p.authMethod)
    && q.authData == (if x.AuthData? then Some(x.authData) else p.authData)
    && q.users == (if x.User? then Some(ListOf(p.users) + [(x.name, x.value)]) else p.users)
  }

  function FieldOf(x: Item): Field {
    match x
    case SessionExpiry(v) => Field(0x11, Four(v))
    case ReceiveMaximum(v) => Field(0x21, Two(v))
    case MaximumQos(v) => Field(0x24, Byte(v))
    case RetainAvailable(v) => Field(0x25, Byte(v))
    case MaximumPacketSize(v) => Field(0x27, Two(v))
    case AssignedClientId(v) => Field(0x12, Text(v))
    case TopicAliasMaximum(v) => Field(0x22, Two(v))
    case ReasonString(v) => Field(0x1F, Text(v))
    case WildcardAvailable(v) => Field(0x28, Byte(v))
    case SubscriptionIdAvailable(v) => Field(0x29, Byte(v))
    case SharedAvailable(v) => Field(0x2A, Byte(v))
    case ServerKeepAlive(v) => Field(0x13, Two(v))
    case ResponseInformation(v) => Field(0x1A, Text(v))
    case ServerReference(v) => Field(0x1C, Text(v))
    case AuthMethod(v) => Field(0x15, Text(v))
    case AuthData(v) => Field(0x16, Binary(v))
    case User(k, v) => Field(0x26, Pair((k, v)))
  }

  lemma {:induction false} FieldIsGood(x: Item)
    requires GoodItem(x)
    ensures GoodField(FieldOf(x)) && ItemBytes(x) == [FieldOf(x).tag] + ValueBytes(FieldOf(x).value)
  {
  }

  lemma {:induction false} SetSets(x: Item, acc: Properties)
    ensures Sets(acc, x, Set(FieldOf(x), acc))
  {
  }

  lemma {:induction false} HoldsMore(p: Properties, items: seq<Item>, x: Item, q: Properties)
    requires Holds(p, items) && Sets(p, x, q)
    ensures Holds(q, items + [x])
  {
    OneMorePick(items, x, SessionExpiryOf);
    OneMorePick(items, x, ReceiveMaximumOf);
    OneMorePick(items, x, MaximumQosOf);
    OneMorePick(items, x, RetainAvailableOf);
    OneMorePick(items, x, MaximumPacketSizeOf);
    OneMorePick(items, x, AssignedClientIdOf);
    OneMorePick(items, x, TopicAliasMaximumOf);
    OneMorePick(items, x, ReasonStringOf);
    OneMorePick(items, x, WildcardAvailableOf);
    OneMorePick(items, x, SubscriptionIdAvailableOf);
    OneMorePick(items, x, SharedAvailableOf);
    OneMorePick(items, x, ServerKeepAliveOf);
    OneMorePick(items, x, ResponseInformationOf);
    OneMorePick(items, x, ServerReferenceOf);
    OneMorePick(items, x, AuthMethodOf);
    OneMorePick(items, x, AuthDataOf);
    OneMorePick(items, x, UserOf);
  }

  lemma {:induction false} ItemsRead(done: seq<Item>, items: seq<Item>, t: Str, p: Properties) returns (q: Properties)
    requires GoodItems(items) && Holds(p, done)
    ensures ParseFields(ItemsBytes(items) + t, p) == ParseFields(t, q) && Holds(q, done + items)
    decreases |items|
  {
    hide Holds, Sets, ItemBytes, GoodItem, Set;
    if items == [] {
      assert done + items == done && ItemsBytes(items) + t == t;
      q := p;
    } else {
      var x, rest := items[0], items[1..];
      assert x in items;
      var p1 := Set(FieldOf(x), p);
      FieldIsGood(x);
      SetSets(x, p);
      HoldsMore(p, done, x, p1);
      q := ItemsRead(done + [x], rest, t, p1);
      Regroup(ItemBytes(x), ItemsBytes(rest), t);
      FieldBack(FieldOf(x), ItemsBytes(rest) + t, p);
      assert done + [x] + rest == done + items;
    }
  }

  lemma {:induction false} NothingHeld()
    ensures Holds(NO_PROPERTIES, [])
  {
  }

  predicate KnownTag(tag: byte) {
    || 0x11 <= tag <= 0x13 || tag == 0x15 || tag == 0x16 || tag == 0x1A || tag == 0x1C || tag == 0x1F
    || tag == 0x21 || tag == 0x22 || 0x24 <= tag <= 0x2A
  }

  lemma {:induction false} NoField(tag: byte, t: Str, acc: Properties)
    requires !KnownTag(tag)
    ensures ParseFields([tag] + t, acc) == Err("Unknown property identifier")
  {
  }

  /** The properties are refused at the first byte that should be a tag and is none. */
  lemma {:induction false} UnknownRefused(items: seq<Item>, tag: byte, t: Str)
    requires GoodItems(items) && !KnownTag(tag)
    ensures ParseFields(ItemsBytes(items) + ([tag] + t), NO_PROPERTIES) == Err("Unknown property identifier")
  {
    hide Holds, GoodItem, ParseFields;
    NothingHeld();
    var q := ItemsRead([], items, [tag] + t, NO_PROPERTIES);
    NoField(tag, t, q);
  }

  // ---- Whole packets ----

  /** The acknowledge flags, the reason code, the properties and their length. */
  function BodyLayout(session: bool, code: byte, items: seq<Item>): Str
    requires GoodItems(items)
  {
    [if session then 1 else 0, code] + VarLen(|ItemsBytes(items)|) + ItemsBytes(items)
  }

  function FrameLayout(body: Str): Str {
    [0x20] + VarLen(|body|) + body
  }

  lemma {:induction false} AllItemsRead(items: seq<Item>) returns (q: Properties)
    requires GoodItems(items)
    ensures ParseFields(ItemsBytes(items), NO_PROPERTIES) == Ok(q) && Holds(q, items)
  {
    q := ItemsRead([], items, [], NO_PROPERTIES);
    assert [] + items == items && ItemsBytes(items) + [] == ItemsBytes(items);
  }

  lemma {:induction false} SectionRead(items: seq<Item>) returns (o: Option<Properties>)
    requires GoodItems(items) && |ItemsBytes(items)| <= MAX_ENCODABLE
    ensures ParseProps(VarLen(|ItemsBytes(items)|) + ItemsBytes(items)) == Ok(o)
    ensures o.None? <==> items == []
    ensures o.Some? ==> Holds(o.value, items)
  {
    hide Holds, GoodItem;
    var b := ItemsBytes(items);
    VarLenBack(|b|, b);
    if items == [] {
      o := None;
    } else {
      assert items[0] in items;
      var q := AllItemsRead(items);
      o := Some(q);
    }
  }

  lemma {:induction false} FrameRead(body: Str)
    requires 2 <= |body| <= MAX_ENCODABLE
    ensures Decoding(FrameLayout(body)) == DecodingBody(body)
  {
    AcceptFrame(body, []);
    assert [0x20] + LenBytes(|body|) + body + [] == FrameLayout(body) && body + [] == body;
  }

  lemma {:induction false} BodyLaidOut(session: bool, code: byte, items: seq<Item>) returns (o: Option<Properties>)
    requires GoodItems(items) && |ItemsBytes(items)| <= MAX_ENCODABLE
    ensures DecodingBody(BodyLayout(session, code, items)) == Ok(Packet(session, code, o))
    ensures o.None? <==> items == []
    ensures o.Some? ==> Holds(o.value, items)
  {
    hide Holds, GoodItem, DecodingBody, ParseProps, VarLen, ItemsBytes;
    o := SectionRead(items);
    var x: byte := if session then 1 else 0;
    Regroup([x, code], VarLen(|ItemsBytes(items)|), ItemsBytes(items));
    BodyRead(x, code, VarLen(|ItemsBytes(items)|) + ItemsBytes(items));
  }

  /** Whatever is laid out as the section says, with any properties in any order, is
      decoded to the packet with every field, the last value of a repeated one. */
  lemma {:induction false} LaidOutDecodes(session: bool, code: byte, items: seq<Item>) returns (o: Option<Properties>)
    requires GoodItems(items) && |BodyLayout(session, code, items)| <= MAX_ENCODABLE
    ensures Decoding(FrameLayout(BodyLayout(session, code, items))) == Ok(Packet(session, code, o))
    ensures o.None? <==> items == []
    ensures o.Some? ==> Holds(o.value, items)
  {
    FrameRead(BodyLayout(session, code, items));
    o := BodyLaidOut(session, code, items);
  }

  // ---- What the encoder writes ----

  function OptItem<T>(o: Option<T>, make: T -> Item): seq<Item> {
    if o.Some? then [make(o.value)] else []
  }

  function UserItems(us: Pairs): seq<Item> {
    if us == [] then [] else [User(us[0].0, us[0].1)] + UserItems(us[1..])
  }

  function LimitsItems(p: Properties): seq<Item> {
    OptItem(p.sessionExpiry, v => SessionExpiry(v))
    + OptItem(p.receiveMaximum, v => ReceiveMaximum(v))
    + OptItem(p.maximumQos, v => MaximumQos(v))
    + OptItem(p.retainAvailable, v => RetainAvailable(v))
    + OptItem(p.maximumPacketSize, v => MaximumPacketSize(v))
  }

  function NamesItems(p: Properties): seq<Item> {
    OptItem(p.assignedClientId, v => AssignedClientId(v))
    + OptItem(p.topicAliasMaximum, v => TopicAliasMaximum(v))
    + OptItem(p.reasonString, v => ReasonString(v))
    + UserItems(ListOf(p.users))
  }

  function FeaturesItems(p: Properties): seq<Item> {
    OptItem(p.wildcardAvailable, v => WildcardAvailable(v))
    + OptItem(p.subscriptionIdAvailable, v => SubscriptionIdAvailable(v))
    + OptItem(p.sharedAvailable, v => SharedAvailable(v))
    + OptItem(p.serverKeepAlive, v => ServerKeepAlive(v))
  }

  function ServerItems(p: Properties): seq<Item> {
    OptItem(p.responseInformation, v => ResponseInformation(v))
    + OptItem(p.serverReference, v => ServerReference(v))
    + OptItem(p.authMethod, v => AuthMethod(v))
    + OptItem(p.authData, v => AuthData(v))
  }

  /** The properties of a packet, in the order they are written. */
  function Items(p: Properties): seq<Item> {
    LimitsItems(p) + NamesItems(p) + FeaturesItems(p) + ServerItems(p)
  }

  function FieldsOf(items: seq<Item>): seq<Field> {
    if items == [] then [] else [FieldOf(items[0])] + FieldsOf(items[1..])
  }

  lemma {:induction false} FieldsOfConcat(a: seq<Item>, b: seq<Item>)
    ensures FieldsOf(a + b) == FieldsOf(a) + FieldsOf(b)
  {
    if a == [] {
      assert a + b == b;
    } else {
      assert (a + b)[1..] == a[1..] + b;
      FieldsOfConcat(a[1..], b);
    }
  }

  lemma {:induction false} FieldsOfOne(x: Item)
    ensures FieldsOf([x]) == [FieldOf(x)]
  {
    assert [x][1..] == [];
  }

  lemma {:induction false} FieldsOfUsers(us: Pairs)
    ensures FieldsOf(UserItems(us)) == UserFields(us)
  {
    if us != [] {
      assert UserItems(us)[1..] == UserItems(us[1..]);
      FieldsOfUsers(us[1..]);
    }
  }

  lemma {:induction false} FieldsOfOpt<T>(o: Option<T>, make: T -> Item)
    ensures FieldsOf(OptItem(o, make)) == if o.Some? then [FieldOf(make(o.value))] else []
  {
    if o.Some? { FieldsOfOne(make(o.value)); }
  }

  lemma {:induction false} FieldsOfFour(a: seq<Item>, b: seq<Item>, c: seq<Item>, d: seq<Item>)
    ensures FieldsOf(a + b + c + d) == FieldsOf(a) + FieldsOf(b) + FieldsOf(c) + FieldsOf(d)
  {
    FieldsOfConcat(a, b);
    FieldsOfConcat(a + b, c);
    FieldsOfConcat(a + b + c, d);
  }

  lemma {:induction false} LimitsOpts(p: Properties)
    ensures FieldsOf(OptItem(p.sessionExpiry, v => SessionExpiry(v))) == Opt32(0x11, p.sessionExpiry)
    ensures FieldsOf(OptItem(p.receiveMaximum, v => ReceiveMaximum(v))) == Opt16(0x21, p.receiveMaximum)
    ensures FieldsOf(OptItem(p.maximumQos, v => MaximumQos(v))) == Opt8(0x24, p.maximumQos)
    ensures FieldsOf(OptItem(p.retainAvailable, v => RetainAvailable(v))) == Opt8(0x25, p.retainAvailable)
    ensures FieldsOf(OptItem(p.maximumPacketSize, v => MaximumPacketSize(v))) == Opt16(0x27, p.maximumPacketSize)
  {
    FieldsOfOpt(p.sessionExpiry, v => SessionExpiry(v));
    FieldsOfOpt(p.receiveMaximum, v => ReceiveMaximum(v));
    FieldsOfOpt(p.maximumQos, v => MaximumQos(v));
    FieldsOfOpt(p.retainAvailable, v => RetainAvailable(v));
    FieldsOfOpt(p.maximumPacketSize, v => MaximumPacketSize(v));
  }

  lemma {:induction false} LimitsFields(p: Properties)
    ensures FieldsOf(LimitsItems(p)) == Limits(p)
  {
    hide FieldOf, FieldsOf, OptItem, UserItems, UserFields, Opt8, Opt16, Opt32, OptText, OptBinary;
    LimitsOpts(p);
    var a := OptItem(p.sessionExpiry, v => SessionExpiry(v));
    var b := OptItem(p.receiveMaximum, v => ReceiveMaximum(v));
    var c := OptItem(p.maximumQos, v => MaximumQos(v));
    var d := OptItem(p.retainAvailable, v => RetainAvailable(v));
    var e := OptItem(p.maximumPacketSize, v => MaximumPacketSize(v));
    FieldsOfFour(a, b, c, d);
    FieldsOfConcat(a + b + c + d, e);
  }

  lemma {:induction false} NamesOpts(p: Properties)
    ensures FieldsOf(OptItem(p.assignedClientId, v => AssignedClientId(v))) == OptText(0x12, p.assignedClientId)
    ensures FieldsOf(OptItem(p.topicAliasMaximum, v => TopicAliasMaximum(v))) == Opt16(0x22, p.topicAliasMaximum)
    ensures FieldsOf(OptItem(p.reasonString, v => ReasonString(v))) == OptText(0x1F, p.reasonString)
  {
    FieldsOfOpt(p.assignedClientId, v => AssignedClientId(v));
    FieldsOfOpt(p.topicAliasMaximum, v => TopicAliasMaximum(v));
    FieldsOfOpt(p.reasonString, v => ReasonString(v));
  }

  lemma {:induction false} NamesFields(p: Properties)
    ensures FieldsOf(NamesItems(p)) == Names(p)
  {
    hide FieldOf, FieldsOf, OptItem, UserItems, UserFields, Opt8, Opt16, Opt32, OptText, OptBinary;
    NamesOpts(p);
    var a := OptItem(p.assignedClientId, v => AssignedClientId(v));
    var b := OptItem(p.topicAliasMaximum, v => TopicAliasMaximum(v));
    var c := OptItem(p.reasonString, v => ReasonString(v));
    FieldsOfUsers(ListOf(p.users));
    FieldsOfFour(a, b, c, UserItems(ListOf(p.users)));
  }

  lemma {:induction false} FeaturesOpts(p: Properties)
    ensures FieldsOf(OptItem(p.wildcardAvailable, v => WildcardAvailable(v))) == Opt8(0x28, p.wildcardAvailable)
    ensures FieldsOf(OptItem(p.subscriptionIdAvailable, v => SubscriptionIdAvailable(v)))
      == Opt8(0x29, p.subscriptionIdAvailable)
    ensures FieldsOf(OptItem(p.sharedAvailable, v => SharedAvailable(v))) == Opt8(0x2A, p.sharedAvailable)
    ensures FieldsOf(OptItem(p.serverKeepAlive, v => ServerKeepAlive(v))) == Opt16(0x13, p.serverKeepAlive)
  {
    FieldsOfOpt(p.wildcardAvailable, v => WildcardAvailable(v));
    FieldsOfOpt(p.subscriptionIdAvailable, v => SubscriptionIdAvailable(v));
    FieldsOfOpt(p.sharedAvailable, v => SharedAvailable(v));
    FieldsOfOpt(p.serverKeepAlive, v => ServerKeepAlive(v));
  }

  lemma {:induction false} FeaturesFields(p: Properties)
    ensures FieldsOf(FeaturesItems(p)) == Features(p)
  {
    hide FieldOf, FieldsOf, OptItem, UserItems, UserFields, Opt8, Opt16, Opt32, OptText, OptBinary;
    FeaturesOpts(p);
    var a := OptItem(p.wildcardAvailable, v => WildcardAvailable(v));
    var b := OptItem(p.subscriptionIdAvailable, v => SubscriptionIdAvailable(v));
    var c := OptItem(p.sharedAvailable, v => SharedAvailable(v));
    var d := OptItem(p.serverKeepAlive, v => ServerKeepAlive(v));
    FieldsOfFour(a, b, c, d);
  }

  lemma {:induction false} ServerOpts(p: Properties)
    ensures FieldsOf(OptItem(p.responseInformation, v => ResponseInformation(v)))
      == OptText(0x1A, p.responseInformation)
    ensures FieldsOf(OptItem(p.serverReference, v => ServerReference(v))) == OptText(0x1C, p.serverReference)
    ensures FieldsOf(OptItem(p.authMethod, v => AuthMethod(v))) == OptText(0x15, p.authMethod)
    ensures FieldsOf(OptItem(p.authData, v => AuthData(v))) == OptBinary(0x16, p.authData)
  {
    FieldsOfOpt(p.responseInformation, v => ResponseInformation(v));
    FieldsOfOpt(p.serverReference, v => ServerReference(v));
    FieldsOfOpt(p.authMethod, v => AuthMethod(v));
    FieldsOfOpt(p.authData, v => AuthData(v));
  }

  lemma {:induction false} ServerFields(p: Properties)
    ensures FieldsOf(ServerItems(p)) == Server(p)
  {
    hide FieldOf, FieldsOf, OptItem, UserItems, UserFields, Opt8, Opt16, Opt32, OptText, OptBinary;
    ServerOpts(p);
    var a := OptItem(p.responseInformation, v => ResponseInformation(v));
    var b := OptItem(p.serverReference, v => ServerReference(v));
    var c := OptItem(p.authMethod, v => AuthMethod(v));
    var d := OptItem(p.authData, v => AuthData(v));
    FieldsOfFour(a, b, c, d);
  }

  lemma {:induction false} ItemsFields(p: Properties)
    ensures FieldsOf(Items(p)) == Fields(p)
  {
    LimitsFields(p);
    NamesFields(p);
    FeaturesFields(p);
    ServerFields(p);
    FieldsOfFour(LimitsItems(p), NamesItems(p), FeaturesItems(p), ServerItems(p));
  }

  lemma {:induction false} ItemsAreWritten(items: seq<Item>)
    requires GoodItems(items)
    ensures ShortFields(FieldsOf(items)) && FieldsBytes(FieldsOf(items)) == ItemsBytes(items)
  {
    if items != [] {
      assert items[0] in items && FieldsOf(items)[1..] == FieldsOf(items[1..]);
      FieldIsGood(items[0]);
      ItemsAreWritten(items[1..]);
    }
  }

  lemma {:induction false} SectionWritten(p: Properties)
    requires GoodItems(Items(p))
    ensures PropBytes(Some(p)) == Ok(ItemsBytes(Items(p)))
  {
    hide GoodItem, Items, Fields;
    ItemsFields(p);
    ItemsAreWritten(Items(p));
  }

  lemma {:induction false} FrameWritten(c: Packet, prop: Str)
    requires PropBytes(c.properties) == Ok(prop)
    ensures var body := [if c.sessionPresent then 1 else 0, c.returnCode] + LenBytes(|prop|) + prop;
      |body| <= MAX_ENCODABLE ==> Encoding(c) == Ok(FrameLayout(body))
  {
    var body := [if c.sessionPresent then 1 else 0, c.returnCode] + LenBytes(|prop|) + prop;
    if |body| <= MAX_ENCODABLE {
      NoWrap(|prop|);
      NoWrap(|body|);
    }
  }

  /** An encoded packet with properties is laid out as the section says. */
  lemma {:induction false} EncodedIsLaidOut(c: Packet)
    requires c.properties.Some? && GoodItems(Items(c.properties.value)) && Items(c.properties.value) != []
    ensures var body := BodyLayout(c.sessionPresent, c.returnCode, Items(c.properties.value));
      |body| <= MAX_ENCODABLE ==> Encoding(c) == Ok(FrameLayout(body))
  {
    hide GoodItem, Items;
    var items := Items(c.properties.value);
    SectionWritten(c.properties.value);
    FrameWritten(c, ItemsBytes(items));
    assert items[0] in items;
  }

  /** One without any lacks the property length, and one without properties at all
      has a zero for the one byte it announces. */
  lemma {:induction false} EncodedEmpty(c: Packet)
    requires c.properties.Some? ==> Items(c.properties.value) == []
    ensures var front := [if c.sessionPresent then 1 else 0, c.returnCode];
      Encoding(c) == Ok(FrameLayout(if c.properties.Some? then front else front + [1, 0]))
  {
    hide Items;
    var front := [if c.sessionPresent then 1 else 0, c.returnCode];
    if c.properties.Some? {
      assert GoodItems([]);
      SectionWritten(c.properties.value);
      FrameWritten(c, []);
      assert front + LenBytes(0) + [] == front;
    } else {
      FrameWritten(c, [0]);
      assert front + LenBytes(1) + [0] == front + [1, 0];
    }
  }

  lemma {:induction false} FrameParts(body: Str)
    requires 0 < |body| <= MAX_ENCODABLE
    ensures |FrameLayout(body)| >= 2 + |body| && FrameLayout(body)[0] == 0x20
    ensures ParseLen(FrameLayout(body)[1..]) == Ok(Read(|body|, body))
  {
    var len := VarLen(|body|);
    Regroup([0x20], len, body);
    assert ([0x20] + (len + body))[1..] == len + body;
    LenRoundTrip(|body|, body);
  }

  lemma {:induction false} BodyParts(x: byte, y: byte, prop: Str)
    requires |prop| <= MAX_ENCODABLE
    ensures var body := [x, y] + LenBytes(|prop|) + prop;
      && |body| >= 2 && body[0] == x && body[1] == y && (|body| == 2 <==> prop == [])
      && (prop != [] ==> ParseLen(body[2..]) == Ok(Read(|prop|, prop)))
  {
    var body := [x, y] + LenBytes(|prop|) + prop;
    assert body[2..] == LenBytes(|prop|) + prop;
    if prop != [] { LenRoundTrip(|prop|, prop); }
  }

  /** The first byte of every encoded packet is 0x20, an integer follows that reads
      as the number of bytes after it, and these begin with the session flag and the
      return code; then, unless it has empty properties, comes another such integer
      and as many bytes. */
  lemma {:induction false} EncodedHeader(c: Packet)
    requires FrameFits(c)
    ensures Encoding(c).Ok? && |Encoding(c).value| >= 4 && Encoding(c).value[0] == 0x20
    ensures var r := ParseLen(Encoding(c).value[1..]);
      && r.Ok? && r.value.value == |r.value.rest| >= 2
      && r.value.rest[0] == (if c.sessionPresent then 1 else 0) && r.value.rest[1] == c.returnCode
      && (|r.value.rest| == 2 <==> PropBytes(c.properties) == Ok([]))
      && (|r.value.rest| > 2 ==> var p := ParseLen(r.value.rest[2..]); p.Ok? && p.value.value == |p.value.rest|)
  {
    var prop := PropBytes(c.properties).value;
    var x: byte := if c.sessionPresent then 1 else 0;
    NoWrap(|prop|);
    FrameWritten(c, prop);
    FrameParts([x, c.returnCode] + LenBytes(|prop|) + prop);
    BodyParts(x, c.returnCode, prop);
  }

  // ---- What is refused ----

  /** Whatever comes first in the buffer, the fixed header is refused for its size,
      its packet type and its length, in this order. */
  lemma {:induction false} HeaderRefused(s: Str)
    ensures |s| < 4 ==> Decoding(s) == Err("Buffer too short")
    ensures |s| >= 4 && s[0] / 16 != 2 ==> Decoding(s) == Err("Invalid packet type for CONNACK")
    ensures |s| >= 4 && s[0] / 16 == 2 ==>
      && (Continues(s[1..], 4) ==> Decoding(s) == Err("Failed to decode remaining length"))
      && (|s| == 4 && Continues(s[1..], 3) ==> Decoding(s) == Panic)
  {
    if |s| >= 4 { DecodeStops(s[1..]); }
  }

  /** So is a frame cut short after its length. */
  lemma {:induction false} CutIsRefused(body: Str, k: nat)
    requires 0 < |body| <= MAX_ENCODABLE && k < |body| && 1 + |LenBytes(|body|)| + k >= 4
    ensures Decoding([0x20] + LenBytes(|body|) + body[..k]) == Err("Buffer too short for remaining length")
  {
    var len := LenBytes(|body|);
    Regroup([0x20], len, body[..k]);
    assert ([0x20] + (len + body[..k]))[1..] == len + body[..k];
    LenRoundTrip(|body|, body[..k]);
  }

  predicate LongText(o: Option<Str>) {
    o.Some? && |o.value| > MAX_STR
  }

  /** Some string of the packet is too long for its length field. */
  predicate SomeLongText(p: Properties) {
    || LongText(p.assignedClientId) || LongText(p.reasonString) || LongText(p.responseInformation)
    || LongText(p.serverReference) || LongText(p.authMethod)
    || exists u :: u in ListOf(p.users) && (|u.0| > MAX_STR || |u.1| > MAX_STR)
  }

  lemma {:induction false} ShortBoth(a: seq<Field>, b: seq<Field>)
    ensures ShortFields(a + b) <==> ShortFields(a) && ShortFields(b)
  {
    if ShortFields(a + b) {
      assert forall f :: f in a ==> f in a + b;
      assert forall f :: f in b ==> f in a + b;
    }
  }

  lemma {:induction false} ShortUsers(us: Pairs)
    ensures ShortFields(UserFields(us)) <==> ShortPairs(us)
  {
    if us != [] {
      ShortUsers(us[1..]);
      ShortBoth([Field(USER_TAG, Pair(us[0]))], UserFields(us[1..]));
      assert Field(USER_TAG, Pair(us[0])) in [Field(USER_TAG, Pair(us[0]))];
      assert us == [us[0]] + us[1..];
    }
  }

  lemma {:induction false} ShortTextField(tag: byte, o: Option<Str>)
    ensures ShortFields(OptText(tag, o)) <==> !LongText(o)
    ensures ShortFields(OptBinary(tag, o)) <==> !LongText(o)
  {
    if o.Some? {
      assert Field(tag, Text(o.value)) in OptText(tag, o);
      assert Field(tag, Binary(o.value)) in OptBinary(tag, o);
    }
  }

  lemma {:induction false} ShortNames(p: Properties)
    ensures ShortFields(Names(p))
      <==> !LongText(p.assignedClientId) && !LongText(p.reasonString) && ShortPairs(ListOf(p.users))
  {
    var a, b, c := OptText(0x12, p.assignedClientId), Opt16(0x22, p.topicAliasMaximum), OptText(0x1F, p.reasonString);
    ShortTextField(0x12, p.assignedClientId);
    ShortTextField(0x1F, p.reasonString);
    ShortUsers(ListOf(p.users));
    ShortBoth(a, b);
    ShortBoth(a + b, c);
    ShortBoth(a + b + c, UserFields(ListOf(p.users)));
  }

  lemma {:induction false} ShortTexts(p: Properties)
    ensures ShortFields(Texts(p))
      <==> !LongText(p.responseInformation) && !LongText(p.serverReference) && !LongText(p.authMethod)
  {
    var a, b, c := OptText(0x1A, p.responseInformation), OptText(0x1C, p.serverReference), OptText(0x15, p.authMethod);
    ShortTextField(0x1A, p.responseInformation);
    ShortTextField(0x1C, p.serverReference);
    ShortTextField(0x15, p.authMethod);
    ShortBoth(a, b);
    ShortBoth(a + b, c);
  }

  lemma {:induction false} ShortNumbers(p: Properties)
    ensures ShortFields(Limits(p)) && ShortFields(Features(p))
  {
  }

  /** A string too long is refused, wherever it is; else too long authentication data
      are, with an error of their own. */
  lemma {:induction false} TooLongRefused(c: Packet)
    requires c.properties.Some?
    ensures SomeLongText(c.properties.value) ==> Encoding(c) == Err("String too long")
    ensures !SomeLongText(c.properties.value) && LongText(c.properties.value.authData) ==>
      Encoding(c) == Err("Binary data too long")
    ensures !SomeLongText(c.properties.value) && !LongText(c.properties.value.authData) ==> PropBytes(c.properties).Ok?
  {
    var p := c.properties.value;
    hide Limits, Names, Features, Texts;
    ShortNumbers(p);
    ShortNames(p);
    ShortTexts(p);
    ShortTextField(0x16, p.authData);
    ShortBoth(Limits(p), Names(p));
    ShortBoth(Limits(p) + Names(p), Features(p));
    ShortBoth(Limits(p) + Names(p) + Features(p), Texts(p));
    ShortBoth(Limits(p) + Names(p) + Features(p), Server(p));
    ShortBoth(Texts(p), OptBinary(0x16, p.authData));
  }

  /** So are properties too large for their length. */
  lemma {:induction false} LargePropsRefused(c: Packet)
    requires PropBytes(c.properties).Ok? && MAX_ENCODABLE < |PropBytes(c.properties).value| < WORD
    ensures Encoding(c) == Err("error encode length")
  {
    NoWrap(|PropBytes(c.properties).value|);
  }

  /** And a packet that is with them. */
  lemma {:induction false} LargeFrameRefused(c: Packet)
    requires PropBytes(c.properties).Ok?
    requires var n := |PropBytes(c.properties).value|; n <= MAX_ENCODABLE < 2 + |LenBytes(n)| + n
    ensures Encoding(c) == Err("error encode length")
  {
    hide LenBytes, PropBytes;
    var n := |PropBytes(c.properties).value|;
    LenSize(n);
    NoWrap(n);
    NoWrap(2 + |LenBytes(n)| + n);
    assert |Frame(c, PropBytes(c.properties).value)| == 2 + |LenBytes(n)| + n;
  }

  /** The properties are refused for their length, but need not be as many bytes as it
      announces. */
  lemma {:induction false} SectionRefused(s: Str)
    ensures Continues(s, 4) ==> ParseProps(s) == Err("Failed to decode property length")
    ensures 0 < |s| < 4 && Continues(s, |s|) ==> ParseProps(s) == Panic
    ensures s == [] ==> ParseProps(s) == Ok(None)
  {
    DecodeStops(s);
  }
}
