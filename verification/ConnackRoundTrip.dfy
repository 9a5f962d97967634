/**
 Decoding an encoded CONNACK packet, and exactly which packets come back
 unchanged.
 */
module ConnackRoundTrip {
  import opened Wrappers
  import opened Bytes
  import opened RemainingLength
  import opened Connack

  // ---- Reading fields undoes writing them ----

  predicate TypedValue(v: Value) {
    match v
    case Text(s) => ValidUtf8(s)
    case Pair(kv) => ValidUtf8(kv.0) && ValidUtf8(kv.1)
    case _ => true
  }

  function KindOfValue(v: Value): Kind {
    match v
    case Byte(_) => KByte
    case Two(_) => KTwo
    case Four(_) => KFour
    case Text(_) => KText
    case Binary(_) => KBinary
    case Pair(_) => KPair
  }

  predicate GoodField(f: Field) {
    ShortValue(f.value) && TypedValue(f.value) && KindOf(f.tag) == Some(KindOfValue(f.value))
  }

  predicate GoodFields(fs: seq<Field>) {
    forall f :: f in fs ==> GoodField(f)
  }

  lemma {:induction false} NumberBack(v: Value, t: Str)
    requires v.Byte? || v.Two? || v.Four?
    ensures ParseValue(KindOfValue(v), ValueBytes(v) + t) == Ok(Read(v, t))
  {
    match v
    case Byte(b) => assert ([b] + t)[1..] == t;
    case Two(n) => U16RoundTrip(n, t);
    case Four(m) => U32RoundTrip(m, t);
  }

  lemma {:induction false} TextBack(v: Value, t: Str)
    requires ShortValue(v) && TypedValue(v) && (v.Text? || v.Binary?)
    ensures ParseValue(KindOfValue(v), ValueBytes(v) + t) == Ok(Read(v, t))
  {
    match v
    case Text(s) => StringRoundTrip(s, t);
    case Binary(d) => BinaryRoundTrip(d, t);
  }

  lemma {:induction false} PairBack(v: Value, t: Str)
    requires ShortValue(v) && TypedValue(v) && v.Pair?
    ensures ParseValue(KindOfValue(v), ValueBytes(v) + t) == Ok(Read(v, t))
  {
    PairRoundTrip(v.kv.0, v.kv.1, t);
    LiftPair(ValueBytes(v) + t, v.kv, t);
  }

  lemma {:induction false} LiftPair(s: Str, kv: (Str, Str), t: Str)
    requires ParsePair(s) == Ok(Read(kv, t))
    ensures ParseValue(KPair, s) == Ok(Read(Pair(kv), t))
  {
  }

  lemma {:induction false} ValueBack(v: Value, t: Str)
    requires ShortValue(v) && TypedValue(v)
    ensures ParseValue(KindOfValue(v), ValueBytes(v) + t) == Ok(Read(v, t))
  {
    if v.Pair? {
      PairBack(v, t);
    } else if v.Text? || v.Binary? {
      TextBack(v, t);
    } else {
      NumberBack(v, t);
    }
  }

  lemma {:induction false} FieldBack(f: Field, t: Str, acc: Properties)
    requires GoodField(f)
    ensures ParseFields([f.tag] + ValueBytes(f.value) + t, acc) == ParseFields(t, Set(f, acc))
  {
    var s := [f.tag] + ValueBytes(f.value) + t;
    assert s[1..] == ValueBytes(f.value) + t;
    ValueBack(f.value, t);
    assert s[0] == f.tag && ParseField(s, acc) == Ok(Read(Set(f, acc), t));
  }

  /** The fields set one after the other, a repeated one overwriting. */
  function SetAll(fs: seq<Field>, acc: Properties): Properties {
    if fs == [] then acc else SetAll(fs[1..], Set(fs[0], acc))
  }

  lemma {:induction false} FieldsBack(fs: seq<Field>, t: Str, acc: Properties)
    requires GoodFields(fs)
    ensures ShortFields(fs) && ParseFields(FieldsBytes(fs) + t, acc) == ParseFields(t, SetAll(fs, acc))
    decreases |fs|
  {
    if fs == [] {
      assert FieldsBytes(fs) + t == t;
    } else {
      assert fs[0] in fs;
      FieldsBack(fs[1..], t, Set(fs[0], acc));
      var first := [fs[0].tag] + ValueBytes(fs[0].value);
      Regroup(first, FieldsBytes(fs[1..]), t);
      FieldBack(fs[0], FieldsBytes(fs[1..]) + t, acc);
    }
  }

  // ---- Setting the fields of a packet one by one rebuilds it ----

  lemma {:induction false} SetAllConcat(a: seq<Field>, b: seq<Field>, acc: Properties)
    ensures SetAll(a + b, acc) == SetAll(b, SetAll(a, acc))
    decreases |a|
  {
    if a == [] {
      assert a + b == b;
    } else {
      assert (a + b)[1..] == a[1..] + b;
      SetAllConcat(a[1..], b, Set(a[0], acc));
    }
  }

  lemma {:induction false} SetOne(f: Field, acc: Properties)
    ensures SetAll([f], acc) == Set(f, acc)
  {
    assert [f][1..] == [];
  }

  /** `f`, when present, sets one field; when absent it leaves it. */
  lemma {:induction false} SetLast(fs: seq<Field>, o: seq<Field>, acc: Properties)
    requires |o| <= 1
    ensures SetAll(fs + o, acc) == if o == [] then SetAll(fs, acc) else Set(o[0], SetAll(fs, acc))
  {
    SetAllConcat(fs, o, acc);
    if o != [] {
      assert o == [o[0]];
      SetOne(o[0], SetAll(fs, acc));
    }
  }

  function WithLimits(p: Properties, acc: Properties): Properties {
    acc.(sessionExpiry := p.sessionExpiry, receiveMaximum := p.receiveMaximum, maximumQos := p.maximumQos,
         retainAvailable := p.retainAvailable, maximumPacketSize := p.maximumPacketSize)
  }

  function WithNames(p: Properties, acc: Properties): Properties {
    acc.(assignedClientId := p.assignedClientId, topicAliasMaximum := p.topicAliasMaximum,
         reasonString := p.reasonString, users := PushAll(None, ListOf(p.users)))
  }

  function WithFeatures(p: Properties, acc: Properties): Properties {
    acc.(wildcardAvailable := p.wildcardAvailable, subscriptionIdAvailable := p.subscriptionIdAvailable,
         sharedAvailable := p.sharedAvailable, serverKeepAlive := p.serverKeepAlive)
  }

  function WithServer(p: Properties, acc: Properties): Properties {
    acc.(responseInformation := p.responseInformation, serverReference := p.serverReference,
         authMethod := p.authMethod, authData := p.authData)
  }

  lemma {:induction false} LimitsSet(p: Properties, acc: Properties)
    requires acc == NO_PROPERTIES
    ensures SetAll(Limits(p), acc) == WithLimits(p, acc)
  {
    var a := Opt32(0x11, p.sessionExpiry);
    var b := a + Opt16(0x21, p.receiveMaximum);
    var c := b + Opt8(0x24, p.maximumQos);
    var d := c + Opt8(0x25, p.retainAvailable);
    var e := d + Opt16(0x27, p.maximumPacketSize);
    var p1 := acc.(sessionExpiry := p.sessionExpiry);
    var p2 := p1.(receiveMaximum := p.receiveMaximum);
    var p3 := p2.(maximumQos := p.maximumQos);
    var p4 := p3.(retainAvailable := p.retainAvailable);
    var p5 := p4.(maximumPacketSize := p.maximumPacketSize);
    assert SetAll(a, acc) == p1 by {
      SetLast([], a, acc);
      assert [] + a == a;
    }
    assert SetAll(b, acc) == p2 by { SetLast(a, Opt16(0x21, p.receiveMaximum), acc); }
    assert SetAll(c, acc) == p3 by { SetLast(b, Opt8(0x24, p.maximumQos), acc); }
    assert SetAll(d, acc) == p4 by { SetLast(c, Opt8(0x25, p.retainAvailable), acc); }
    assert SetAll(e, acc) == p5 by { SetLast(d, Opt16(0x27, p.maximumPacketSize), acc); }
  }

  lemma {:induction false} UsersSet(us: Pairs, acc: Properties)
    ensures SetAll(UserFields(us), acc) == acc.(users := PushAll(acc.users, us))
    decreases |us|
  {
    if us != [] {
      var f := Field(USER_TAG, Pair(us[0]));
      assert UserFields(us)[1..] == UserFields(us[1..]);
      UsersSet(us[1..], Set(f, acc));
      PushAllStep(acc.users, us);
    }
  }

  lemma {:induction false} NamesSet(p: Properties, acc: Properties)
    requires acc.assignedClientId.None? && acc.topicAliasMaximum.None? && acc.reasonString.None? && acc.users.None?
    ensures SetAll(Names(p), acc) == WithNames(p, acc)
  {
    var a := OptText(0x12, p.assignedClientId);
    var b := a + Opt16(0x22, p.topicAliasMaximum);
    var c := b + OptText(0x1F, p.reasonString);
    var p1 := acc.(assignedClientId := p.assignedClientId);
    var p2 := p1.(topicAliasMaximum := p.topicAliasMaximum);
    var p3 := p2.(reasonString := p.reasonString);
    assert SetAll(a, acc) == p1 by {
      SetLast([], a, acc);
      assert [] + a == a;
    }
    assert SetAll(b, acc) == p2 by { SetLast(a, Opt16(0x22, p.topicAliasMaximum), acc); }
    assert SetAll(c, acc) == p3 by { SetLast(b, OptText(0x1F, p.reasonString), acc); }
    SetAllConcat(c, UserFields(ListOf(p.users)), acc);
    UsersSet(ListOf(p.users), p3);
  }

  lemma {:induction false} FeaturesSet(p: Properties, acc: Properties)
    requires acc.wildcardAvailable.None? && acc.subscriptionIdAvailable.None?
    requires acc.sharedAvailable.None? && acc.serverKeepAlive.None?
    ensures SetAll(Features(p), acc) == WithFeatures(p, acc)
  {
    var a := Opt8(0x28, p.wildcardAvailable);
    var b := a + Opt8(0x29, p.subscriptionIdAvailable);
    var c := b + Opt8(0x2A, p.sharedAvailable);
    var d := c + Opt16(0x13, p.serverKeepAlive);
    var p1 := acc.(wildcardAvailable := p.wildcardAvailable);
    var p2 := p1.(subscriptionIdAvailable := p.subscriptionIdAvailable);
    var p3 := p2.(sharedAvailable := p.sharedAvailable);
    var p4 := p3.(serverKeepAlive := p.serverKeepAlive);
    assert SetAll(a, acc) == p1 by {
      SetLast([], a, acc);
      assert [] + a == a;
    }
    assert SetAll(b, acc) == p2 by { SetLast(a, Opt8(0x29, p.subscriptionIdAvailable), acc); }
    assert SetAll(c, acc) == p3 by { SetLast(b, Opt8(0x2A, p.sharedAvailable), acc); }
    assert SetAll(d, acc) == p4 by { SetLast(c, Opt16(0x13, p.serverKeepAlive), acc); }
  }

  lemma {:induction false} ServerSet(p: Properties, acc: Properties)
    requires acc.responseInformation.None? && acc.serverReference.None? && acc.authMethod.None? && acc.authData.None?
    ensures SetAll(Server(p), acc) == WithServer(p, acc)
  {
    var a := OptText(0x1A, p.responseInformation);
    var b := a + OptText(0x1C, p.serverReference);
    var c := b + OptText(0x15, p.authMethod);
    var d := c + OptBinary(0x16, p.authData);
    var p1 := acc.(responseInformation := p.responseInformation);
    var p2 := p1.(serverReference := p.serverReference);
    var p3 := p2.(authMethod := p.authMethod);
    var p4 := p3.(authData := p.authData);
    assert SetAll(a, acc) == p1 by {
      SetLast([], a, acc);
      assert [] + a == a;
    }
    assert SetAll(b, acc) == p2 by { SetLast(a, OptText(0x1C, p.serverReference), acc); }
    assert SetAll(c, acc) == p3 by { SetLast(b, OptText(0x15, p.authMethod), acc); }
    assert SetAll(d, acc) == p4 by { SetLast(c, OptBinary(0x16, p.authData), acc); }
  }

  /** What decoding makes of written properties: an empty list of user
      properties is lost. */
  function Written(p: Properties): Properties {
    p.(users := PushAll(None, ListOf(p.users)))
  }

  lemma {:induction false} FieldsSet(p: Properties)
    ensures SetAll(Fields(p), NO_PROPERTIES) == Written(p)
  {
    var a := WithLimits(p, NO_PROPERTIES);
    var b := WithNames(p, a);
    var c := WithFeatures(p, b);
    LimitsSet(p, NO_PROPERTIES);
    NamesSet(p, a);
    FeaturesSet(p, b);
    ServerSet(p, c);
    SetAllConcat(Limits(p), Names(p), NO_PROPERTIES);
    SetAllConcat(Limits(p) + Names(p), Features(p), NO_PROPERTIES);
    SetAllConcat(Limits(p) + Names(p) + Features(p), Server(p), NO_PROPERTIES);
  }

  // ---- The whole packet ----

  /** The strings of the packet are strings; `authData` is any bytes. */
  predicate Typed(p: Properties) {
    && TextOf(p.assignedClientId) && TextOf(p.reasonString) && TextOf(p.responseInformation)
    && TextOf(p.serverReference) && TextOf(p.authMethod)
    && forall u :: u in ListOf(p.users) ==> ValidUtf8(u.0) && ValidUtf8(u.1)
  }

  predicate TypedFields(fs: seq<Field>) {
    forall f :: f in fs ==> TypedValue(f.value) && KindOf(f.tag) == Some(KindOfValue(f.value))
  }

  lemma {:induction false} UserFieldsTyped(us: Pairs)
    requires forall u :: u in us ==> ValidUtf8(u.0) && ValidUtf8(u.1)
    ensures TypedFields(UserFields(us))
  {
    if us != [] {
      assert us[0] in us;
      UserFieldsTyped(us[1..]);
    }
  }

  lemma {:induction false} TypedConcat(a: seq<Field>, b: seq<Field>)
    requires TypedFields(a) && TypedFields(b)
    ensures TypedFields(a + b)
  {
  }

  lemma {:induction false} LimitsTyped(p: Properties)
    ensures TypedFields(Limits(p))
  {
    TypedConcat(Opt32(0x11, p.sessionExpiry), Opt16(0x21, p.receiveMaximum));
    TypedConcat(Opt32(0x11, p.sessionExpiry) + Opt16(0x21, p.receiveMaximum), Opt8(0x24, p.maximumQos));
  }

  lemma {:induction false} NamesTyped(p: Properties)
    requires Typed(p)
    ensures TypedFields(Names(p))
  {
    UserFieldsTyped(ListOf(p.users));
    TypedConcat(OptText(0x12, p.assignedClientId) + Opt16(0x22, p.topicAliasMaximum), OptText(0x1F, p.reasonString));
  }

  lemma {:induction false} FeaturesTyped(p: Properties)
    ensures TypedFields(Features(p))
  {
    var a := Opt8(0x28, p.wildcardAvailable) + Opt8(0x29, p.subscriptionIdAvailable);
    TypedConcat(a, Opt8(0x2A, p.sharedAvailable));
    TypedConcat(a + Opt8(0x2A, p.sharedAvailable), Opt16(0x13, p.serverKeepAlive));
  }

  lemma {:induction false} ServerTyped(p: Properties)
    requires Typed(p)
    ensures TypedFields(Server(p))
  {
    var a := OptText(0x1A, p.responseInformation) + OptText(0x1C, p.serverReference);
    TypedConcat(a, OptText(0x15, p.authMethod));
    TypedConcat(a + OptText(0x15, p.authMethod), OptBinary(0x16, p.authData));
  }

  lemma {:induction false} TypedConcat4(a: seq<Field>, b: seq<Field>, c: seq<Field>, d: seq<Field>)
    requires TypedFields(a) && TypedFields(b) && TypedFields(c) && TypedFields(d)
    ensures TypedFields(a + b + c + d)
  {
    TypedConcat(a, b);
    TypedConcat(a + b, c);
    TypedConcat(a + b + c, d);
  }

  lemma {:induction false} FieldsTyped(p: Properties)
    requires Typed(p)
    ensures TypedFields(Fields(p))
  {
    LimitsTyped(p);
    NamesTyped(p);
    FeaturesTyped(p);
    ServerTyped(p);
    TypedConcat4(Limits(p), Names(p), Features(p), Server(p));
  }

  predicate FrameFits(c: Packet) {
    PropBytes(c.properties).Ok? && |Frame(c, PropBytes(c.properties).value)| <= MAX_ENCODABLE
  }

  lemma {:induction false} DropFront(x: byte, y: byte, s: Str)
    ensures ([x, y] + s)[2..] == s
  {
  }

  lemma {:induction false} RegroupAll(a: Str, b: Str, c: Str, d: Str)
    ensures a + b + c + d == a + (b + (c + d))
  {
  }

  lemma {:induction false} BodyRead(x: byte, y: byte, s: Str)
    ensures DecodingBody([x, y] + s) == WithProps(x % 2 != 0, y, ParseProps(s))
  {
    DropFront(x, y, s);
  }

  lemma {:induction false} BodyBack(c: Packet, prop: Str, t: Str)
    requires |prop| <= MAX_ENCODABLE
    ensures DecodingBody(Frame(c, prop) + t) ==
      WithProps(c.sessionPresent, c.returnCode, ParseProps(LenBytes(|prop|) + (prop + t)))
  {
    NoWrap(|prop|);
    var x: byte := if c.sessionPresent then 1 else 0;
    RegroupAll([x, c.returnCode], LenBytes(|prop|), prop, t);
    BodyRead(x, c.returnCode, LenBytes(|prop|) + (prop + t));
  }

  /** The packet length announced is that of what follows it up to `t`, and
      nothing is cut off there. */
  lemma {:induction false} FrameBack(c: Packet, t: Str)
    requires FrameFits(c)
    ensures Encoding(c).Ok?
    ensures Decoding(Encoding(c).value + t) == DecodingBody(Frame(c, PropBytes(c.properties).value) + t)
  {
    var body := Frame(c, PropBytes(c.properties).value);
    NoWrap(|body|);
    NoWrap(|PropBytes(c.properties).value|);
    AcceptFrame(body, t);
  }

  lemma {:induction false} AcceptFrame(body: Str, t: Str)
    requires 2 <= |body| <= MAX_ENCODABLE
    ensures Decoding([0x20] + LenBytes(|body|) + body + t) == DecodingBody(body + t)
  {
    var s := [0x20] + LenBytes(|body|) + body + t;
    assert s[1..] == LenBytes(|body|) + (body + t);
    LenRoundTrip(|body|, body + t);
  }

  lemma {:induction false} PropsBack(p: Properties, t: Str)
    requires Typed(p) && ShortFields(Fields(p)) && Fields(p) != [] && |FieldsBytes(Fields(p))| <= MAX_ENCODABLE
    ensures ParseProps(LenBytes(|FieldsBytes(Fields(p))|) + (FieldsBytes(Fields(p)) + t))
      == Fill(ParseFields(t, Written(p)), v => Some(v))
  {
    var b := FieldsBytes(Fields(p));
    FieldsTyped(p);
    FieldsBack(Fields(p), t, NO_PROPERTIES);
    FieldsSet(p);
    LenRoundTrip(|b|, b + t);
  }

  /** At least one field is present, and a list of user properties is not empty. */
  predicate Faithful(c: Packet) {
    c.properties.Some? && AnySet(c.properties.value) && c.properties.value.users != Some([])
  }

  predicate AnySet(p: Properties) {
    || p.sessionExpiry.Some? || p.receiveMaximum.Some? || p.maximumQos.Some? || p.retainAvailable.Some?
    || p.maximumPacketSize.Some? || p.assignedClientId.Some? || p.topicAliasMaximum.Some? || p.reasonString.Some?
    || p.users.Some? || p.wildcardAvailable.Some? || p.subscriptionIdAvailable.Some? || p.sharedAvailable.Some?
    || p.serverKeepAlive.Some? || p.responseInformation.Some? || p.serverReference.Some? || p.authMethod.Some?
    || p.authData.Some?
  }

  lemma {:induction false} UsersKept(o: Option<Pairs>)
    requires o != Some([])
    ensures PushAll(None, ListOf(o)) == o
  {
    assert [] + ListOf(o) == ListOf(o);
  }

  lemma {:induction false} AllNone(a: seq<Field>, b: seq<Field>, c: seq<Field>, d: seq<Field>)
    ensures a + b + c + d == [] <==> a == [] && b == [] && c == [] && d == []
  {
  }

  lemma {:induction false} NamesNone(p: Properties)
    requires p.users != Some([])
    ensures Names(p) == []
      <==> p.assignedClientId.None? && p.topicAliasMaximum.None? && p.reasonString.None? && p.users.None?
  {
    AllNone(OptText(0x12, p.assignedClientId), Opt16(0x22, p.topicAliasMaximum), OptText(0x1F, p.reasonString),
      UserFields(ListOf(p.users)));
  }

  lemma {:induction false} AnySetMeans(p: Properties)
    requires p.users != Some([])
    ensures AnySet(p) <==> Fields(p) != []
    ensures Written(p) == p
  {
    UsersKept(p.users);
    NamesNone(p);
    AllNone(Limits(p), Names(p), Features(p), Server(p));
  }

  /** Properties with nothing in them are written as nothing. */
  lemma {:induction false} NothingBack(p: Properties, t: Str)
    requires Fields(p) == []
    ensures PropBytes(Some(p)) == Ok([]) && LenBytes(0) + ([] + t) == t
  {
  }

  /** The zero written for no properties counts as a property of its own. */
  lemma {:induction false} NoneBack(t: Str)
    ensures ParseProps(LenBytes(1) + ([0] + t)) == Err("Unknown property identifier")
  {
    LenRoundTrip(1, [0] + t);
  }

  /** What decoding makes of an encoded packet and the bytes `t` after it: neither
      length cuts anything off.  No properties are an error, empty ones are read
      from `t`, and others are read back with `t` read as more of them. */
  lemma {:induction false} ConnackComesBack(c: Packet, t: Str)
    requires FrameFits(c) && (c.properties.Some? ==> Typed(c.properties.value))
    ensures Encoding(c).Ok?
    ensures Decoding(Encoding(c).value + t) == WithProps(c.sessionPresent, c.returnCode,
      match c.properties
      case None => Err("Unknown property identifier")
      case Some(p) =>
        if Fields(p) == [] then ParseProps(t) else Fill(ParseFields(t, Written(p)), v => Some(v)))
  {
    var prop := PropBytes(c.properties).value;
    FrameBack(c, t);
    BodyBack(c, prop, t);
    match c.properties
    case None =>
      NoneBack(t);
    case Some(p) =>
      if Fields(p) == [] { NothingBack(p, t); } else { PropsBack(p, t); }
  }

  /** Among packets that fit one frame, exactly the faithful ones come back
      unchanged. */
  lemma {:induction false} ConnackRoundTrip(c: Packet)
    requires FrameFits(c) && (c.properties.Some? ==> Typed(c.properties.value))
    ensures Encoding(c).Ok?
    ensures Decoding(Encoding(c).value) == Ok(c) <==> Faithful(c)
  {
    ConnackComesBack(c, []);
    assert Encoding(c).value + [] == Encoding(c).value;
    if c.properties.Some? {
      var p := c.properties.value;
      if p.users != Some([]) { AnySetMeans(p); } else { EmptyUsersLost(p); }
    }
  }

  lemma {:induction false} EmptyUsersLost(p: Properties)
    requires p.users == Some([])
    ensures Written(p) != p
  {
  }
}
