/**
 The CONNACK encoder and decoder, proved against the tables of `Connack`.
 */
module ConnackCodec {
  import opened Wrappers
  import opened Bytes
  import opened RemainingLength
  import opened Connack

  // ---- The bytes of a list of fields, piece by piece ----

  lemma {:induction false} ShortConcat(a: seq<Field>, b: seq<Field>)
    ensures ShortFields(a + b) <==> ShortFields(a) && ShortFields(b)
  {
    if ShortFields(a + b) {
      assert forall f :: f in a ==> f in a + b;
      assert forall f :: f in b ==> f in a + b;
    }
  }

  function FieldBytes(f: Field): Str
    requires ShortValue(f.value)
  {
    [f.tag] + ValueBytes(f.value)
  }

  lemma {:induction false} BytesCons(f: Field, fs: seq<Field>, s: seq<Field>)
    requires ShortValue(f.value) && ShortFields(fs) && s == [f] + fs
    ensures ShortFields(s) && FieldsBytes(s) == FieldBytes(f) + FieldsBytes(fs)
  {
    assert s[1..] == fs;
  }

  lemma {:induction false} AppendAssoc(a: Str, b: Str, c: Str)
    ensures a + b + c == a + (b + c)
  {
  }

  lemma {:induction false} BytesConcat(a: seq<Field>, b: seq<Field>)
    requires ShortFields(a) && ShortFields(b)
    ensures ShortFields(a + b) && FieldsBytes(a + b) == FieldsBytes(a) + FieldsBytes(b)
    decreases |a|
  {
    if a == [] {
      assert a + b == b;
    } else {
      var f, rest := a[0], a[1..];
      assert f in a && a == [f] + rest && a + b == [f] + (rest + b);
      BytesConcat(rest, b);
      BytesCons(f, rest, a);
      BytesCons(f, rest + b, a + b);
      AppendAssoc(FieldBytes(f), FieldsBytes(rest), FieldsBytes(b));
    }
  }

  lemma {:induction false} OneField(f: Field)
    requires ShortValue(f.value)
    ensures FieldsBytes([f]) == [f.tag] + ValueBytes(f.value)
  {
    assert [f][1..] == [];
  }

  lemma {:induction false} UserBytes(us: Pairs)
    ensures ShortFields(UserFields(us)) <==> ShortPairs(us)
    ensures ShortPairs(us) ==> FieldsBytes(UserFields(us)) == PairsBytes(us)
  {
    if us != [] {
      var f := Field(USER_TAG, Pair(us[0]));
      UserBytes(us[1..]);
      ShortConcat([f], UserFields(us[1..]));
      assert us == [us[0]] + us[1..];
      assert f in [f];
      if ShortPairs(us) {
        assert us[0] in us;
        assert UserFields(us)[1..] == UserFields(us[1..]);
        assert [USER_TAG] + (StrBytes(us[0].0) + StrBytes(us[0].1)) == PairBytes(us[0]);
      }
    }
  }

  // ---- Writing one optional field ----

  method Put8(buf: BytesMut, tag: byte, o: Option<byte>)
    modifies buf
    ensures buf.data == old(buf.data) + FieldsBytes(Opt8(tag, o))
  {
    buf.PutTagged8(tag, o);
    if o.Some? { OneField(Field(tag, Byte(o.value))); }
  }

  method Put16(buf: BytesMut, tag: byte, o: Option<u16>)
    modifies buf
    ensures buf.data == old(buf.data) + FieldsBytes(Opt16(tag, o))
  {
    buf.PutTagged16(tag, o);
    if o.Some? { OneField(Field(tag, Two(o.value))); }
  }

  method Put32(buf: BytesMut, tag: byte, o: Option<u32>)
    modifies buf
    ensures buf.data == old(buf.data) + FieldsBytes(Opt32(tag, o))
  {
    buf.PutTagged32(tag, o);
    if o.Some? { OneField(Field(tag, Four(o.value))); }
  }

  method PutText(buf: BytesMut, tag: byte, o: Option<Str>) returns (ok: bool)
    modifies buf
    ensures ok == ShortFields(OptText(tag, o))
    ensures ok ==> buf.data == old(buf.data) + FieldsBytes(OptText(tag, o))
  {
    ok := buf.PutTaggedStr(tag, o);
    if o.Some? {
      assert Field(tag, Text(o.value)) in OptText(tag, o);
      if ok { OneField(Field(tag, Text(o.value))); }
    }
  }

  method PutBinary(buf: BytesMut, tag: byte, o: Option<Str>) returns (ok: bool)
    modifies buf
    ensures ok == ShortFields(OptBinary(tag, o))
    ensures ok ==> buf.data == old(buf.data) + FieldsBytes(OptBinary(tag, o))
  {
    ok := buf.PutTaggedStr(tag, o);
    if o.Some? {
      assert Field(tag, Binary(o.value)) in OptBinary(tag, o);
      if ok { OneField(Field(tag, Binary(o.value))); }
    }
  }

  // ---- Writing a packet ----

  /** What has been written after `done`, once `next` is written too. */
  lemma {:induction false} Extend(start: Str, done: seq<Field>, next: seq<Field>)
    requires ShortFields(done) && ShortFields(next)
    ensures ShortFields(done + next)
    ensures start + FieldsBytes(done) + FieldsBytes(next) == start + FieldsBytes(done + next)
  {
    BytesConcat(done, next);
  }

  method PutLimits(buf: BytesMut, p: Properties)
    modifies buf
    ensures ShortFields(Limits(p)) && buf.data == old(buf.data) + FieldsBytes(Limits(p))
  {
    ghost var start := buf.data;
    ghost var a := Opt32(0x11, p.sessionExpiry);
    ghost var b := a + Opt16(0x21, p.receiveMaximum);
    ghost var c := b + Opt8(0x24, p.maximumQos);
    ghost var d := c + Opt8(0x25, p.retainAvailable);
    Put32(buf, 0x11, p.sessionExpiry);
    Put16(buf, 0x21, p.receiveMaximum);
    Extend(start, a, Opt16(0x21, p.receiveMaximum));
    Put8(buf, 0x24, p.maximumQos);
    Extend(start, b, Opt8(0x24, p.maximumQos));
    Put8(buf, 0x25, p.retainAvailable);
    Extend(start, c, Opt8(0x25, p.retainAvailable));
    Put16(buf, 0x27, p.maximumPacketSize);
    Extend(start, d, Opt16(0x27, p.maximumPacketSize));
  }

  method PutNames(buf: BytesMut, p: Properties) returns (ok: bool)
    modifies buf
    ensures ok == ShortFields(Names(p))
    ensures ok ==> buf.data == old(buf.data) + FieldsBytes(Names(p))
  {
    ghost var start := buf.data;
    ghost var a := OptText(0x12, p.assignedClientId);
    ghost var b := a + Opt16(0x22, p.topicAliasMaximum);
    ghost var c := b + OptText(0x1F, p.reasonString);
    ShortConcat(a, Opt16(0x22, p.topicAliasMaximum));
    ShortConcat(b, OptText(0x1F, p.reasonString));
    ShortConcat(c, UserFields(ListOf(p.users)));
    UserBytes(ListOf(p.users));
    ok := PutText(buf, 0x12, p.assignedClientId);
    if !ok { return; }
    Put16(buf, 0x22, p.topicAliasMaximum);
    Extend(start, a, Opt16(0x22, p.topicAliasMaximum));
    ok := PutText(buf, 0x1F, p.reasonString);
    if !ok { return; }
    Extend(start, b, OptText(0x1F, p.reasonString));
    if p.users.Some? {
      ok := buf.PutPairs(p.users.value);
      if !ok { return; }
    }
    Extend(start, c, UserFields(ListOf(p.users)));
  }

  method PutFeatures(buf: BytesMut, p: Properties)
    modifies buf
    ensures ShortFields(Features(p)) && buf.data == old(buf.data) + FieldsBytes(Features(p))
  {
    ghost var start := buf.data;
    ghost var a := Opt8(0x28, p.wildcardAvailable);
    ghost var b := a + Opt8(0x29, p.subscriptionIdAvailable);
    ghost var c := b + Opt8(0x2A, p.sharedAvailable);
    Put8(buf, 0x28, p.wildcardAvailable);
    Put8(buf, 0x29, p.subscriptionIdAvailable);
    Extend(start, a, Opt8(0x29, p.subscriptionIdAvailable));
    Put8(buf, 0x2A, p.sharedAvailable);
    Extend(start, b, Opt8(0x2A, p.sharedAvailable));
    Put16(buf, 0x13, p.serverKeepAlive);
    Extend(start, c, Opt16(0x13, p.serverKeepAlive));
  }

  method PutTexts(buf: BytesMut, p: Properties) returns (ok: bool)
    modifies buf
    ensures ok == ShortFields(Texts(p))
    ensures ok ==> buf.data == old(buf.data) + FieldsBytes(Texts(p))
  {
    ghost var start := buf.data;
    ghost var a := OptText(0x1A, p.responseInformation);
    ghost var b := a + OptText(0x1C, p.serverReference);
    ShortConcat(a, OptText(0x1C, p.serverReference));
    ShortConcat(b, OptText(0x15, p.authMethod));
    ok := PutText(buf, 0x1A, p.responseInformation);
    if !ok { return; }
    ok := PutText(buf, 0x1C, p.serverReference);
    if !ok { return; }
    Extend(start, a, OptText(0x1C, p.serverReference));
    ok := PutText(buf, 0x15, p.authMethod);
    if !ok { return; }
    Extend(start, b, OptText(0x15, p.authMethod));
  }

  /** Writes every field, or stops at the first too long; authentication data,
      the last field and the only binary one, has an error of its own. */
  method PutProperties(buf: BytesMut, p: Properties) returns (r: Outcome<(), string>)
    requires buf.data == []
    modifies buf
    ensures match PropBytes(Some(p))
      case Ok(bytes) => r == Ok(()) && buf.data == bytes
      case Err(e) => r == Err(e)
      case Panic => r == Panic
  {
    ghost var a := Limits(p) + Names(p);
    ghost var b := a + Features(p);
    ghost var c := b + Texts(p);
    ShortConcat(Limits(p), Names(p));
    ShortConcat(a, Features(p));
    ShortConcat(b, Texts(p));
    ShortConcat(c, OptBinary(0x16, p.authData));
    assert Fields(p) == c + OptBinary(0x16, p.authData);
    PutLimits(buf, p);
    var ok := PutNames(buf, p);
    if !ok { return Err(STRING_TOO_LONG); }
    Extend([], Limits(p), Names(p));
    PutFeatures(buf, p);
    Extend([], a, Features(p));
    ok := PutTexts(buf, p);
    if !ok { return Err(STRING_TOO_LONG); }
    Extend([], b, Texts(p));
    ok := PutBinary(buf, 0x16, p.authData);
    if !ok { return Err(BINARY_TOO_LONG); }
    Extend([], c, OptBinary(0x16, p.authData));
    r := Ok(());
  }

  method Encode(c: Packet) returns (r: Outcome<Str, string>)
    ensures r == Encoding(c)
  {
    var prop := new BytesMut([]);
    if c.properties.Some? {
      var put := PutProperties(prop, c.properties.value);
      if put.Err? { return Err(put.error); }
    } else {
      prop.Put([0]);
      assert prop.data == [0];
    }
    var ok, propLen, propSize := RemainingLength.Encode(|prop.data| % WORD);
    if !ok { return Err("error encode length"); }
    var frame := [if c.sessionPresent then 1 else 0, c.returnCode] + propLen[..propSize] + prop.data;
    assert frame == Frame(c, prop.data);
    var len, size;
    ok, len, size := RemainingLength.Encode(|frame| % WORD);
    if !ok { return Err("error encode length"); }
    r := Ok([0x20] + len[..size] + frame);
  }

  // ---- Reading a packet ----

  method DecodeField(buf: BytesMut, acc: Properties) returns (r: Outcome<Properties, string>)
    requires buf.data != []
    modifies buf
    ensures Agrees(r, buf.data, ParseField(old(buf.data), acc))
  {
    var b := buf.GetU8();
    var tag := b.value;
    if KindOf(tag) == Some(KByte) {
      var v := buf.GetU8();
      r := Fill(v, x => Set(Field(tag, Byte(x)), acc));
    } else if KindOf(tag) == Some(KTwo) {
      var v := buf.GetU16();
      r := Fill(v, x => Set(Field(tag, Two(x)), acc));
    } else if KindOf(tag) == Some(KFour) {
      var v := buf.GetU32();
      r := Fill(v, x => Set(Field(tag, Four(x)), acc));
    } else if KindOf(tag) == Some(KText) {
      var v := buf.DecodeString();
      r := Fill(v, x => Set(Field(tag, Text(x)), acc));
    } else if KindOf(tag) == Some(KBinary) {
      var v := buf.DecodeBinary();
      r := Fill(v, x => Set(Field(tag, Binary(x)), acc));
    } else if KindOf(tag) == Some(KPair) {
      var v := buf.DecodePair();
      r := Fill(v, x => Set(Field(tag, Pair(x)), acc));
    } else {
      r := Err("Unknown property identifier");
    }
  }

  method DecodeProperties(buf: BytesMut) returns (r: Outcome<Option<Properties>, string>)
    modifies buf
    ensures r == ParseProps(old(buf.data))
  {
    if buf.data == [] { return Ok(None); }
    var n := RemainingLength.Decode(buf);
    if n.Panic? { return Panic; }
    if n.Err? { return Err("Failed to decode property length"); }
    if n.value == 0 { return Ok(None); }
    ghost var block := buf.data;
    var acc := NO_PROPERTIES;
    while |buf.data| > 0
      invariant ParseFields(buf.data, acc) == ParseFields(block, NO_PROPERTIES)
      decreases |buf.data|
    {
      var f := DecodeField(buf, acc);
      if f.Panic? { return Panic; }
      if f.Err? { return Err(f.error); }
      acc := f.value;
    }
    r := Ok(Some(acc));
  }

  method Decode(buf: BytesMut) returns (r: Outcome<Packet, string>)
    modifies buf
    ensures r == Decoding(old(buf.data))
  {
    if |buf.data| < 4 { return Err("Buffer too short"); }
    var h := buf.GetU8();
    if h.value / 16 != 2 { return Err("Invalid packet type for CONNACK"); }
    var n := RemainingLength.Decode(buf);
    if n.Panic? { return Panic; }
    if n.Err? { return Err("Failed to decode remaining length"); }
    if |buf.data| < n.value { return Err("Buffer too short for remaining length"); }
    ghost var body := buf.data;
    var session := buf.GetU8();
    if session.Panic? { return Panic; }
    var code := buf.GetU8();
    if code.Panic? { return Panic; }
    assert buf.data == body[2..];
    var properties := DecodeProperties(buf);
    if properties.Panic? { return Panic; }
    if properties.Err? { return Err(properties.error); }
    r := Ok(Packet(session.value % 2 != 0, code.value, properties.value));
  }
}
