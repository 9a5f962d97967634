/**
 The CONNACK packet, section 3.2 of MQTT Version 5.0, with its seventeen
 optional tagged properties.  The wire format is given once as a table from
 tag to kind of value; the encoder writes field by field and the decoder
 loops over tags in any order.
 */
module Connack {
  import opened Wrappers
  import opened Bytes
  import opened RemainingLength

  datatype Properties = Properties(
    sessionExpiry: Option<u32>,
    receiveMaximum: Option<u16>,
    maximumQos: Option<byte>,
    retainAvailable: Option<byte>,
    maximumPacketSize: Option<u16>,
    assignedClientId: Option<Str>,
    topicAliasMaximum: Option<u16>,
    reasonString: Option<Str>,
    users: Option<Pairs>,
    wildcardAvailable: Option<byte>,
    subscriptionIdAvailable: Option<byte>,
    sharedAvailable: Option<byte>,
    serverKeepAlive: Option<u16>,
    responseInformation: Option<Str>,
    serverReference: Option<Str>,
    authMethod: Option<Str>,
    authData: Option<Str>)

  const NO_PROPERTIES :=
    Properties(None, None, None, None, None, None, None, None, None, None, None, None, None, None, None, None, None)

  datatype Packet = Packet(sessionPresent: bool, returnCode: byte, properties: Option<Properties>)

  // ---- Tagged values ----

  datatype Kind = KByte | KTwo | KFour | KText | KBinary | KPair

  datatype Value = Byte(b: byte) | Two(n: u16) | Four(m: u32) | Text(s: Str) | Binary(d: Str) | Pair(kv: (Str, Str))

  datatype Field = Field(tag: byte, value: Value)

  function KindOf(tag: byte): Option<Kind> {
    if tag == 0x24 || tag == 0x25 || tag == 0x28 || tag == 0x29 || tag == 0x2A then Some(KByte)
    else if tag == 0x21 || tag == 0x27 || tag == 0x22 || tag == 0x13 then Some(KTwo)
    else if tag == 0x11 then Some(KFour)
    else if tag == 0x12 || tag == 0x1F || tag == 0x1A || tag == 0x1C || tag == 0x15 then Some(KText)
    else if tag == 0x16 then Some(KBinary)
    else if tag == USER_TAG then Some(KPair)
    else None
  }

  function ParseValue(k: Kind, s: Str): (r: Parse<Value>)
    ensures r.Ok? ==> |r.value.rest| < |s|
  {
    match k
    case KByte => Lift(ParseU8(s), (v: byte) => Byte(v))
    case KTwo => Lift(ParseU16(s), (v: u16) => Two(v))
    case KFour => Lift(ParseU32(s), (v: u32) => Four(v))
    case KText => Lift(ParseString(s), (v: Str) => Text(v))
    case KBinary => Lift(ParseBinary(s), (v: Str) => Binary(v))
    case KPair => Lift(ParsePair(s), (v: (Str, Str)) => Pair(v))
  }

  predicate ShortValue(v: Value) {
    match v
    case Text(s) => |s| <= MAX_STR
    case Binary(d) => |d| <= MAX_STR
    case Pair(kv) => |kv.0| <= MAX_STR && |kv.1| <= MAX_STR
    case _ => true
  }

  function ValueBytes(v: Value): Str
    requires ShortValue(v)
  {
    match v
    case Byte(b) => [b]
    case Two(n) => U16Bytes(n)
    case Four(m) => U32Bytes(m)
    case Text(s) => StrBytes(s)
    case Binary(d) => StrBytes(d)
    case Pair(kv) => StrBytes(kv.0) + StrBytes(kv.1)
  }

  function Set(f: Field, acc: Properties): Properties {
    match (f.tag, f.value)
    case (0x11, Four(v)) => acc.(sessionExpiry := Some(v))
    case (0x21, Two(v)) => acc.(receiveMaximum := Some(v))
    case (0x24, Byte(v)) => acc.(maximumQos := Some(v))
    case (0x25, Byte(v)) => acc.(retainAvailable := Some(v))
    case (0x27, Two(v)) => acc.(maximumPacketSize := Some(v))
    case (0x12, Text(v)) => acc.(assignedClientId := Some(v))
    case (0x22, Two(v)) => acc.(topicAliasMaximum := Some(v))
    case (0x1F, Text(v)) => acc.(reasonString := Some(v))
    case (0x26, Pair(v)) => acc.(users := Push(acc.users, v))
    case (0x28, Byte(v)) => acc.(wildcardAvailable := Some(v))
    case (0x29, Byte(v)) => acc.(subscriptionIdAvailable := Some(v))
    case (0x2A, Byte(v)) => acc.(sharedAvailable := Some(v))
    case (0x13, Two(v)) => acc.(serverKeepAlive := Some(v))
    case (0x1A, Text(v)) => acc.(responseInformation := Some(v))
    case (0x1C, Text(v)) => acc.(serverReference := Some(v))
    case (0x15, Text(v)) => acc.(authMethod := Some(v))
    case (0x16, Binary(v)) => acc.(authData := Some(v))
    case _ => acc
  }

  function ParseField(s: Str, acc: Properties): (r: Parse<Properties>)
    requires s != []
    ensures r.Ok? ==> |r.value.rest| < |s|
  {
    if KindOf(s[0]).None? then Err("Unknown property identifier")
    else Lift(ParseValue(KindOf(s[0]).value, s[1..]), (v: Value) => Set(Field(s[0], v), acc))
  }

  function ParseFields(s: Str, acc: Properties): Outcome<Properties, string>
    decreases |s|
  {
    if s == [] then Ok(acc)
    else
      match ParseField(s, acc)
      case Ok(Read(acc', rest)) => ParseFields(rest, acc')
      case Err(e) => Err(e)
      case Panic => Panic
  }

  // ---- The fields of a packet, in the order they are written ----

  function Opt8(tag: byte, o: Option<byte>): seq<Field> {
    if o.None? then [] else [Field(tag, Byte(o.value))]
  }

  function Opt16(tag: byte, o: Option<u16>): seq<Field> {
    if o.None? then [] else [Field(tag, Two(o.value))]
  }

  function Opt32(tag: byte, o: Option<u32>): seq<Field> {
    if o.None? then [] else [Field(tag, Four(o.value))]
  }

  function OptText(tag: byte, o: Option<Str>): seq<Field> {
    if o.None? then [] else [Field(tag, Text(o.value))]
  }

  function OptBinary(tag: byte, o: Option<Str>): seq<Field> {
    if o.None? then [] else [Field(tag, Binary(o.value))]
  }

  function UserFields(us: Pairs): seq<Field> {
    if us == [] then [] else [Field(USER_TAG, Pair(us[0]))] + UserFields(us[1..])
  }

  function Limits(p: Properties): seq<Field> {
    Opt32(0x11, p.sessionExpiry) + Opt16(0x21, p.receiveMaximum) + Opt8(0x24, p.maximumQos)
    + Opt8(0x25, p.retainAvailable) + Opt16(0x27, p.maximumPacketSize)
  }

  function Names(p: Properties): seq<Field> {
    OptText(0x12, p.assignedClientId) + Opt16(0x22, p.topicAliasMaximum) + OptText(0x1F, p.reasonString)
    + UserFields(ListOf(p.users))
  }

  function Features(p: Properties): seq<Field> {
    Opt8(0x28, p.wildcardAvailable) + Opt8(0x29, p.subscriptionIdAvailable) + Opt8(0x2A, p.sharedAvailable)
    + Opt16(0x13, p.serverKeepAlive)
  }

  function Texts(p: Properties): seq<Field> {
    OptText(0x1A, p.responseInformation) + OptText(0x1C, p.serverReference) + OptText(0x15, p.authMethod)
  }

  function Server(p: Properties): seq<Field> {
    Texts(p) + OptBinary(0x16, p.authData)
  }

  function Fields(p: Properties): seq<Field> {
    Limits(p) + Names(p) + Features(p) + Server(p)
  }

  predicate ShortFields(fs: seq<Field>) {
    forall f :: f in fs ==> ShortValue(f.value)
  }

  function FieldsBytes(fs: seq<Field>): Str
    requires ShortFields(fs)
  {
    if fs == [] then []
    else assert fs[0] in fs; [fs[0].tag] + ValueBytes(fs[0].value) + FieldsBytes(fs[1..])
  }

  // ---- Whole packets ----

  const STRING_TOO_LONG := "String too long"
  const BINARY_TOO_LONG := "Binary data too long"

  function PropBytes(o: Option<Properties>): Outcome<Str, string> {
    match o
    case None => Ok([0])
    case Some(p) =>
      if ShortFields(Fields(p)) then Ok(FieldsBytes(Fields(p)))
      else if ShortFields(Limits(p) + Names(p) + Features(p) + Texts(p)) then Err(BINARY_TOO_LONG)
      else Err(STRING_TOO_LONG)
  }

  function Frame(c: Packet, prop: Str): Str {
    [if c.sessionPresent then 1 else 0, c.returnCode] + LenBytes(|prop| % WORD) + prop
  }

  function Encoding(c: Packet): Outcome<Str, string> {
    match PropBytes(c.properties)
    case Panic => Panic
    case Err(e) => Err(e)
    case Ok(prop) =>
      if |prop| % WORD > MAX_ENCODABLE then Err("error encode length")
      else if |Frame(c, prop)| % WORD > MAX_ENCODABLE then Err("error encode length")
      else Ok([0x20] + LenBytes(|Frame(c, prop)| % WORD) + Frame(c, prop))
  }

  function ParseProps(s: Str): Outcome<Option<Properties>, string> {
    if s == [] then Ok(None)
    else
      match ParseLen(s)
      case Panic => Panic
      case Err(e) => Err("Failed to decode property length")
      case Ok(Read(n, rest)) => if n == 0 then Ok(None) else Fill(ParseFields(rest, NO_PROPERTIES), p => Some(p))
  }

  function Decoding(s: Str): Outcome<Packet, string> {
    if |s| < 4 then Err("Buffer too short")
    else if s[0] / 16 != 2 then Err("Invalid packet type for CONNACK")
    else
      match ParseLen(s[1..])
      case Panic => Panic
      case Err(e) => Err("Failed to decode remaining length")
      case Ok(Read(n, rest)) =>
        if |rest| < n then Err("Buffer too short for remaining length")
        else DecodingBody(rest)
  }

  function DecodingBody(s: Str): Outcome<Packet, string> {
    if |s| < 2 then Panic else WithProps(s[0] % 2 != 0, s[1], ParseProps(s[2..]))
  }

  function WithProps(session: bool, code: byte, r: Outcome<Option<Properties>, string>): Outcome<Packet, string> {
    match r
    case Ok(o) => Ok(Packet(session, code, o))
    case Err(e) => Err(e)
    case Panic => Panic
  }
}
