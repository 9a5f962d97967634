/**
 The text log of a session: one record a line, a decimal time, the name of the
 event and, for a disconnection, the decimal time the session expires.
 */
module Wal {
  import opened Wrappers
  import opened Bytes

  const U64_MAX := 0xFFFF_FFFF_FFFF_FFFF

  type u64 = x: int | 0 <= x <= U64_MAX

  datatype EventType =
    | ClientCreated
    | ClientDisconnected(at: nat)
    | DisconnectByServer(at: nat)
    | ClientRestored

  datatype Wall = Wall(time: nat, value: EventType)

  /** Times and expiries of 64 bits, as the program's all are. */
  predicate Fits(w: Wall) {
    w.time <= U64_MAX && (w.value.ClientDisconnected? || w.value.DisconnectByServer? ==> w.value.at <= U64_MAX)
  }

  predicate AllFit(es: seq<Wall>) {
    es == [] || (Fits(es[0]) && AllFit(es[1..]))
  }

  /** `ClientCreated` */
  const CREATED: Str := [0x43, 0x6C, 0x69, 0x65, 0x6E, 0x74, 0x43, 0x72, 0x65, 0x61, 0x74, 0x65, 0x64]

  /** `ClientDisconnected` */
  const DISCONNECTED: Str :=
    [0x43, 0x6C, 0x69, 0x65, 0x6E, 0x74, 0x44, 0x69, 0x73, 0x63, 0x6F, 0x6E, 0x6E, 0x65, 0x63, 0x74, 0x65, 0x64]

  /** `DisconnectByServer` */
  const BY_SERVER: Str :=
    [0x44, 0x69, 0x73, 0x63, 0x6F, 0x6E, 0x6E, 0x65, 0x63, 0x74, 0x42, 0x79, 0x53, 0x65, 0x72, 0x76, 0x65, 0x72]

  /** `ClientRestored` */
  const RESTORED: Str := [0x43, 0x6C, 0x69, 0x65, 0x6E, 0x74, 0x52, 0x65, 0x73, 0x74, 0x6F, 0x72, 0x65, 0x64]

  const LF: byte := 0x0A
  const SP: byte := 0x20
  const PLUS: byte := 0x2B

  // ---- Decimal numbers ----

  predicate IsDigit(b: byte) {
    0x30 <= b <= 0x39
  }

  function DigitByte(d: nat): byte
    requires d < 10
  {
    0x30 + d
  }

  function DigitValue(b: byte): nat
    requires IsDigit(b)
  {
    b - 0x30
  }

  function Decimal(n: nat): (r: Str)
    ensures r != [] && forall b :: b in r ==> IsDigit(b)
  {
    if n < 10 then [DigitByte(n)] else Decimal(n / 10) + [DigitByte(n % 10)]
  }

  /** What a numeral stands for: ten times the front and the last digit. */
  function Numeral(s: Str): nat
    requires forall b :: b in s ==> IsDigit(b)
  {
    if s == [] then 0
    else
      var n := |s| - 1;
      assert s[n] in s;
      10 * Numeral(s[..n]) + DigitValue(s[n])
  }

  /** A number is printed as its numeral to the base ten, without zeros in front. */
  lemma {:induction false} DecimalIsNumeral(n: nat)
    ensures Numeral(Decimal(n)) == n
    ensures |Decimal(n)| > 1 ==> Decimal(n)[0] != 0x30
  {
    if n >= 10 {
      DecimalIsNumeral(n / 10);
      assert Decimal(n)[..|Decimal(n)| - 1] == Decimal(n / 10);
    }
  }

  function ParseDigits(s: Str, acc: nat): Option<u64>
    requires acc <= U64_MAX
  {
    if s == [] then Some(acc)
    else if !IsDigit(s[0]) || acc * 10 + DigitValue(s[0]) > U64_MAX then None
    else ParseDigits(s[1..], acc * 10 + DigitValue(s[0]))
  }

  /** A leading plus is allowed; a value over 64 bits is refused. */
  function ParseU64(s: Str): Option<u64> {
    if s == [] then None
    else if s[0] == PLUS then if |s| == 1 then None else ParseDigits(s[1..], 0)
    else ParseDigits(s, 0)
  }

  lemma {:induction false} DigitsThen(n: u64, t: Str)
    ensures ParseDigits(Decimal(n) + t, 0) == ParseDigits(t, n)
  {
    if n < 10 {
      assert (Decimal(n) + t)[1..] == t;
    } else {
      var last := [DigitByte(n % 10)];
      assert Decimal(n) + t == Decimal(n / 10) + (last + t);
      DigitsThen(n / 10, last + t);
      assert (last + t)[1..] == t;
    }
  }

  /** Parsing undoes printing for every 64-bit number. */
  lemma {:induction false} DecimalRoundTrip(n: u64)
    ensures ParseU64(Decimal(n)) == Some(n)
  {
    assert Decimal(n) + [] == Decimal(n);
    assert Decimal(n)[0] in Decimal(n);
    DigitsThen(n, []);
  }

  // ---- Words ----

  predicate IsSpace(b: byte) {
    b == 0x20 || b == 0x09 || b == 0x0A || b == 0x0C || b == 0x0D
  }

  /** What trimming removes, among ASCII bytes. */
  predicate IsBlank(b: byte) {
    IsSpace(b) || b == 0x0B
  }

  function TrimStart(s: Str): Str {
    if s != [] && IsBlank(s[0]) then TrimStart(s[1..]) else s
  }

  function TrimEnd(s: Str): Str {
    if s != [] && IsBlank(s[|s| - 1]) then TrimEnd(s[..|s| - 1]) else s
  }

  function Trim(s: Str): Str {
    TrimEnd(TrimStart(s))
  }

  function WordLen(s: Str): (n: nat)
    ensures n <= |s| && (n == 0 <==> s == [] || IsSpace(s[0]))
  {
    if s == [] || IsSpace(s[0]) then 0 else 1 + WordLen(s[1..])
  }

  /** The parts of `s` between runs of white space. */
  function Words(s: Str): seq<Str>
    decreases |s|
  {
    if s == [] then []
    else if IsSpace(s[0]) then Words(s[1..])
    else [s[..WordLen(s)]] + Words(s[WordLen(s)..])
  }

  predicate Plain(w: Str) {
    w != [] && forall b :: b in w ==> !IsBlank(b)
  }

  lemma {:induction false} WordLenOf(w: Str, t: Str)
    requires forall b :: b in w ==> !IsBlank(b)
    requires t != [] ==> IsSpace(t[0])
    ensures WordLen(w + t) == |w|
  {
    if w == [] {
      assert w + t == t;
    } else {
      assert w[0] in w && forall b :: b in w[1..] ==> b in w;
      assert (w + t)[1..] == w[1..] + t;
      WordLenOf(w[1..], t);
    }
  }

  lemma {:induction false} OneWord(w: Str)
    requires Plain(w)
    ensures Words(w) == [w]
  {
    WordLenOf(w, []);
    assert w + [] == w && w[0] in w;
  }

  lemma {:induction false} FirstWord(w: Str, t: Str)
    requires Plain(w)
    ensures Words(w + [SP] + t) == [w] + Words(t)
  {
    var s := w + [SP] + t;
    assert s == w + ([SP] + t) && w[0] in w && s[0] == w[0];
    WordLenOf(w, [SP] + t);
    assert s[..|w|] == w && s[|w|..] == [SP] + t && ([SP] + t)[1..] == t;
  }

  // ---- Records ----

  function Value(e: EventType): Str {
    match e
    case ClientCreated => CREATED
    case ClientDisconnected(u) => DISCONNECTED + [SP] + Decimal(u)
    case DisconnectByServer(u) => BY_SERVER + [SP] + Decimal(u)
    case ClientRestored => RESTORED
  }

  /** A record without its line feed. */
  function Record(w: Wall): Str {
    Decimal(w.time) + [SP] + Value(w.value)
  }

  function Line(w: Wall): Str {
    Record(w) + [LF]
  }

  const NOT_REGISTERED := "not registered eventt"
  const NO_VALUE := "no value for set expiration"
  const BAD_NUMBER := "invalid expiration number"

  function EventOf(parts: seq<Str>): Outcome<EventType, string> {
    if |parts| < 2 then Err(NOT_REGISTERED)
    else if parts[1] == CREATED then Ok(ClientCreated)
    else if parts[1] == DISCONNECTED || parts[1] == BY_SERVER then
      if |parts| < 3 then Err(NO_VALUE)
      else match ParseU64(parts[2])
        case None => Err(BAD_NUMBER)
        case Some(u) => Ok(if parts[1] == DISCONNECTED then ClientDisconnected(u) else DisconnectByServer(u))
    else if parts[1] == RESTORED then Ok(ClientRestored)
    else Err(NOT_REGISTERED)
  }

  /** A missing or bad time is a panic, a bad event an error. */
  function Deserialize(b: Str): Outcome<Wall, string> {
    var parts := Words(Trim(b));
    if parts == [] || ParseU64(parts[0]).None? then Panic
    else match EventOf(parts)
      case Ok(e) => Ok(Wall(ParseU64(parts[0]).value, e))
      case Err(e) => Err(e)
      case Panic => Panic
  }

  lemma {:induction false} NamesArePlain()
    ensures Plain(CREATED) && Plain(DISCONNECTED) && Plain(BY_SERVER) && Plain(RESTORED)
  {
  }

  lemma {:induction false} NamesDiffer()
    ensures CREATED != DISCONNECTED && CREATED != BY_SERVER && CREATED != RESTORED
    ensures DISCONNECTED != BY_SERVER && DISCONNECTED != RESTORED && BY_SERVER != RESTORED
  {
    assert |CREATED| == 13 && |DISCONNECTED| == 18 && |BY_SERVER| == 18 && |RESTORED| == 14;
    assert DISCONNECTED[0] != BY_SERVER[0];
  }

  lemma {:induction false} DecimalIsPlain(n: nat)
    ensures Plain(Decimal(n))
  {
  }

  function ValueWords(e: EventType): seq<Str> {
    match e
    case ClientCreated => [CREATED]
    case ClientDisconnected(u) => [DISCONNECTED, Decimal(u)]
    case DisconnectByServer(u) => [BY_SERVER, Decimal(u)]
    case ClientRestored => [RESTORED]
  }

  lemma {:induction false} ValueInWords(e: EventType)
    ensures Words(Value(e)) == ValueWords(e)
  {
    NamesArePlain();
    match e
    case ClientCreated => OneWord(CREATED);
    case ClientRestored => OneWord(RESTORED);
    case ClientDisconnected(u) =>
      DecimalIsPlain(u);
      OneWord(Decimal(u));
      FirstWord(DISCONNECTED, Decimal(u));
    case DisconnectByServer(u) =>
      DecimalIsPlain(u);
      OneWord(Decimal(u));
      FirstWord(BY_SERVER, Decimal(u));
  }

  lemma {:induction false} RecordInWords(w: Wall)
    ensures Words(Record(w)) == [Decimal(w.time)] + ValueWords(w.value)
  {
    DecimalIsPlain(w.time);
    ValueInWords(w.value);
    FirstWord(Decimal(w.time), Value(w.value));
  }

  /** No white space at the ends, no line feed anywhere. */
  lemma {:induction false} RecordIsOneLine(w: Wall)
    ensures Record(w) != [] && !IsBlank(Record(w)[0]) && !IsBlank(Record(w)[|Record(w)| - 1])
    ensures LF !in Record(w)
  {
    NamesArePlain();
    DecimalIsPlain(w.time);
    ValueIsOneLine(w.value);
    assert Record(w)[0] == Decimal(w.time)[0] && Decimal(w.time)[0] in Decimal(w.time);
  }

  lemma {:induction false} ValueIsOneLine(e: EventType)
    ensures Value(e) != [] && !IsBlank(Value(e)[|Value(e)| - 1]) && LF !in Value(e)
  {
    NamesArePlain();
    match e
    case ClientCreated => assert CREATED[|CREATED| - 1] in CREATED;
    case ClientRestored => assert RESTORED[|RESTORED| - 1] in RESTORED;
    case ClientDisconnected(u) =>
      DecimalIsPlain(u);
      assert Decimal(u)[|Decimal(u)| - 1] in Decimal(u);
    case DisconnectByServer(u) =>
      DecimalIsPlain(u);
      assert Decimal(u)[|Decimal(u)| - 1] in Decimal(u);
  }

  /** Reading a written record gives it back, for all times and expiries. */
  lemma {:induction false} LineRoundTrip(w: Wall)
    requires Fits(w)
    ensures Deserialize(Line(w)) == Ok(w)
  {
    RecordIsOneLine(w);
    var s := Line(w);
    assert s[0] == Record(w)[0] && s[..|s| - 1] == Record(w);
    assert TrimEnd(s) == TrimEnd(Record(w)) == Record(w);
    assert Trim(s) == Record(w);
    RecordInWords(w);
    DecimalRoundTrip(w.time);
    EventRoundTrip(w);
  }

  lemma {:induction false} EventRoundTrip(w: Wall)
    requires Fits(w)
    ensures EventOf([Decimal(w.time)] + ValueWords(w.value)) == Ok(w.value)
  {
    NamesDiffer();
    match w.value
    case ClientCreated =>
    case ClientRestored =>
    case ClientDisconnected(u) => DecimalRoundTrip(u);
    case DisconnectByServer(u) => DecimalRoundTrip(u);
  }

  // ---- What cannot be read ----

  /** The bytes of ASCII characters. */
  function Ascii(s: string): Str {
    seq(|s|, i requires 0 <= i < |s| => AsciiByte(s[i]))
  }

  function AsciiByte(c: char): byte {
    if c as int < 0x80 then c as int else 0
  }

  lemma {:induction false} NamesSpelled()
    ensures CREATED == Ascii("ClientCreated") && DISCONNECTED == Ascii("ClientDisconnected")
    ensures BY_SERVER == Ascii("DisconnectByServer") && RESTORED == Ascii("ClientRestored")
  {
  }

  lemma {:induction false} DigitsSnoc(s: Str, d: byte, acc: nat)
    requires acc <= U64_MAX && IsDigit(d)
    ensures ParseDigits(s + [d], acc) ==
      match ParseDigits(s, acc)
      case None => None
      case Some(v) => if v * 10 + DigitValue(d) > U64_MAX then None else Some(v * 10 + DigitValue(d))
  {
    if s == [] {
      assert (s + [d])[1..] == [];
    } else {
      assert (s + [d])[1..] == s[1..] + [d];
      if IsDigit(s[0]) && acc * 10 + DigitValue(s[0]) <= U64_MAX { DigitsSnoc(s[1..], d, acc * 10 + DigitValue(s[0])); }
    }
  }

  /** Digits are read as their numeral when it fits 64 bits, and else not at all. */
  lemma {:induction false} NumeralParses(s: Str)
    requires s != [] && forall b :: b in s ==> IsDigit(b)
    ensures ParseU64(s) == if Numeral(s) <= U64_MAX then Some(Numeral(s)) else None
  {
    assert s[0] in s;
    DigitsAreNumeral(s);
  }

  lemma {:induction false} DigitsAreNumeral(s: Str)
    requires forall b :: b in s ==> IsDigit(b)
    ensures ParseDigits(s, 0) == if Numeral(s) <= U64_MAX then Some(Numeral(s)) else None
  {
    if s != [] {
      var n := |s| - 1;
      assert s[n] in s && s == s[..n] + [s[n]];
      DigitsAreNumeral(s[..n]);
      DigitsSnoc(s[..n], s[n], 0);
    }
  }

  lemma {:induction false} DigitsOnly(s: Str, acc: nat)
    requires acc <= U64_MAX
    ensures ParseDigits(s, acc).Some? ==> forall b :: b in s ==> IsDigit(b)
  {
    if s != [] && IsDigit(s[0]) && acc * 10 + DigitValue(s[0]) <= U64_MAX {
      DigitsOnly(s[1..], acc * 10 + DigitValue(s[0]));
      assert s == [s[0]] + s[1..];
    }
  }

  /** A number is read from digits, or a plus and digits, that fit 64 bits, and from
      nothing else. */
  lemma {:induction false} NumbersExactly(s: Str)
    ensures var t := if s != [] && s[0] == 0x2B then s[1..] else s;
      ParseU64(s).Some? <==> t != [] && (forall b :: b in t ==> IsDigit(b)) && Numeral(t) <= U64_MAX
  {
    var t := if s != [] && s[0] == 0x2B then s[1..] else s;
    DigitsOnly(t, 0);
    if t != [] && forall b :: b in t ==> IsDigit(b) { DigitsAreNumeral(t); }
  }

  /** Every blank character of ASCII: tab, line feed, form feed, carriage return and
      space between words, and the vertical tab at the ends too. */
  const GAPS: Str := [0x09, 0x0A, 0x0C, 0x0D, 0x20]
  const BLANKS: Str := [0x09, 0x0A, 0x0B, 0x0C, 0x0D, 0x20]

  lemma {:induction false} GapWords(gap: Str, t: Str)
    requires forall b :: b in gap ==> b in GAPS
    ensures Words(gap + t) == Words(t)
  {
    if gap == [] {
      assert gap + t == t;
    } else {
      assert gap[0] in gap && (gap + t)[1..] == gap[1..] + t && (gap + t)[0] == gap[0];
      GapWords(gap[1..], t);
    }
  }

  /** Any white space parts two words. */
  lemma {:induction false} AnyGap(w: Str, gap: Str, t: Str)
    requires Plain(w) && gap != [] && forall b :: b in gap ==> b in GAPS
    ensures Words(w + gap + t) == [w] + Words(t)
  {
    var rest := gap + t;
    assert gap[0] in gap && rest[0] == gap[0] && w[0] in w && w + gap + t == w + rest;
    WordLenOf(w, rest);
    assert (w + rest)[..|w|] == w && (w + rest)[|w|..] == rest;
    GapWords(gap, t);
  }

  /** Blanks of any kind at the ends are trimmed. */
  lemma {:induction false} AnyBlanks(a: Str, s: Str, b: Str)
    requires s != [] && s[0] !in BLANKS && s[|s| - 1] !in BLANKS
    requires (forall x :: x in a ==> x in BLANKS) && forall x :: x in b ==> x in BLANKS
    ensures Trim(a + s + b) == s
    decreases |a| + |b|
  {
    var all := a + s + b;
    if a != [] {
      assert a[0] in a && all[0] == a[0] && all[1..] == a[1..] + s + b;
      AnyBlanks(a[1..], s, b);
    } else if b != [] {
      var n := |b| - 1;
      assert b[n] in b && all[|all| - 1] == b[n] && all[..|all| - 1] == a + s + b[..n] && all[0] == s[0];
      AnyBlanks(a, s, b[..n]);
      assert TrimStart(all) == all && TrimStart(a + s + b[..n]) == a + s + b[..n];
    } else {
      assert all == s;
    }
  }

  lemma {:induction false} InWords(s: Str)
    requires s != [] && !IsBlank(s[0]) && !IsBlank(s[|s| - 1])
    ensures Trim(s + [LF]) == s
  {
    assert TrimStart(s + [LF]) == s + [LF] && (s + [LF])[..|s|] == s;
    assert TrimEnd(s + [LF]) == TrimEnd(s) == s;
  }

  lemma {:induction false} PlainEnds(w: Str)
    requires Plain(w)
    ensures !IsBlank(w[0]) && !IsBlank(w[|w| - 1])
  {
    assert w[0] in w && w[|w| - 1] in w;
  }

  lemma {:induction false} TwoWords(a: Str, b: Str)
    requires Plain(a) && Plain(b)
    ensures Words(Trim(a + [SP] + b + [LF])) == [a, b]
  {
    PlainEnds(a);
    PlainEnds(b);
    InWords(a + [SP] + b);
    FirstWord(a, b);
    OneWord(b);
  }

  lemma {:induction false} ThreeWords(a: Str, b: Str, c: Str)
    requires Plain(a) && Plain(b) && Plain(c)
    ensures Words(Trim(a + [SP] + (b + [SP] + c) + [LF])) == [a, b, c]
  {
    PlainEnds(a);
    PlainEnds(c);
    InWords(a + [SP] + (b + [SP] + c));
    FirstWord(a, b + [SP] + c);
    FirstWord(b, c);
    OneWord(c);
  }

  /** A line of two words is a record only of the events without an expiry. */
  lemma {:induction false} TwoWordLine(time: Str, name: Str)
    requires Plain(time) && Plain(name)
    ensures Deserialize(time + [SP] + name + [LF]) ==
      if ParseU64(time).None? then Panic
      else if name == CREATED then Ok(Wall(ParseU64(time).value, ClientCreated))
      else if name == RESTORED then Ok(Wall(ParseU64(time).value, ClientRestored))
      else Err(if name == DISCONNECTED || name == BY_SERVER then NO_VALUE else NOT_REGISTERED)
  {
    NamesDiffer();
    TwoWords(time, name);
  }

  /** A disconnection with an expiry that is no number is an error of its own. */
  lemma {:induction false} BadNumberLine(time: Str, name: Str, x: Str)
    requires Plain(time) && (name == DISCONNECTED || name == BY_SERVER) && Plain(x) && ParseU64(x).None?
    ensures Deserialize(time + [SP] + (name + [SP] + x) + [LF])
      == if ParseU64(time).None? then Panic else Err(BAD_NUMBER)
  {
    NamesDiffer();
    NamesArePlain();
    ThreeWords(time, name, x);
  }

  // ---- Logs ----

  function LogBytes(es: seq<Wall>): Str {
    if es == [] then [] else Line(es[0]) + LogBytes(es[1..])
  }

  lemma {:induction false} LogBytesAppend(a: seq<Wall>, b: seq<Wall>)
    ensures LogBytes(a + b) == LogBytes(a) + LogBytes(b)
  {
    if a == [] {
      assert a + b == b;
    } else {
      assert (a + b)[1..] == a[1..] + b;
      LogBytesAppend(a[1..], b);
    }
  }

  lemma {:induction false} OneLine(w: Wall)
    ensures LogBytes([w]) == Line(w)
  {
    assert [w][1..] == [] && Line(w) + [] == Line(w);
  }

  lemma {:induction false} OneMoreLine(es: seq<Wall>, i: nat)
    requires i < |es|
    ensures LogBytes(es[..i + 1]) == LogBytes(es[..i]) + Line(es[i])
  {
    assert es[..i + 1] == es[..i] + [es[i]];
    LogBytesAppend(es[..i], [es[i]]);
    OneLine(es[i]);
  }

  lemma {:induction false} Halves(es: seq<Wall>, n: nat)
    requires n <= |es|
    ensures es[..n] + es[n..] == es
  {
  }

  lemma {:induction false} HalvesBytes(es: seq<Wall>, n: nat)
    requires n <= |es|
    ensures LogBytes(es) == LogBytes(es[..n]) + LogBytes(es[n..])
  {
    Halves(es, n);
    LogBytesAppend(es[..n], es[n..]);
  }

  /** Length of the first line with its line feed, 0 when there is none. */
  function LineLen(s: Str): (n: nat)
    ensures n <= |s|
  {
    if s == [] then 0
    else if s[0] == LF then 1
    else if LineLen(s[1..]) == 0 then 0
    else 1 + LineLen(s[1..])
  }

  type Events = Outcome<seq<Wall>, string>

  /** The events of `r` after those in `es`. */
  function Joined(es: seq<Wall>, r: Events): Events {
    match r
    case Ok(more) => Ok(es + more)
    case Err(e) => Err(e)
    case Panic => Panic
  }

  /** What one read gives: lines up to the end, which must end one. */
  function ReadChunk(c: Str): Events
    decreases |c|
  {
    if c == [] then Ok([])
    else if LineLen(c) == 0 then Panic
    else match Deserialize(c[..LineLen(c)])
      case Ok(w) => Joined([w], ReadChunk(c[LineLen(c)..]))
      case Err(e) => Err(e)
      case Panic => Panic
  }

  /** What a list of reads gives; an empty one ends the file. */
  function ReadLog(cs: seq<Str>): Events {
    if cs == [] || cs[0] == [] then Ok([])
    else match ReadChunk(cs[0])
      case Ok(es) => Joined(es, ReadLog(cs[1..]))
      case Err(e) => Err(e)
      case Panic => Panic
  }

  // ---- Reading back a written log ----

  predicate EndsLine(c: Str) {
    c != [] && c[|c| - 1] == LF
  }

  function Concat(cs: seq<Str>): Str {
    if cs == [] then [] else cs[0] + Concat(cs[1..])
  }

  lemma {:induction false} LineLenOf(r: Str, t: Str)
    requires LF !in r
    ensures LineLen(r + [LF] + t) == |r| + 1
  {
    var s := r + [LF] + t;
    if r != [] {
      assert r[0] in r && forall b :: b in r[1..] ==> b in r;
      assert s[1..] == r[1..] + [LF] + t;
      LineLenOf(r[1..], t);
    }
  }

  lemma {:induction false} NoLine(r: Str)
    requires LF !in r
    ensures LineLen(r) == 0
  {
    if r != [] {
      assert r[0] in r && forall b :: b in r[1..] ==> b in r;
      NoLine(r[1..]);
    }
  }

  /** The first event of a chunk that holds it whole. */
  lemma {:induction false} ReadFirst(w: Wall, t: Str)
    requires Fits(w)
    ensures ReadChunk(Line(w) + t) == Joined([w], ReadChunk(t))
  {
    RecordIsOneLine(w);
    LineLenOf(Record(w), t);
    var s := Line(w) + t;
    assert s == Record(w) + [LF] + t;
    assert s[..|Line(w)|] == Line(w) && s[|Line(w)|..] == t;
    LineRoundTrip(w);
  }

  /** Written records, then a line that is none: its error is that of the read. */
  lemma {:induction false} LogThenBad(es: seq<Wall>, b: Str, rest: Str)
    requires AllFit(es) && LF !in b && Deserialize(b + [LF]).Err?
    ensures ReadChunk(LogBytes(es) + (b + [LF] + rest)) == Err(Deserialize(b + [LF]).error)
  {
    hide Deserialize;
    var bad := b + [LF] + rest;
    if es == [] {
      LineLenOf(b, rest);
      assert LogBytes(es) + bad == bad && bad[..|b| + 1] == b + [LF];
    } else {
      LogThenBad(es[1..], b, rest);
      ReadFirst(es[0], LogBytes(es[1..]) + bad);
      Regroup(Line(es[0]), LogBytes(es[1..]), bad);
    }
  }

  lemma {:induction false} JoinedNone(r: Events)
    ensures Joined([], r) == r
  {
    if r.Ok? { assert [] + r.value == r.value; }
  }

  lemma {:induction false} JoinedTwice(a: seq<Wall>, b: seq<Wall>, r: Events)
    ensures Joined(a + b, r) == Joined(a, Joined(b, r))
  {
    if r.Ok? { assert a + b + r.value == a + (b + r.value); }
  }

  /** A chunk that ends inside the first record. */
  lemma {:induction false} ReadPart(w: Wall, c: Str, rest: Str, t: Str)
    requires c != [] && |c| < |Line(w)| && c + rest == Line(w) + t
    ensures !EndsLine(c) && ReadChunk(c) == Panic
  {
    RecordIsOneLine(w);
    assert c == (c + rest)[..|c|] == Line(w)[..|c|] == Record(w)[..|c|];
    assert forall b :: b in c ==> b in Record(w);
    assert c[|c| - 1] in c;
    NoLine(c);
  }

  lemma {:induction false} TailOf(a: Str, b: Str, line: Str, t: Str)
    requires a + b == line + t && |a| >= |line|
    ensures a == line + a[|line|..] && a[|line|..] + b == t
  {
    assert (a + b)[..|line|] == line && (a + b)[|line|..] == t;
    assert (a + b)[..|line|] == a[..|line|] && (a + b)[|line|..] == a[|line|..] + b;
  }

  /** A chunk of a written log either is its first `n` records, which it gives,
      or ends inside one, which is a panic. */
  ghost predicate IsRead(es: seq<Wall>, c: Str, rest: Str, n: nat) {
    && n <= |es| && AllFit(es[n..])
    && (if c == [] || EndsLine(c) then ReadChunk(c) == Ok(es[..n]) && rest == LogBytes(es[n..])
        else ReadChunk(c) == Panic)
  }

  lemma {:induction false} EndsAfterLine(w: Wall, d: Str)
    ensures EndsLine(Line(w) + d) <==> d == [] || EndsLine(d)
  {
    assert EndsLine(Line(w));
  }

  lemma {:induction false} FirstAndFront(es: seq<Wall>, n: nat)
    requires n < |es|
    ensures [es[0]] + es[1..][..n] == es[..n + 1] && es[1..][n..] == es[n + 1..]
  {
  }

  lemma {:induction false} OneMoreRead(es: seq<Wall>, c: Str, d: Str, rest: Str, n: nat)
    requires es != [] && Fits(es[0]) && c == Line(es[0]) + d && IsRead(es[1..], d, rest, n)
    ensures IsRead(es, c, rest, n + 1)
  {
    ReadFirst(es[0], d);
    EndsAfterLine(es[0], d);
    FirstAndFront(es, n);
  }

  lemma {:induction false} ReadPrefix(es: seq<Wall>, c: Str, rest: Str) returns (n: nat)
    requires AllFit(es) && c + rest == LogBytes(es)
    ensures IsRead(es, c, rest, n)
  {
    n := 0;
    if c == [] {
      assert c + rest == rest && es[0..] == es;
    } else if |c| < |Line(es[0])| {
      assert es[0..] == es;
      ReadPart(es[0], c, rest, LogBytes(es[1..]));
    } else {
      TailOf(c, rest, Line(es[0]), LogBytes(es[1..]));
      n := ReadPrefix(es[1..], c[|Line(es[0])|..], rest);
      OneMoreRead(es, c, c[|Line(es[0])|..], rest, n);
      n := n + 1;
    }
  }

  lemma {:induction false} EmptyLog(es: seq<Wall>)
    ensures LogBytes(es) == [] <==> es == []
  {
  }

  predicate AllEndLines(cs: seq<Str>) {
    cs == [] || (EndsLine(cs[0]) && AllEndLines(cs[1..]))
  }

  predicate NoneEmpty(cs: seq<Str>) {
    cs == [] || (cs[0] != [] && NoneEmpty(cs[1..]))
  }

  lemma {:induction false} ReadOn(cs: seq<Str>)
    requires cs != [] && cs[0] != [] && !ReadChunk(cs[0]).Err?
    ensures ReadLog(cs)
      == if ReadChunk(cs[0]).Panic? then Panic else Joined(ReadChunk(cs[0]).value, ReadLog(cs[1..]))
  {
  }

  /** A read of no bytes ends the file, whatever would follow it. */
  lemma {:induction false} EmptyReadEnds(cs: seq<Str>, more: seq<Str>)
    ensures ReadLog(cs + [[]] + more) == ReadLog(cs)
  {
    var all := cs + [[]] + more;
    if cs != [] {
      assert all[0] == cs[0] && all[1..] == cs[1..] + [[]] + more;
      EmptyReadEnds(cs[1..], more);
    }
  }

  /** Reading back a written log gives the same events exactly when every read
      ends where a record does, and panics otherwise. */
  lemma {:induction false} LogRoundTrip(es: seq<Wall>, cs: seq<Str>)
    requires AllFit(es) && Concat(cs) == LogBytes(es) && NoneEmpty(cs)
    ensures ReadLog(cs) == if AllEndLines(cs) then Ok(es) else Panic
    decreases |cs|
  {
    if cs == [] {
      EmptyLog(es);
    } else {
      var n := ReadPrefix(es, cs[0], Concat(cs[1..]));
      ReadOn(cs);
      if EndsLine(cs[0]) {
        LogRoundTrip(es[n..], cs[1..]);
        Halves(es, n);
      }
    }
  }

  // ---- The operations ----

  method Serialize(buf: BytesMut, w: Wall)
    modifies buf
    ensures buf.data == old(buf.data) + Line(w)
  {
    buf.Put(Decimal(w.time) + [SP]);
    buf.Put(Value(w.value));
    buf.Put([LF]);
  }

  /** Appends records to a file in one write. */
  method WriteWall(file: BytesMut, wall: seq<Wall>)
    modifies file
    ensures file.data == old(file.data) + LogBytes(wall)
  {
    var buffer := new BytesMut([]);
    for i := 0 to |wall|
      invariant fresh(buffer) && file.data == old(file.data)
      invariant buffer.data == LogBytes(wall[..i])
    {
      Serialize(buffer, wall[i]);
      OneMoreLine(wall, i);
    }
    assert wall[..|wall|] == wall;
    file.Put(buffer.data);
  }

  /** Splits each read into lines; a line the read does not hold whole is an
      index past its end. */
  method ReadWall(cs: seq<Str>) returns (r: Events)
    ensures r == ReadLog(cs)
  {
    var wall: seq<Wall> := [];
    var k := 0;
    JoinedNone(ReadLog(cs));
    assert cs[0..] == cs;
    while k < |cs|
      invariant 0 <= k <= |cs|
      invariant ReadLog(cs) == Joined(wall, ReadLog(cs[k..]))
    {
      assert cs[k..][0] == cs[k] && cs[k..][1..] == cs[k + 1..];
      if |cs[k]| == 0 { break; }
      r := ReadLines(cs[k]);
      if !r.Ok? { return; }
      JoinedTwice(wall, r.value, ReadLog(cs[k + 1..]));
      wall := wall + r.value;
      k := k + 1;
    }
    assert wall + [] == wall;
    r := Ok(wall);
  }

  method ReadLines(c: Str) returns (r: Events)
    ensures r == ReadChunk(c)
  {
    var wall: seq<Wall> := [];
    var read, i := c, 0;
    JoinedNone(ReadChunk(c));
    while |read| > 0
      invariant 0 <= i <= |read| && LF !in read[..i] && (i > 0 ==> read != [])
      invariant ReadChunk(c) == Joined(wall, ReadChunk(read))
      decreases |read|, |read| - i
    {
      if i >= |read| {
        assert read[..i] == read;
        NoLine(read);
        return Panic;
      }
      var isSeparator := read[i] == LF;
      i := i + 1;
      if !isSeparator { continue; }
      assert read == read[..i - 1] + [LF] + read[i..];
      LineLenOf(read[..i - 1], read[i..]);
      var b := read[..i];
      var des := Deserialize(b);
      if des.Panic? { return Panic; }
      if des.Err? { return Err(des.error); }
      JoinedTwice(wall, [des.value], ReadChunk(read[i..]));
      read := read[i..];
      wall := wall + [des.value];
      i := 0;
    }
    assert wall + [] == wall;
    r := Ok(wall);
  }
}
