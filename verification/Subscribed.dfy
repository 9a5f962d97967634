/**
 The subscription file of a client: one record a line, a level code and a topic.
 Writing goes over a hash map in whatever order it has; reading takes no more
 than the first 1024 bytes, as the buffer is never given its room back.
 */
module Subscribed {
  import opened Wrappers
  import opened Bytes
  import opened ServiceLevels
  import Subscribe
  import opened Wal

  type Levels = map<Str, ServiceLevel>

  const CHUNK: nat := 1024

  // ---- What a file says ----

  /** Every line of `s` put into `acc`; what is left after the last is dropped. */
  function ParseLines(s: Str, acc: Levels): Outcome<Levels, string>
    decreases |s|
  {
    var n := LineLen(s);
    if n == 0 then Ok(acc)
    else if n == 1 then Panic
    else if !ValidUtf8(s[1..n - 1]) then Err("invalid utf-8")
    else match TryFrom(s[0])
      case None => Err("Invalid QoS")
      case Some(q) => ParseLines(s[n..], acc[s[1..n - 1] := q])
  }

  function FirstRead(file: Str): Str {
    if |file| <= CHUNK then file else file[..CHUNK]
  }

  function Stored(file: Str): Outcome<Levels, string> {
    ParseLines(FirstRead(file), map[])
  }

  // ---- What is written ----

  function SubLine(topic: Str, q: ServiceLevel): Str {
    [Code(q)] + topic + [LF]
  }

  /** The lines of the topics in `order`. */
  function SubLines(order: seq<Str>, m: Levels): Str
    requires forall t :: t in order ==> t in m
  {
    if order == [] then []
    else SubLines(order[..|order| - 1], m) + SubLine(order[|order| - 1], m[order[|order| - 1]])
  }

  predicate Distinct(order: seq<Str>) {
    forall i, j :: 0 <= i < j < |order| ==> order[i] != order[j]
  }

  /** Every key of the map once. */
  ghost predicate OrderOf(order: seq<Str>, m: Levels) {
    Distinct(order) && (forall t :: t in order <==> t in m)
  }

  /** `file` is the map written in some order. */
  ghost predicate Written(file: Str, m: Levels) {
    exists order :: OrderOf(order, m) && file == SubLines(order, m)
  }

  /** Topics are strings, so valid UTF-8. */
  predicate Strings(m: Levels) {
    forall t :: t in m ==> ValidUtf8(t)
  }

  predicate OneLined(m: Levels) {
    forall t :: t in m ==> LF !in t
  }

  // ---- Reading back ----

  /** The part of the map whose keys are in `order`. */
  ghost function Only(order: seq<Str>, m: Levels): Levels {
    map t | t in m && t in order :: m[t]
  }

  lemma {:induction false} OnlyOneMore(order: seq<Str>, t: Str, m: Levels)
    requires t in m
    ensures Only(order, m)[t := m[t]] == Only(order + [t], m)
  {
  }

  lemma {:induction false} ParseOneLine(t: Str, q: ServiceLevel, rest: Str, acc: Levels)
    requires ValidUtf8(t) && LF !in t
    ensures ParseLines(SubLine(t, q) + rest, acc) == ParseLines(rest, acc[t := q])
  {
    var s := SubLine(t, q) + rest;
    LineLenOf([Code(q)] + t, rest);
    assert s == ([Code(q)] + t) + [LF] + rest;
    assert s[1..|t| + 1] == t && s[|t| + 2..] == rest;
    CodesAreNames(Code(q));
  }

  lemma {:induction false} TopicIsLine(m: Levels, t: Str)
    requires Strings(m) && OneLined(m) && t in m
    ensures ValidUtf8(t) && LF !in t
  {
  }

  lemma {:induction false} ParseWritten(order: seq<Str>, m: Levels, rest: Str)
    requires Strings(m) && OneLined(m) && forall t :: t in order ==> t in m
    ensures ParseLines(SubLines(order, m) + rest, map[]) == ParseLines(rest, Only(order, m))
  {
    if order == [] {
      assert SubLines(order, m) + rest == rest && Only(order, m) == map[];
    } else {
      var n := |order| - 1;
      var front, t := order[..n], order[n];
      var line := SubLine(t, m[t]);
      hide ParseLines, SubLine, Only, OneLined, Strings;
      Regroup(SubLines(front, m), line, rest);
      ParseWritten(front, m, line + rest);
      TopicIsLine(m, t);
      ParseOneLine(t, m[t], rest, Only(front, m));
      OnlyOneMore(front, t, m);
      assert order == front + [t];
    }
  }

  /** After lines that can be read, the first that cannot decides: its topic is no
      string, or its first byte names no level. */
  lemma {:induction false} BadLine(order: seq<Str>, m: Levels, c: byte, t: Str, rest: Str)
    requires Strings(m) && OneLined(m) && (forall t :: t in order ==> t in m) && c != LF && LF !in t
    ensures !ValidUtf8(t) ==> ParseLines(SubLines(order, m) + ([c] + t + [LF] + rest), map[]) == Err("invalid utf-8")
    ensures ValidUtf8(t) && c > 2 ==>
      ParseLines(SubLines(order, m) + ([c] + t + [LF] + rest), map[]) == Err("Invalid QoS")
  {
    var s := [c] + t + [LF] + rest;
    ParseWritten(order, m, s);
    LineLenOf([c] + t, rest);
    assert s[1..|t| + 1] == t;
    CodesAreNames(c);
  }

  /** An empty line is a panic. */
  lemma {:induction false} BareLine(order: seq<Str>, m: Levels, rest: Str)
    requires Strings(m) && OneLined(m) && forall t :: t in order ==> t in m
    ensures ParseLines(SubLines(order, m) + ([LF] + rest), map[]) == Panic
  {
    ParseWritten(order, m, [LF] + rest);
    EmptyLine([LF] + rest, 0, Only(order, m));
    assert ([LF] + rest)[0..] == [LF] + rest;
  }

  /** A file of at most one read gives back the map, whatever the order. */
  lemma {:induction false} ShortReadsBack(order: seq<Str>, m: Levels)
    requires Strings(m) && OneLined(m) && OrderOf(order, m) && |SubLines(order, m)| <= CHUNK
    ensures Stored(SubLines(order, m)) == Ok(m)
  {
    assert SubLines(order, m) + [] == SubLines(order, m);
    ParseWritten(order, m, []);
    assert Only(order, m) == m;
  }

  /** Of a longer one the read ends inside some line, and the topics from there
      on are lost. */
  lemma {:induction false} LongCut(order: seq<Str>, m: Levels, n: nat) returns (j: nat, part: Str)
    requires (forall t :: t in order ==> t in m) && n < |SubLines(order, m)|
    ensures j < |order| && SubLines(order, m)[..n] == SubLines(order[..j], m) + part
    ensures |part| < |SubLine(order[j], m[order[j]])| && part == SubLine(order[j], m[order[j]])[..|part|]
  {
    var k := |order| - 1;
    var front := SubLines(order[..k], m);
    if n < |front| {
      j, part := LongCut(order[..k], m, n);
      assert order[..k][..j] == order[..j];
      assert SubLines(order, m)[..n] == front[..n];
    } else {
      j := k;
      part := SubLine(order[k], m[order[k]])[..n - |front|];
    }
  }

  lemma {:induction false} LongLosesOne(order: seq<Str>, m: Levels)
    requires Strings(m) && OneLined(m) && OrderOf(order, m) && |SubLines(order, m)| > CHUNK
    ensures Stored(SubLines(order, m)).Ok? && Stored(SubLines(order, m)).value != m
  {
    var j, part := LongCut(order, m, CHUNK);
    ParseWritten(order[..j], m, part);
    var t := order[j];
    assert part == ([Code(m[t])] + t)[..|part|];
    NoLine(part);
    assert t in m && t !in order[..j];
  }

  /** Topics read back are strings of one line. */
  lemma {:induction false} ReadTopicsAreOneLined(s: Str, acc: Levels)
    requires OneLined(acc) && Strings(acc)
    ensures ParseLines(s, acc).Ok? ==> OneLined(ParseLines(s, acc).value) && Strings(ParseLines(s, acc).value)
    decreases |s|
  {
    var n := LineLen(s);
    if n > 1 && TryFrom(s[0]).Some? && ValidUtf8(s[1..n - 1]) {
      FirstLineFeed(s);
      assert s[..n - 1] == [s[0]] + s[1..n - 1];
      ReadTopicsAreOneLined(s[n..], acc[s[1..n - 1] := TryFrom(s[0]).value]);
    }
  }

  lemma {:induction false} FirstLineFeed(s: Str)
    ensures LineLen(s) > 0 ==> LF !in s[..LineLen(s) - 1]
  {
    if s != [] && s[0] != LF {
      FirstLineFeed(s[1..]);
      if LineLen(s) > 0 { assert s[..LineLen(s) - 1] == [s[0]] + s[1..][..LineLen(s[1..]) - 1]; }
    }
  }

  /** Reading back what was written gives the same map, in whatever order it was
      written, exactly when it is no longer than one read and no topic holds a
      line feed. */
  lemma {:induction false} WrittenReadsBack(order: seq<Str>, m: Levels)
    requires Strings(m) && OrderOf(order, m)
    ensures Stored(SubLines(order, m)) == Ok(m) <==> |SubLines(order, m)| <= CHUNK && OneLined(m)
  {
    if OneLined(m) {
      if |SubLines(order, m)| <= CHUNK { ShortReadsBack(order, m); } else { LongLosesOne(order, m); }
    } else {
      ReadTopicsAreOneLined(FirstRead(SubLines(order, m)), map[]);
    }
  }

  /** The length written does not depend on the order. */
  function Size(topics: seq<Str>): nat {
    if topics == [] then 0 else 2 + |topics[|topics| - 1]| + Size(topics[..|topics| - 1])
  }

  lemma {:induction false} SizeIsLength(order: seq<Str>, m: Levels)
    requires forall t :: t in order ==> t in m
    ensures |SubLines(order, m)| == Size(order)
  {
    if order != [] { SizeIsLength(order[..|order| - 1], m); }
  }

  // ---- The operations ----

  /** Subscriptions put over the map, left to right. */
  function Override(m: Levels, subs: seq<Subscribe.Filter>): Levels {
    if subs == [] then m
    else Override(m, subs[..|subs| - 1])[subs[|subs| - 1].topic := subs[|subs| - 1].maxQos]
  }

  /** The last subscription to a topic counts; others keep what they had. */
  lemma {:induction false} OverrideAt(m: Levels, subs: seq<Subscribe.Filter>, t: Str)
    ensures t in Override(m, subs) <==> t in m || exists i :: 0 <= i < |subs| && subs[i].topic == t
    ensures (forall i :: 0 <= i < |subs| ==> subs[i].topic != t) && t in m ==> Override(m, subs)[t] == m[t]
    ensures forall i :: 0 <= i < |subs| && subs[i].topic == t && (forall j :: i < j < |subs| ==> subs[j].topic != t) ==>
      Override(m, subs)[t] == subs[i].maxQos
  {
    if subs != [] {
      var n := |subs| - 1;
      OverrideAt(m, subs[..n], t);
      assert forall i :: 0 <= i < n ==> subs[i] == subs[..n][i];
    }
  }

  lemma {:induction false} LineAt(s: Str, c: nat, i: nat)
    requires c <= i < |s| && s[i] == LF && LF !in s[c..i]
    ensures LineLen(s[c..]) == i - c + 1
    ensures s[c..][1 + i - c..] == s[i + 1..]
    ensures c < i ==> s[c..][1..i - c] == s[c + 1..i]
  {
    assert s[c..] == s[c..i] + [LF] + s[i + 1..];
    LineLenOf(s[c..i], s[i + 1..]);
  }

  /** What the line from `c` to the line feed at `i` adds to the map. */
  lemma {:induction false} LineParsed(s: Str, c: nat, i: nat, m: Levels)
    requires c < i < |s| && s[i] == LF && LF !in s[c..i]
    ensures ParseLines(s[c..], m) ==
      if !ValidUtf8(s[c + 1..i]) then Err("invalid utf-8")
      else if TryFrom(s[c]).None? then Err("Invalid QoS")
      else ParseLines(s[i + 1..], m[s[c + 1..i] := TryFrom(s[c]).value])
  {
    LineAt(s, c, i);
  }

  lemma {:induction false} EmptyLine(s: Str, i: nat, m: Levels)
    requires i < |s| && s[i] == LF
    ensures ParseLines(s[i..], m) == Panic
  {
  }

  lemma {:induction false} NoLineFeedYet(s: Str, c: nat, i: nat)
    requires c <= i < |s| && LF !in s[c..i] && s[i] != LF
    ensures LF !in s[c..i + 1]
  {
    assert s[c..i + 1] == s[c..i] + [s[i]];
  }

  lemma {:induction false} NoMoreLines(s: Str, c: nat, m: Levels)
    requires c <= |s| && LF !in s[c..|s|]
    ensures ParseLines(s[c..], m) == Ok(m)
  {
    assert s[c..|s|] == s[c..];
    NoLine(s[c..]);
  }

  /** Takes in the line from `c` to the line feed at `i`. */
  method ParseLine(s: Str, c: nat, i: nat, m: Levels) returns (r: Outcome<Levels, string>)
    requires c <= i < |s| && s[i] == LF && LF !in s[c..i]
    ensures ParseLines(s[c..], m) == if r.Ok? then ParseLines(s[i + 1..], r.value) else r
  {
    if c + 1 > i {
      EmptyLine(s, i, m);
      return Panic;
    }
    LineParsed(s, c, i, m);
    var k := s[c + 1..i];
    if !ValidUtf8(k) { return Err("invalid utf-8"); }
    var v := TryFrom(s[c]);
    if v.None? { return Err("Invalid QoS"); }
    r := Ok(m[k := v.value]);
  }

  /** The lines of one read, found by index. */
  method ParseChunk(s: Str) returns (r: Outcome<Levels, string>)
    ensures r == ParseLines(s, map[])
  {
    var c, m := 0, map[];
    assert s[0..] == s;
    for i := 0 to |s|
      invariant c <= i && LF !in s[c..i]
      invariant ParseLines(s[c..], m) == ParseLines(s, map[])
    {
      if s[i] != LF {
        NoLineFeedYet(s, c, i);
        continue;
      }
      r := ParseLine(s, c, i, m);
      if !r.Ok? { return; }
      m, c := r.value, i + 1;
    }
    NoMoreLines(s, c, m);
    r := Ok(m);
  }

  /** Reads until a read gives nothing or is not a whole buffer; the bytes split
      off the buffer never come back, so there is no second read. */
  method GetSubscribed(file: Str) returns (r: Outcome<Levels, string>, readed: nat)
    ensures r == Stored(file)
    ensures r.Ok? ==> readed == |FirstRead(file)|
  {
    var room, pos := CHUNK, 0;
    r, readed := Ok(map[]), 0;
    while true
      invariant pos == readed && pos <= |file|
      invariant pos == 0 ==> room == CHUNK && r == Ok(map[])
      invariant pos > 0 ==> room == 0 && pos == CHUNK && r.Ok? && r == Stored(file)
      decreases room
    {
      var n := if room < |file| - pos then room else |file| - pos;
      if n == 0 { break; }
      assert pos == 0 && file[..n] == FirstRead(file);
      room := room - n;
      r := ParseChunk(file[..n]);
      if !r.Ok? { return; }
      pos, readed := pos + n, readed + n;
      if n != CHUNK { break; }
    }
  }

  /** Writes the map in an order of its own. */
  method WriteSubscribed(file: BytesMut, m: Levels) returns (estLeng: nat)
    modifies file
    ensures exists order ::
      OrderOf(order, m) && file.data == old(file.data) + SubLines(order, m) && estLeng == Size(order)
  {
    var todo := m.Keys;
    var buf := new BytesMut([]);
    estLeng := 0;
    ghost var order: seq<Str> := [];
    while todo != {}
      invariant fresh(buf) && file.data == old(file.data)
      invariant todo <= m.Keys && Distinct(order) && forall t :: t in order <==> t in m && t !in todo
      invariant buf.data == SubLines(order, m) && estLeng == Size(order)
    {
      var t :| t in todo;
      todo := todo - {t};
      estLeng := estLeng + 2 + |t|;
      buf.Put([Code(m[t])]);
      buf.Put(t);
      buf.Put([LF]);
      assert (order + [t])[..|order|] == order;
      assert buf.data == SubLines(order, m) + SubLine(t, m[t]);
      order := order + [t];
    }
    file.Put(buf.data);
    assert OrderOf(order, m);
  }

  /** Empties a file and writes the map. */
  method Rewrite(file: BytesMut, m: Levels)
    modifies file
    ensures Written(file.data, m)
  {
    file.data := [];
    var _ := WriteSubscribed(file, m);
    ghost var order :| OrderOf(order, m) && file.data == [] + SubLines(order, m);
    assert [] + SubLines(order, m) == SubLines(order, m);
  }

  /** A file that cannot be read is left as it is; else it is rewritten with the
      subscriptions put over what it said. */
  method SubscribeOnDisk(file: BytesMut, topics: seq<Subscribe.Filter>) returns (r: Outcome<(), string>)
    modifies file
    ensures r.Ok? <==> Stored(old(file.data)).Ok?
    ensures r.Ok? ==> Written(file.data, Override(Stored(old(file.data)).value, topics))
    ensures !r.Ok? ==> file.data == old(file.data)
  {
    var got, _ := GetSubscribed(file.data);
    if got.Panic? { return Panic; }
    if got.Err? { return Err(got.error); }
    var m := got.value;
    assert topics[..0] == [];
    for i := 0 to |topics|
      invariant m == Override(got.value, topics[..i])
    {
      var sub := topics[i];
      assert topics[..i + 1][..i] == topics[..i];
      if sub.topic !in m || m[sub.topic] != sub.maxQos {
        m := m[sub.topic := sub.maxQos];
      }
    }
    assert topics[..|topics|] == topics;
    Rewrite(file, m);
    r := Ok(());
  }

  method UnsubscribeOnDisk(file: BytesMut, topics: seq<Str>) returns (r: Outcome<(), string>)
    modifies file
    ensures r.Ok? <==> Stored(old(file.data)).Ok?
    ensures r.Ok? ==> Written(file.data, Stored(old(file.data)).value - (set t | t in topics))
    ensures !r.Ok? ==> file.data == old(file.data)
  {
    var got, _ := GetSubscribed(file.data);
    if got.Panic? { return Panic; }
    if got.Err? { return Err(got.error); }
    var m := got.value;
    for i := 0 to |topics|
      invariant m == got.value - (set t | t in topics[..i])
    {
      assert topics[..i + 1] == topics[..i] + [topics[i]];
      m := m - {topics[i]};
    }
    assert topics[..|topics|] == topics;
    Rewrite(file, m);
    r := Ok(());
  }

  /** What a rewritten file is read back as. */
  lemma {:induction false} OnDisk(file: Str, m: Levels)
    requires Strings(m) && Written(file, m)
    ensures Stored(file) == Ok(m) <==> |file| <= CHUNK && OneLined(m)
  {
    var order :| OrderOf(order, m) && file == SubLines(order, m);
    WrittenReadsBack(order, m);
  }

  // ---- What the operations mean on disk ----

  lemma {:induction false} OverrideOneLined(m: Levels, topics: seq<Subscribe.Filter>)
    requires OneLined(m) && Strings(m) && forall f :: f in topics ==> ValidUtf8(f.topic)
    ensures Strings(Override(m, topics))
    ensures OneLined(Override(m, topics)) <==> forall f :: f in topics ==> LF !in f.topic
  {
    forall t | t in Override(m, topics) ensures ValidUtf8(t) { OverrideAt(m, topics, t); }
    if OneLined(Override(m, topics)) {
      forall f | f in topics ensures LF !in f.topic { OverrideAt(m, topics, f.topic); }
    } else {
      var t :| t in Override(m, topics) && LF in t;
      OverrideAt(m, topics, t);
    }
  }

  /** Subscribing is a left-to-right override of what the file says, exactly when
      the new file is no longer than one read and no topic holds a line feed. */
  lemma {:induction false} SubscribeOverrides(was: Str, file: Str, topics: seq<Subscribe.Filter>)
    requires Stored(was).Ok? && forall f :: f in topics ==> ValidUtf8(f.topic)
    requires Written(file, Override(Stored(was).value, topics))
    ensures Stored(file) == Ok(Override(Stored(was).value, topics))
      <==> |file| <= CHUNK && forall f :: f in topics ==> LF !in f.topic
  {
    ReadTopicsAreOneLined(FirstRead(was), map[]);
    OverrideOneLined(Stored(was).value, topics);
    OnDisk(file, Override(Stored(was).value, topics));
  }

  lemma {:induction false} SizeWithout(order: seq<Str>, j: nat)
    requires j < |order|
    ensures Size(order) == Size(order[..j] + order[j + 1..]) + 2 + |order[j]|
  {
    var n := |order| - 1;
    if j == n {
      assert order[..j] + order[j + 1..] == order[..n];
    } else {
      SizeWithout(order[..n], j);
      var less := order[..j] + order[j + 1..];
      assert less[..|less| - 1] == order[..n][..j] + order[..n][j + 1..];
    }
  }

  lemma {:induction false} StillIn(b: seq<Str>, j: nat, t: Str)
    requires j < |b| && t in b && t != b[j]
    ensures t in b[..j] + b[j + 1..]
  {
    var h :| 0 <= h < |b| && b[h] == t;
    if h > j { assert b[j + 1..][h - j - 1] == t; }
  }

  /** Fewer topics take no more room. */
  lemma {:induction false} SizeMonotone(a: seq<Str>, b: seq<Str>)
    requires Distinct(a) && forall t :: t in a ==> t in b
    ensures Size(a) <= Size(b)
  {
    if a != [] {
      var n := |a| - 1;
      assert a[n] in b;
      var j :| 0 <= j < |b| && b[j] == a[n];
      SizeWithout(b, j);
      var c := b[..j] + b[j + 1..];
      forall t | t in a[..n] ensures t in c {
        var i :| 0 <= i < n && a[i] == t;
        assert t in b && a[i] != a[n];
        StillIn(b, j, t);
      }
      SizeMonotone(a[..n], c);
    }
  }

  /** The map read from `s` takes no more room than `s`. */
  lemma {:induction false} ReadIsNoLonger(s: Str, acc: Levels, order: seq<Str>) returns (all: seq<Str>)
    requires OrderOf(order, acc) && ParseLines(s, acc).Ok?
    ensures OrderOf(all, ParseLines(s, acc).value) && Size(all) <= Size(order) + |s|
    decreases |s|
  {
    var n := LineLen(s);
    if n == 0 {
      all := order;
    } else {
      var t := s[1..n - 1];
      var more := if t in acc then order else order + [t];
      assert more != order ==> more[..|order|] == order;
      all := ReadIsNoLonger(s[n..], acc[t := TryFrom(s[0]).value], more);
    }
  }

  /** Unsubscribing always removes the keys from what the file says. */
  lemma {:induction false} UnsubscribeRemoves(was: Str, file: Str, topics: set<Str>)
    requires Stored(was).Ok? && Written(file, Stored(was).value - topics)
    ensures Stored(file) == Ok(Stored(was).value - topics)
  {
    var m := Stored(was).value;
    ReadTopicsAreOneLined(FirstRead(was), map[]);
    var order :| OrderOf(order, m - topics) && file == SubLines(order, m - topics);
    var all := ReadIsNoLonger(FirstRead(was), map[], []);
    SizeMonotone(order, all);
    SizeIsLength(order, m - topics);
    WrittenReadsBack(order, m - topics);
  }
}
