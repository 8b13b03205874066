/**
 * The canonical fingerprint of a JSON body: equal exactly for bodies that are equal up to member order.
 * Texts are sequences of UTF-16 code units, as in JavaScript.
 */
module CanonicalJson {
  import opened Common

  type Unit = u: nat | u < 0x1_0000

  type Text = seq<Unit>

  const QUOTE: Unit := 34
  const COMMA: Unit := 44
  const COLON: Unit := 58
  const BACKSLASH: Unit := 92
  const OPEN_ARRAY: Unit := 91
  const CLOSE_ARRAY: Unit := 93
  const OPEN_OBJECT: Unit := 123
  const CLOSE_OBJECT: Unit := 125
  const NULL_TEXT: Text := [110, 117, 108, 108]
  const TRUE_TEXT: Text := [116, 114, 117, 101]
  const FALSE_TEXT: Text := [102, 97, 108, 115, 101]

  datatype Member = Member(key: Text, value: Json)

  /**
   * A parsed body. A finite number is given by the decimal text JavaScript prints for it, which is unique;
   * `Overflow` is a literal such as 1e999, which parses to an infinity.
   */
  datatype Json =
    | Null
    | Bool(value: bool)
    | Num(token: Text)
    | Overflow
    | Str(text: Text)
    | Arr(items: seq<Json>)
    | Obj(members: seq<Member>)

  // ---- Printing ----

  predicate HighSurrogate(u: Unit) { 0xD800 <= u < 0xDC00 }

  predicate LowSurrogate(u: Unit) { 0xDC00 <= u < 0xE000 }

  predicate Paired(s: Text, i: nat)
    requires i < |s|
  {
    || (HighSurrogate(s[i]) && i + 1 < |s| && LowSurrogate(s[i + 1]))
    || (LowSurrogate(s[i]) && i > 0 && HighSurrogate(s[i - 1]))
  }

  function HexDigit(n: nat): Unit
    requires n < 16
  {
    if n < 10 then 48 + n else 87 + n
  }

  function HexEscape(u: Unit): Text {
    [BACKSLASH, 117, HexDigit(u / 16 / 16 / 16), HexDigit(u / 16 / 16 % 16), HexDigit(u / 16 % 16), HexDigit(u % 16)]
  }

  /** One code unit inside a JSON string; `paired` says a surrogate has its partner next to it. */
  function Escaped(u: Unit, paired: bool): Text {
    if u == QUOTE || u == BACKSLASH then [BACKSLASH, u]
    else if u == 8 then [BACKSLASH, 98]
    else if u == 9 then [BACKSLASH, 116]
    else if u == 10 then [BACKSLASH, 110]
    else if u == 12 then [BACKSLASH, 102]
    else if u == 13 then [BACKSLASH, 114]
    else if u < 32 || ((HighSurrogate(u) || LowSurrogate(u)) && !paired) then HexEscape(u)
    else [u]
  }

  /** JSON.stringify of a string from unit `i` on, closing quote included. */
  function QuoteFrom(s: Text, i: nat): Text
    requires i <= |s|
    decreases |s| - i
  {
    if i == |s| then [QUOTE] else Escaped(s[i], Paired(s, i)) + QuoteFrom(s, i + 1)
  }

  function Quote(s: Text): Text { [QUOTE] + QuoteFrom(s, 0) }

  function Join(parts: seq<Text>): Text {
    if parts == [] then [] else if |parts| == 1 then parts[0] else parts[0] + [COMMA] + Join(parts[1..])
  }

  datatype Entry = Entry(key: Text, text: Text)

  /** The default sort of strings: by code units. */
  predicate Less(a: Text, b: Text) {
    b != [] && (a == [] || a[0] < b[0] || (a[0] == b[0] && Less(a[1..], b[1..])))
  }

  function InsertEntry(e: Entry, sorted: seq<Entry>): seq<Entry> {
    if sorted == [] || Less(e.key, sorted[0].key) then [e] + sorted
    else [sorted[0]] + InsertEntry(e, sorted[1..])
  }

  function SortEntries(entries: seq<Entry>): seq<Entry> {
    if entries == [] then [] else InsertEntry(entries[0], SortEntries(entries[1..]))
  }

  function MemberText(e: Entry): Text { Quote(e.key) + [COLON] + e.text }

  function Texts(entries: seq<Entry>): seq<Text> {
    seq(|entries|, i requires 0 <= i < |entries| => MemberText(entries[i]))
  }

  function StableStringify(j: Json): Text {
    match j
    case Null => NULL_TEXT
    case Bool(b) => if b then TRUE_TEXT else FALSE_TEXT
    case Num(token) => token
    case Overflow => NULL_TEXT
    case Str(text) => Quote(text)
    case Arr(items) => [OPEN_ARRAY] + Join(seq(|items|, i requires 0 <= i < |items| => StableStringify(items[i]))) + [CLOSE_ARRAY]
    case Obj(members) =>
      var entries := seq(|members|, i requires 0 <= i < |members| => Entry(members[i].key, StableStringify(members[i].value)));
      [OPEN_OBJECT] + Join(Texts(SortEntries(entries))) + [CLOSE_OBJECT]
  }

  // ---- What the fingerprint is to decide ----

  predicate TokenUnit(u: Unit) { 48 <= u <= 57 || u == 43 || u == 45 || u == 46 || u == 101 }

  predicate NumberToken(t: Text) {
    t != [] && (48 <= t[0] <= 57 || t[0] == 45) && forall i | 0 <= i < |t| :: TokenUnit(t[i])
  }

  ghost predicate DistinctKeys(members: seq<Member>) {
    forall i, j :: 0 <= i < j < |members| ==> members[i].key != members[j].key
  }

  /** What JSON.parse can return. */
  ghost predicate Valid(j: Json) {
    match j
    case Num(token) => NumberToken(token)
    case Arr(items) => forall i | 0 <= i < |items| :: Valid(items[i])
    case Obj(members) => DistinctKeys(members) && forall i | 0 <= i < |members| :: Valid(members[i].value)
    case _ => true
  }

  /** Equality up to the order of members; an infinity counts as null, as it does for JSON.stringify. */
  ghost predicate Same(a: Json, b: Json) {
    match a
    case Null => b.Null? || b.Overflow?
    case Overflow => b.Null? || b.Overflow?
    case Bool(_) => a == b
    case Num(_) => a == b
    case Str(_) => a == b
    case Arr(items) => b.Arr? && |items| == |b.items| && forall i | 0 <= i < |items| :: Same(items[i], b.items[i])
    case Obj(members) =>
      && b.Obj? && |members| == |b.members|
      && forall i | 0 <= i < |members| :: exists j | 0 <= j < |b.members| :: SameMember(members[i], b.members[j])
  }

  ghost predicate SameMember(m: Member, n: Member) {
    m.key == n.key && Same(m.value, n.value)
  }

  // ---- Strings read back uniquely ----

  lemma HexDigitsAreDistinct(m: nat, n: nat)
    requires m < 16 && n < 16 && HexDigit(m) == HexDigit(n)
    ensures m == n
  {
  }

  lemma HexEscapeIsInjective(u: Unit, v: Unit)
    requires HexEscape(u) == HexEscape(v)
    ensures u == v
  {
    var a, b := HexEscape(u), HexEscape(v);
    assert a[2] == b[2] && a[3] == b[3] && a[4] == b[4] && a[5] == b[5];
    HexDigitsAreDistinct(u / 16 / 16 / 16, v / 16 / 16 / 16);
    HexDigitsAreDistinct(u / 16 / 16 % 16, v / 16 / 16 % 16);
    HexDigitsAreDistinct(u / 16 % 16, v / 16 % 16);
    HexDigitsAreDistinct(u % 16, v % 16);
  }

  /** The first two units of an escape already tell how long it is. */
  lemma EscapeLength(u: Unit, p: bool, v: Unit, q: bool, x: Text, y: Text)
    requires Escaped(u, p) + x == Escaped(v, q) + y
    ensures |Escaped(u, p)| == |Escaped(v, q)|
  {
    var a, b := Escaped(u, p), Escaped(v, q);
    assert a[0] == (a + x)[0] && b[0] == (b + y)[0];
    if |a| > 1 && |b| > 1 {
      assert a[1] == (a + x)[1] && b[1] == (b + y)[1];
    }
  }

  lemma EscapeReadsBack(u: Unit, p: bool, v: Unit, q: bool, x: Text, y: Text)
    requires Escaped(u, p) + x == Escaped(v, q) + y
    ensures u == v && x == y
  {
    EscapeLength(u, p, v, q, x, y);
    SameLengthSplits(Escaped(u, p), x, Escaped(v, q), y);
    if |Escaped(u, p)| == 6 {
      HexEscapeIsInjective(u, v);
    }
  }

  lemma SameLengthSplits(a: Text, x: Text, b: Text, y: Text)
    requires a + x == b + y && |a| == |b|
    ensures a == b && x == y
  {
    assert a == (a + x)[..|a|] && b == (b + y)[..|b|];
    assert x == (a + x)[|a|..] && y == (b + y)[|b|..];
  }

  lemma QuoteUnfolds(s: Text, i: nat, x: Text)
    requires i < |s|
    ensures QuoteFrom(s, i) + x == Escaped(s[i], Paired(s, i)) + (QuoteFrom(s, i + 1) + x)
  {
  }

  lemma QuoteEnds(s: Text, i: nat, x: Text)
    requires i <= |s|
    ensures (QuoteFrom(s, i) + x)[0] == QUOTE <==> i == |s|
  {
    if i < |s| {
      assert (QuoteFrom(s, i) + x)[0] == Escaped(s[i], Paired(s, i))[0];
    }
  }

  lemma {:induction false} QuoteReadsBack(s: Text, i: nat, t: Text, j: nat, x: Text, y: Text)
    requires i <= |s| && j <= |t| && QuoteFrom(s, i) + x == QuoteFrom(t, j) + y
    ensures s[i..] == t[j..] && x == y
    decreases |s| - i
  {
    QuoteEnds(s, i, x);
    QuoteEnds(t, j, y);
    if i == |s| {
      SameLengthSplits([QUOTE], x, [QUOTE], y);
    } else {
      QuoteUnfolds(s, i, x);
      QuoteUnfolds(t, j, y);
      var a, b := QuoteFrom(s, i + 1) + x, QuoteFrom(t, j + 1) + y;
      EscapeReadsBack(s[i], Paired(s, i), t[j], Paired(t, j), a, b);
      QuoteReadsBack(s, i + 1, t, j + 1, x, y);
      TailUnfolds(s, i);
      TailUnfolds(t, j);
    }
  }

  lemma TailUnfolds(s: Text, i: nat)
    requires i < |s|
    ensures s[i..] == [s[i]] + s[i + 1..]
  {
  }

  lemma QuoteSplits(s: Text, x: Text)
    ensures Quote(s) + x == [QUOTE] + (QuoteFrom(s, 0) + x)
  {
  }

  lemma QuoteIsReadable(s: Text, t: Text, x: Text, y: Text)
    requires Quote(s) + x == Quote(t) + y
    ensures s == t && x == y
  {
    QuoteSplits(s, x);
    QuoteSplits(t, y);
    SameLengthSplits([QUOTE], QuoteFrom(s, 0) + x, [QUOTE], QuoteFrom(t, 0) + y);
    QuoteReadsBack(s, 0, t, 0, x, y);
    assert s[0..] == s && t[0..] == t;
  }

  // ---- Values read back uniquely ----

  predicate Closer(u: Unit) { u == CLOSE_ARRAY || u == CLOSE_OBJECT }

  /** What can follow a value: nothing, a comma, or a closing bracket. */
  predicate Delimited(x: Text) { x == [] || x[0] == COMMA || Closer(x[0]) }

  predicate Starts(t: Text) { t != [] && !Delimited(t) }

  /** No text of the one value, followed by a delimiter, can be mistaken for a text of the other. */
  ghost predicate Readable(s: Text, t: Text) {
    forall x: Text, y: Text :: Delimited(x) && Delimited(y) && s + x == t + y ==> s == t && x == y
  }

  lemma LongerTakesOver(s: Text, x: Text, t: Text, y: Text)
    requires s + x == t + y && |s| <= |t|
    ensures x == t[|s|..] + y
  {
    assert x == (s + x)[|s|..] && (t + y)[|s|..] == t[|s|..] + y;
  }

  lemma TokensAreReadable(s: Text, t: Text)
    requires NumberToken(s) && NumberToken(t)
    ensures Readable(s, t)
  {
    forall x: Text, y: Text | Delimited(x) && Delimited(y) && s + x == t + y ensures s == t && x == y {
      if |s| <= |t| {
        LongerTakesOver(s, x, t, y);
      } else {
        LongerTakesOver(t, y, s, x);
      }
      SameLengthSplits(s, x, t, y);
    }
  }

  /** What follows the first part of a joined, closed list. */
  function AfterFirst(parts: seq<Text>, close: Unit, x: Text): Text
    requires parts != []
  {
    if |parts| == 1 then [close] + x else [COMMA] + (Join(parts[1..]) + [close] + x)
  }

  lemma FirstOfJoin(parts: seq<Text>, close: Unit, x: Text)
    requires parts != []
    ensures Join(parts) + [close] + x == parts[0] + AfterFirst(parts, close, x)
  {
  }

  ghost predicate AllReadable(s: seq<Text>, t: seq<Text>) {
    && (forall i :: 0 <= i < |s| ==> Starts(s[i]))
    && (forall j :: 0 <= j < |t| ==> Starts(t[j]))
    && (forall i, j :: 0 <= i < |s| && 0 <= j < |t| ==> Readable(s[i], t[j]))
  }

  /** A closed list splits into its parts in one way. */
  lemma {:induction false} JoinReadsBack(s: seq<Text>, t: seq<Text>, close: Unit, x: Text, y: Text)
    requires AllReadable(s, t) && Closer(close)
    requires Join(s) + [close] + x == Join(t) + [close] + y
    ensures s == t && x == y
    decreases |s|
  {
    var left, right := Join(s) + [close] + x, Join(t) + [close] + y;
    if s == [] || t == [] {
      NoPartsEitherWay(s, t, close, x, y);
      SameLengthSplits([close], x, [close], y);
    } else {
      FirstOfJoin(s, close, x);
      FirstOfJoin(t, close, y);
      var a, b := AfterFirst(s, close, x), AfterFirst(t, close, y);
      assert Readable(s[0], t[0]) && s[0] + a == t[0] + b;
      assert a == b && s[0] == t[0];
      SameRest(s, t, close, x, y);
    }
  }

  lemma FirstUnit(parts: seq<Text>, close: Unit, x: Text)
    requires parts == [] || Starts(parts[0])
    ensures (Join(parts) + [close] + x)[0] == if parts == [] then close else parts[0][0]
  {
    if parts != [] {
      FirstOfJoin(parts, close, x);
    }
  }

  lemma NoPartsEitherWay(s: seq<Text>, t: seq<Text>, close: Unit, x: Text, y: Text)
    requires AllReadable(s, t) && Closer(close) && (s == [] || t == [])
    requires Join(s) + [close] + x == Join(t) + [close] + y
    ensures s == [] && t == [] && [close] + x == [close] + y
  {
    FirstUnit(s, close, x);
    FirstUnit(t, close, y);
    assert Join(s) + [close] + x == [close] + x;
    assert Join(t) + [close] + y == [close] + y;
  }

  lemma {:induction false} SameRest(s: seq<Text>, t: seq<Text>, close: Unit, x: Text, y: Text)
    requires s != [] && t != [] && AllReadable(s, t) && Closer(close)
    requires s[0] == t[0] && AfterFirst(s, close, x) == AfterFirst(t, close, y)
    ensures s == t && x == y
    decreases |s|, 0
  {
    var a, b := AfterFirst(s, close, x), AfterFirst(t, close, y);
    assert a[0] == b[0];
    if |s| == 1 {
      SameLengthSplits([close], x, [close], y);
      assert s == [s[0]] && t == [t[0]];
    } else {
      SameLengthSplits([COMMA], Join(s[1..]) + [close] + x, [COMMA], Join(t[1..]) + [close] + y);
      JoinReadsBack(s[1..], t[1..], close, x, y);
      assert s == [s[0]] + s[1..] && t == [t[0]] + t[1..];
    }
  }

  // ---- Sorting ----

  lemma {:induction false} LessIsAsymmetric(a: Text, b: Text)
    requires Less(a, b)
    ensures !Less(b, a) && a != b
  {
    if a != [] && a[0] == b[0] {
      LessIsAsymmetric(a[1..], b[1..]);
    }
  }

  lemma {:induction false} LessIsTransitive(a: Text, b: Text, c: Text)
    requires Less(a, b) && Less(b, c)
    ensures Less(a, c)
  {
    if a != [] && a[0] == b[0] && b[0] == c[0] {
      LessIsTransitive(a[1..], b[1..], c[1..]);
    }
  }

  lemma {:induction false} LessIsTotal(a: Text, b: Text)
    requires !Less(a, b) && !Less(b, a)
    ensures a == b
  {
    if a != [] && b != [] {
      LessIsTotal(a[1..], b[1..]);
      assert a == [a[0]] + a[1..] && b == [b[0]] + b[1..];
    }
  }

  ghost predicate StrictlySorted(entries: seq<Entry>) {
    forall i, j :: 0 <= i < j < |entries| ==> Less(entries[i].key, entries[j].key)
  }

  ghost predicate KeysDiffer(entries: seq<Entry>) {
    forall i, j :: 0 <= i < j < |entries| ==> entries[i].key != entries[j].key
  }

  lemma {:induction false} InsertKeeps(e: Entry, sorted: seq<Entry>)
    requires StrictlySorted(sorted) && forall x :: x in sorted ==> x.key != e.key
    ensures StrictlySorted(InsertEntry(e, sorted))
    ensures forall x :: x in InsertEntry(e, sorted) <==> x == e || x in sorted
    decreases |sorted|, 1
  {
    if sorted == [] {
    } else if Less(e.key, sorted[0].key) {
      forall j | 0 < j < |sorted| ensures Less(e.key, sorted[j].key) {
        LessIsTransitive(e.key, sorted[0].key, sorted[j].key);
      }
    } else {
      InsertBehind(e, sorted);
    }
  }

  lemma {:induction false} InsertBehind(e: Entry, sorted: seq<Entry>)
    requires sorted != [] && StrictlySorted(sorted) && !Less(e.key, sorted[0].key)
    requires forall x :: x in sorted ==> x.key != e.key
    ensures StrictlySorted(InsertEntry(e, sorted))
    ensures forall x :: x in InsertEntry(e, sorted) <==> x == e || x in sorted
    decreases |sorted|, 0
  {
    var first, rest := sorted[0], InsertEntry(e, sorted[1..]);
    assert sorted == [first] + sorted[1..];
    InsertKeeps(e, sorted[1..]);
    if !Less(first.key, e.key) {
      LessIsTotal(first.key, e.key);
    }
    forall j | 0 <= j < |rest| ensures Less(first.key, rest[j].key) {
      assert rest[j] in rest;
    }
  }

  lemma {:induction false} SortSorts(entries: seq<Entry>)
    requires KeysDiffer(entries)
    ensures StrictlySorted(SortEntries(entries))
    ensures forall x :: x in SortEntries(entries) <==> x in entries
  {
    if entries != [] {
      assert entries == [entries[0]] + entries[1..];
      SortSorts(entries[1..]);
      InsertKeeps(entries[0], SortEntries(entries[1..]));
    }
  }

  lemma FirstIsIn(s: seq<Entry>)
    ensures s != [] ==> s[0] in s
  {
  }

  lemma {:induction false} InsertKeepsLength(e: Entry, sorted: seq<Entry>)
    ensures |InsertEntry(e, sorted)| == |sorted| + 1
  {
    if sorted != [] {
      InsertKeepsLength(e, sorted[1..]);
    }
  }

  lemma {:induction false} SortKeepsLength(entries: seq<Entry>)
    ensures |SortEntries(entries)| == |entries|
  {
    if entries != [] {
      SortKeepsLength(entries[1..]);
      InsertKeepsLength(entries[0], SortEntries(entries[1..]));
    }
  }

  /** A strictly sorted list is determined by its elements. */
  lemma {:induction false} SortedIsUnique(s: seq<Entry>, t: seq<Entry>)
    requires StrictlySorted(s) && StrictlySorted(t)
    requires forall x :: x in s <==> x in t
    ensures s == t
  {
    if s == [] || t == [] {
      FirstIsIn(s);
      FirstIsIn(t);
    } else {
      SameLeast(s, t);
      assert forall x :: x in s[1..] ==> x in s && x.key != s[0].key by { LeastIsAlone(s); }
      assert forall x :: x in t[1..] ==> x in t && x.key != t[0].key by { LeastIsAlone(t); }
      assert s == [s[0]] + s[1..] && t == [t[0]] + t[1..];
      SortedIsUnique(s[1..], t[1..]);
    }
  }

  lemma LeastIsAlone(s: seq<Entry>)
    requires s != [] && StrictlySorted(s)
    ensures forall x :: x in s[1..] ==> Less(s[0].key, x.key) && x.key != s[0].key
  {
    forall x | x in s[1..] ensures Less(s[0].key, x.key) && x.key != s[0].key {
      LessIsAsymmetric(s[0].key, x.key);
    }
  }

  lemma SameLeast(s: seq<Entry>, t: seq<Entry>)
    requires s != [] && t != [] && StrictlySorted(s) && StrictlySorted(t)
    requires forall x :: x in s <==> x in t
    ensures s[0] == t[0]
  {
    assert s[0] in t && t[0] in s;
    var j :| 0 <= j < |t| && t[j] == s[0];
    var i :| 0 <= i < |s| && s[i] == t[0];
    if i > 0 {
      LessIsAsymmetric(s[0].key, s[i].key);
    }
  }

  // ---- Injectivity ----

  function Parts(items: seq<Json>): seq<Text> {
    seq(|items|, i requires 0 <= i < |items| => StableStringify(items[i]))
  }

  function EntriesOf(members: seq<Member>): seq<Entry> {
    seq(|members|, i requires 0 <= i < |members| => Entry(members[i].key, StableStringify(members[i].value)))
  }

  lemma PrintsAs(j: Json)
    ensures j.Arr? ==> StableStringify(j) == [OPEN_ARRAY] + Join(Parts(j.items)) + [CLOSE_ARRAY]
    ensures j.Obj? ==> StableStringify(j) == [OPEN_OBJECT] + Join(Texts(SortEntries(EntriesOf(j.members)))) + [CLOSE_OBJECT]
  {
    match j
    case Arr(items) =>
      assert Parts(items) == seq(|items|, i requires 0 <= i < |items| => StableStringify(items[i]));
    case Obj(members) =>
      assert EntriesOf(members) ==
        seq(|members|, i requires 0 <= i < |members| => Entry(members[i].key, StableStringify(members[i].value)));
    case _ =>
  }

  lemma PrintStarts(j: Json)
    requires Valid(j)
    ensures Starts(StableStringify(j))
  {
  }

  lemma DifferentStartsAreReadable(s: Text, t: Text)
    requires s != [] && t != [] && s[0] != t[0]
    ensures Readable(s, t)
  {
    assert forall x: Text :: (s + x)[0] == s[0];
    assert forall y: Text :: (t + y)[0] == t[0];
  }

  /** The first unit tells what kind of value follows. */
  lemma StartTells(a: Json, b: Json)
    requires Valid(a) && Valid(b)
    ensures StableStringify(a) != [] && StableStringify(b) != []
    ensures StableStringify(a)[0] == StableStringify(b)[0] ==>
      && (a.Arr? <==> b.Arr?) && (a.Obj? <==> b.Obj?) && (a.Str? <==> b.Str?) && (a.Num? <==> b.Num?)
      && (a.Null? || a.Overflow? || a.Bool? ==> StableStringify(a) == StableStringify(b) && (a.Bool? ==> a == b))
  {
  }

  lemma EqualTextsAreReadable(s: Text)
    ensures Readable(s, s)
  {
    forall x: Text, y: Text | s + x == s + y ensures x == y {
      SameLengthSplits(s, x, s, y);
    }
  }

  lemma StringsAreReadable(s: Text, t: Text)
    ensures Readable(Quote(s), Quote(t))
  {
    forall x: Text, y: Text | Quote(s) + x == Quote(t) + y ensures s == t && x == y {
      QuoteIsReadable(s, t, x, y);
    }
  }

  lemma ListsAreReadable(s: seq<Text>, t: seq<Text>, open: Unit, close: Unit)
    requires AllReadable(s, t) && Closer(close)
    ensures Readable([open] + Join(s) + [close], [open] + Join(t) + [close])
    ensures [open] + Join(s) + [close] == [open] + Join(t) + [close] ==> s == t
  {
    forall x: Text, y: Text | ([open] + Join(s) + [close]) + x == ([open] + Join(t) + [close]) + y ensures s == t && x == y {
      Opened(s, t, open, close, x, y);
      JoinReadsBack(s, t, close, x, y);
    }
    if [open] + Join(s) + [close] == [open] + Join(t) + [close] {
      assert ([open] + Join(s) + [close]) + [] == ([open] + Join(t) + [close]) + [];
    }
  }

  lemma Opened(s: seq<Text>, t: seq<Text>, open: Unit, close: Unit, x: Text, y: Text)
    requires ([open] + Join(s) + [close]) + x == ([open] + Join(t) + [close]) + y
    ensures Join(s) + [close] + x == Join(t) + [close] + y
  {
    assert ([open] + Join(s) + [close]) + x == [open] + (Join(s) + [close] + x);
    assert ([open] + Join(t) + [close]) + y == [open] + (Join(t) + [close] + y);
    SameLengthSplits([open], Join(s) + [close] + x, [open], Join(t) + [close] + y);
  }

  lemma MembersAreReadable(d: Entry, e: Entry)
    requires Readable(d.text, e.text)
    ensures Readable(MemberText(d), MemberText(e)) && Starts(MemberText(d)) && Starts(MemberText(e))
    ensures MemberText(d) == MemberText(e) ==> d == e
  {
    forall x: Text, y: Text | Delimited(x) && Delimited(y) && MemberText(d) + x == MemberText(e) + y ensures d == e && x == y {
      MemberSplits(d, x);
      MemberSplits(e, y);
      QuoteIsReadable(d.key, e.key, [COLON] + (d.text + x), [COLON] + (e.text + y));
      SameLengthSplits([COLON], d.text + x, [COLON], e.text + y);
    }
    if MemberText(d) == MemberText(e) {
      assert MemberText(d) + [] == MemberText(e) + [];
    }
  }

  lemma MemberSplits(e: Entry, x: Text)
    ensures MemberText(e) + x == Quote(e.key) + ([COLON] + (e.text + x))
  {
  }

  ghost predicate EntriesReadable(s: seq<Entry>, t: seq<Entry>) {
    forall d, e :: d in s && e in t ==> Readable(d.text, e.text)
  }

  lemma EntryListsAreReadable(s: seq<Entry>, t: seq<Entry>)
    requires EntriesReadable(s, t)
    ensures Readable([OPEN_OBJECT] + Join(Texts(s)) + [CLOSE_OBJECT], [OPEN_OBJECT] + Join(Texts(t)) + [CLOSE_OBJECT])
    ensures [OPEN_OBJECT] + Join(Texts(s)) + [CLOSE_OBJECT] == [OPEN_OBJECT] + Join(Texts(t)) + [CLOSE_OBJECT] ==> s == t
  {
    forall i, j | 0 <= i < |s| && 0 <= j < |t| ensures Readable(Texts(s)[i], Texts(t)[j]) && (Texts(s)[i] == Texts(t)[j] ==> s[i] == t[j]) {
      MembersAreReadable(s[i], t[j]);
    }
    assert forall i :: 0 <= i < |s| ==> Starts(Texts(s)[i]);
    assert forall j :: 0 <= j < |t| ==> Starts(Texts(t)[j]);
    ListsAreReadable(Texts(s), Texts(t), OPEN_OBJECT, CLOSE_OBJECT);
    if Texts(s) == Texts(t) {
      assert |s| == |t|;
      assert forall i :: 0 <= i < |s| ==> Texts(s)[i] == Texts(t)[i] && s[i] == t[i];
    }
  }

  /** Unique readability: a printed value followed by a delimiter can be read in one way only. */
  lemma {:induction false} ValuesAreReadable(a: Json, b: Json)
    requires Valid(a) && Valid(b)
    ensures Readable(StableStringify(a), StableStringify(b))
    decreases a
  {
    var s, t := StableStringify(a), StableStringify(b);
    StartTells(a, b);
    if s[0] != t[0] {
      DifferentStartsAreReadable(s, t);
    } else if a.Num? {
      TokensAreReadable(s, t);
    } else if a.Str? {
      StringsAreReadable(a.text, b.text);
    } else if a.Arr? {
      ItemsAreReadable(a, b);
      ListsAreReadable(Parts(a.items), Parts(b.items), OPEN_ARRAY, CLOSE_ARRAY);
      PrintsAs(a);
      PrintsAs(b);
    } else if a.Obj? {
      SortedAreReadable(a, b);
      EntryListsAreReadable(SortEntries(EntriesOf(a.members)), SortEntries(EntriesOf(b.members)));
      PrintsAs(a);
      PrintsAs(b);
    } else {
      EqualTextsAreReadable(s);
    }
  }

  lemma {:induction false} ItemsAreReadable(a: Json, b: Json)
    requires Valid(a) && Valid(b) && a.Arr? && b.Arr?
    ensures AllReadable(Parts(a.items), Parts(b.items))
    decreases a, 0
  {
    var s, t := Parts(a.items), Parts(b.items);
    forall i | 0 <= i < |s| ensures Starts(s[i]) {
      PrintStarts(a.items[i]);
    }
    forall j | 0 <= j < |t| ensures Starts(t[j]) {
      PrintStarts(b.items[j]);
    }
    forall i, j | 0 <= i < |s| && 0 <= j < |t| ensures Readable(s[i], t[j]) {
      ValuesAreReadable(a.items[i], b.items[j]);
    }
  }

  lemma EntryKeysDiffer(j: Json)
    requires Valid(j) && j.Obj?
    ensures KeysDiffer(EntriesOf(j.members))
  {
  }

  lemma {:induction false} SortedAreReadable(a: Json, b: Json)
    requires Valid(a) && Valid(b) && a.Obj? && b.Obj?
    ensures EntriesReadable(SortEntries(EntriesOf(a.members)), SortEntries(EntriesOf(b.members)))
    decreases a, 0
  {
    var s, t := EntriesOf(a.members), EntriesOf(b.members);
    EntryKeysDiffer(a);
    EntryKeysDiffer(b);
    SortSorts(s);
    SortSorts(t);
    forall d, e | d in s && e in t ensures Readable(d.text, e.text) {
      var i :| 0 <= i < |s| && s[i] == d;
      var j :| 0 <= j < |t| && t[j] == e;
      ValuesAreReadable(a.members[i].value, b.members[j].value);
    }
  }

  /** Equal fingerprints come from equal bodies. */
  lemma {:induction false} EqualTextsAreSame(a: Json, b: Json)
    requires Valid(a) && Valid(b) && StableStringify(a) == StableStringify(b)
    ensures Same(a, b)
    decreases a
  {
    StartTells(a, b);
    PrintsAs(a);
    PrintsAs(b);
    if a.Str? {
      assert Quote(a.text) + [] == Quote(b.text) + [];
      QuoteIsReadable(a.text, b.text, [], []);
    } else if a.Arr? {
      ItemsAreReadable(a, b);
      ListsAreReadable(Parts(a.items), Parts(b.items), OPEN_ARRAY, CLOSE_ARRAY);
      assert |Parts(a.items)| == |Parts(b.items)|;
      forall i | 0 <= i < |a.items| ensures Same(a.items[i], b.items[i]) {
        assert Parts(a.items)[i] == Parts(b.items)[i];
        EqualTextsAreSame(a.items[i], b.items[i]);
      }
    } else if a.Obj? {
      SortedAreReadable(a, b);
      EntryListsAreReadable(SortEntries(EntriesOf(a.members)), SortEntries(EntriesOf(b.members)));
      EqualEntriesAreSame(a, b);
    }
  }

  lemma {:induction false} EqualEntriesAreSame(a: Json, b: Json)
    requires Valid(a) && Valid(b) && a.Obj? && b.Obj?
    requires SortEntries(EntriesOf(a.members)) == SortEntries(EntriesOf(b.members))
    ensures Same(a, b)
    decreases a, 1
  {
    EntryKeysDiffer(a);
    EntryKeysDiffer(b);
    SortSorts(EntriesOf(a.members));
    SortSorts(EntriesOf(b.members));
    forall i | 0 <= i < |a.members| ensures exists j | 0 <= j < |b.members| :: SameMember(a.members[i], b.members[j]) {
      assert EntriesOf(a.members)[i] in EntriesOf(b.members);
      var j :| 0 <= j < |b.members| && EntriesOf(b.members)[j] == EntriesOf(a.members)[i];
      EqualEntryIsSame(a, b, i, j);
    }
    SortKeepsLength(EntriesOf(a.members));
    SortKeepsLength(EntriesOf(b.members));
  }

  lemma {:induction false} EqualEntryIsSame(a: Json, b: Json, i: nat, j: nat)
    requires Valid(a) && Valid(b) && a.Obj? && b.Obj? && i < |a.members| && j < |b.members|
    requires EntriesOf(a.members)[i] == EntriesOf(b.members)[j]
    ensures SameMember(a.members[i], b.members[j])
    decreases a, 0
  {
    EqualTextsAreSame(a.members[i].value, b.members[j].value);
  }

  /** Equal bodies have equal fingerprints, whatever order their members came in. */
  lemma {:induction false} SameTextsAreEqual(a: Json, b: Json)
    requires Valid(a) && Valid(b) && Same(a, b)
    ensures StableStringify(a) == StableStringify(b)
    decreases a
  {
    PrintsAs(a);
    PrintsAs(b);
    if a.Arr? {
      forall i | 0 <= i < |a.items| ensures Parts(a.items)[i] == Parts(b.items)[i] {
        SameTextsAreEqual(a.items[i], b.items[i]);
      }
      assert Parts(a.items) == Parts(b.items);
    } else if a.Obj? {
      SameEntries(a, b);
      var s, t := EntriesOf(a.members), EntriesOf(b.members);
      EntryKeysDiffer(a);
      EntryKeysDiffer(b);
      SortSorts(s);
      SortSorts(t);
      SortedIsUnique(SortEntries(s), SortEntries(t));
    }
  }

  lemma {:induction false} SameEntries(a: Json, b: Json)
    requires Valid(a) && Valid(b) && a.Obj? && b.Obj? && Same(a, b)
    ensures forall e :: e in EntriesOf(a.members) <==> e in EntriesOf(b.members)
    decreases a, 1
  {
    var s, t := EntriesOf(a.members), EntriesOf(b.members);
    forall i | 0 <= i < |s| ensures s[i] in t {
      var j :| 0 <= j < |b.members| && SameMember(a.members[i], b.members[j]);
      SameEntry(a, b, i, j);
      assert t[j] in t;
    }
    EntryKeysDiffer(a);
    IncludedMeansEqual(s, t);
  }

  function Elements(s: seq<Entry>): set<Entry> { set e | e in s }

  lemma ElementsUnfold(s: seq<Entry>)
    requires s != []
    ensures Elements(s) == Elements(s[1..]) + {s[0]}
    ensures KeysDiffer(s) ==> s[0] !in Elements(s[1..])
  {
    assert s == [s[0]] + s[1..];
  }

  lemma {:induction false} ElementsCount(s: seq<Entry>)
    ensures |Elements(s)| <= |s|
    ensures KeysDiffer(s) ==> |Elements(s)| == |s|
  {
    if s != [] {
      ElementsCount(s[1..]);
      ElementsUnfold(s);
    }
  }

  lemma IncludedMeansEqual(s: seq<Entry>, t: seq<Entry>)
    requires KeysDiffer(s) && |s| == |t| && forall i :: 0 <= i < |s| ==> s[i] in t
    ensures forall e :: e in s <==> e in t
  {
    ElementsCount(s);
    ElementsCount(t);
    SubsetCardinality(Elements(s), Elements(t));
    assert forall e :: e in s <==> e in Elements(s);
    assert forall e :: e in t <==> e in Elements(t);
  }

  lemma {:induction false} SameEntry(a: Json, b: Json, i: nat, j: nat)
    requires Valid(a) && Valid(b) && a.Obj? && b.Obj? && i < |a.members| && j < |b.members|
    requires SameMember(a.members[i], b.members[j])
    ensures EntriesOf(a.members)[i] == EntriesOf(b.members)[j]
    decreases a, 0
  {
    SameTextsAreEqual(a.members[i].value, b.members[j].value);
  }

  /** The fingerprint decides equality of bodies up to member order, for every pair of parsed bodies. */
  lemma FingerprintIff(a: Json, b: Json)
    requires Valid(a) && Valid(b)
    ensures StableStringify(a) == StableStringify(b) <==> Same(a, b)
  {
    if StableStringify(a) == StableStringify(b) {
      EqualTextsAreSame(a, b);
    }
    if Same(a, b) {
      SameTextsAreEqual(a, b);
    }
  }

  /** For finite numbers this is equality up to order; a literal that overflows is taken for null. */
  lemma OverflowReadsAsNull(key: Text)
    ensures StableStringify(Obj([Member(key, Overflow)])) == StableStringify(Obj([Member(key, Null)]))
  {
    var a, b := Obj([Member(key, Overflow)]), Obj([Member(key, Null)]);
    assert SameMember(a.members[0], b.members[0]);
    FingerprintIff(a, b);
  }
}
