/** Incremental HTTP framing: what is handled does not depend on how the stream was cut, and the parser agrees with it. */
module HttpFraming {
  import opened Common

  const CRLF: string := "\r\n"
  const BLANK_LINE: string := "\r\n\r\n"

  // ---- String primitives ----

  predicate At(s: string, p: string, i: nat) {
    i + |p| <= |s| && s[i..i + |p|] == p
  }

  function IndexFrom(s: string, p: string, i: nat): (k: Option<nat>)
    requires i <= |s|
    ensures k.Some? ==> i <= k.value && At(s, p, k.value) && forall j :: i <= j < k.value ==> !At(s, p, j)
    ensures k.None? ==> forall j :: i <= j ==> !At(s, p, j)
    decreases |s| - i
  {
    if i + |p| > |s| then None
    else if At(s, p, i) then Some(i)
    else if i == |s| then None
    else IndexFrom(s, p, i + 1)
  }

  function IndexOf(s: string, p: string): Option<nat> { IndexFrom(s, p, 0) }

  function Split(s: string, separator: string): (parts: seq<string>)
    requires separator != ""
    ensures parts != []
    decreases |s|
  {
    match IndexOf(s, separator)
    case None => [s]
    case Some(i) => [s[..i]] + Split(s[i + |separator|..], separator)
  }

  function Join(parts: seq<string>, separator: string): string {
    if parts == [] then "" else if |parts| == 1 then parts[0] else parts[0] + separator + Join(parts[1..], separator)
  }

  predicate Whitespace(c: char) {
    c == ' ' || '\t' <= c <= '\r' || c == '\U{00A0}'
  }

  function Trim(s: string): string
    decreases |s|
  {
    if s == "" then ""
    else if Whitespace(s[0]) then Trim(s[1..])
    else if Whitespace(s[|s| - 1]) then Trim(s[..|s| - 1])
    else s
  }

  /** Lower case of a latin1 character. */
  function Lower(c: char): char {
    if 'A' <= c <= 'Z' || ('\U{00C0}' <= c <= '\U{00DE}' && c != '\U{00D7}') then c + 32 as char else c
  }

  function ToLower(s: string): string {
    seq(|s|, i requires 0 <= i < |s| => Lower(s[i]))
  }

  // ---- Framing ----

  /** Number(...) where it is a whole number from 0 up; None for everything the scan turns into 0. */
  type ToNumber = string -> Option<nat>

  function KeyOf(line: string): Option<string> {
    match IndexOf(line, ":")
    case None => None
    case Some(colon) => Some(ToLower(Trim(line[..colon])))
  }

  function ValueOf(line: string): string
    requires KeyOf(line).Some?
  {
    Trim(line[IndexOf(line, ":").value + 1..])
  }

  predicate IsLength(line: string) { KeyOf(line) == Some("content-length") }

  /** Number(...) where it counts as a length, else 0. */
  function LengthOr0(value: string, toNumber: ToNumber): nat {
    match toNumber(value)
    case Some(n) => n
    case None => 0
  }

  function LengthIn(lines: seq<string>, toNumber: ToNumber): nat {
    if lines == [] then 0
    else if IsLength(lines[0]) then LengthOr0(ValueOf(lines[0]), toNumber)
    else LengthIn(lines[1..], toNumber)
  }

  function ContentLength(head: string, toNumber: ToNumber): nat {
    LengthIn(Split(head, CRLF)[1..], toNumber)
  }

  datatype Framing = Waiting | Complete(headerEnd: nat, total: nat)

  /** Where the first request of the buffer ends, once it is all there. */
  function Frame(buf: string, toNumber: ToNumber): Framing {
    match IndexOf(buf, BLANK_LINE)
    case None => Waiting
    case Some(headerEnd) =>
      var total := headerEnd + 4 + ContentLength(buf[..headerEnd], toNumber);
      if |buf| < total then Waiting else Complete(headerEnd, total)
  }

  datatype Connection = Connection(buf: string, done: bool, handled: seq<string>)

  function Receive(c: Connection, chunk: string, toNumber: ToNumber): Connection {
    if c.done then c
    else
      var buf := c.buf + chunk;
      match Frame(buf, toNumber)
      case Waiting => c.(buf := buf)
      case Complete(_, total) => Connection(buf, true, c.handled + [buf[..total]])
  }

  function ReceiveAll(chunks: seq<string>, toNumber: ToNumber): Connection {
    if chunks == [] then Connection("", false, [])
    else Receive(ReceiveAll(chunks[..|chunks| - 1], toNumber), chunks[|chunks| - 1], toNumber)
  }

  function Concat(chunks: seq<string>): string {
    if chunks == [] then "" else Concat(chunks[..|chunks| - 1]) + chunks[|chunks| - 1]
  }

  // ---- Chunking independence ----

  lemma AtInPrefix(s: string, p: string, i: nat, n: nat)
    requires n <= |s|
    ensures At(s[..n], p, i) <==> At(s, p, i) && i + |p| <= n
  {
    if i + |p| <= n {
      assert s[..n][i..i + |p|] == s[i..i + |p|];
    }
  }

  lemma FirstIsUnique(s: string, p: string, k: nat)
    requires At(s, p, k) && forall j :: 0 <= j < k ==> !At(s, p, j)
    ensures IndexOf(s, p) == Some(k)
  {
  }

  /** A prefix that still holds the first occurrence finds it at the same place. */
  lemma PrefixFinds(s: string, p: string, n: nat)
    requires n <= |s|
    ensures forall k: nat :: IndexOf(s[..n], p) == Some(k) <==> IndexOf(s, p) == Some(k) && k + |p| <= n
  {
    forall i: nat ensures At(s[..n], p, i) <==> At(s, p, i) && i + |p| <= n {
      AtInPrefix(s, p, i, n);
    }
    forall k: nat ensures IndexOf(s[..n], p) == Some(k) <==> IndexOf(s, p) == Some(k) && k + |p| <= n {
      if IndexOf(s[..n], p) == Some(k) {
        FirstIsUnique(s, p, k);
      }
      if IndexOf(s, p) == Some(k) && k + |p| <= n {
        FirstIsUnique(s[..n], p, k);
      }
    }
  }

  /** Once complete, a request is complete at the same byte whatever arrives after it. */
  lemma CompleteStays(buf: string, n: nat, toNumber: ToNumber)
    requires n <= |buf| && Frame(buf[..n], toNumber).Complete?
    ensures Frame(buf, toNumber) == Frame(buf[..n], toNumber)
  {
    PrefixFinds(buf, BLANK_LINE, n);
    var headerEnd := Frame(buf[..n], toNumber).headerEnd;
    assert IndexOf(buf, BLANK_LINE) == Some(headerEnd);
    assert buf[..n][..headerEnd] == buf[..headerEnd];
  }

  /** What the connection has handled depends on the bytes received only. */
  ghost predicate HandlesStream(c: Connection, stream: string, toNumber: ToNumber) {
    match Frame(stream, toNumber)
    case Waiting => c == Connection(stream, false, [])
    case Complete(_, total) => c.done && total <= |stream| && c.handled == [stream[..total]]
  }

  lemma {:induction false} StreamDecides(chunks: seq<string>, toNumber: ToNumber)
    ensures HandlesStream(ReceiveAll(chunks, toNumber), Concat(chunks), toNumber)
    decreases |chunks|
  {
    if chunks != [] {
      var init, chunk := chunks[..|chunks| - 1], chunks[|chunks| - 1];
      StreamDecides(init, toNumber);
      var before, stream := Concat(init), Concat(chunks);
      assert stream[..|before|] == before;
      if Frame(before, toNumber).Complete? {
        CompleteStays(stream, |before|, toNumber);
        var total := Frame(before, toNumber).total;
        assert stream[..total] == before[..total];
      }
    }
  }

  /** Two ways of cutting the same bytes lead to the same single request, or to none. */
  lemma ChunkingIndependent(chunks: seq<string>, others: seq<string>, toNumber: ToNumber)
    requires Concat(chunks) == Concat(others)
    ensures ReceiveAll(chunks, toNumber).handled == ReceiveAll(others, toNumber).handled
    ensures ReceiveAll(chunks, toNumber).done == ReceiveAll(others, toNumber).done
    ensures |ReceiveAll(chunks, toNumber).handled| <= 1
  {
    StreamDecides(chunks, toNumber);
    StreamDecides(others, toNumber);
  }

  // ---- Parsing ----

  datatype Request = Request(verb: string, path: string, version: string, headers: map<string, string>, body: string)

  datatype Parsed = Parsed(request: Request) | EmptyRequestLine | InvalidRequestLine

  function HeaderMap(lines: seq<string>): map<string, string> {
    if lines == [] then map[]
    else
      var before, line := HeaderMap(lines[..|lines| - 1]), lines[|lines| - 1];
      match KeyOf(line)
      case None => before
      case Some(key) => before[key := ValueOf(line)]
  }

  function Parse(raw: string): Parsed {
    var parts := Split(raw, BLANK_LINE);
    var lines := Split(parts[0], CRLF);
    var fields := Split(lines[0], " ");
    if lines[0] == "" then EmptyRequestLine
    else if |fields| < 3 || fields[0] == "" || fields[1] == "" || fields[2] == "" then InvalidRequestLine
    else Parsed(Request(fields[0], fields[1], fields[2], HeaderMap(lines[1..]), Join(parts[1..], BLANK_LINE)))
  }

  /** split and join undo each other. */
  lemma {:induction false} JoinUndoesSplit(s: string, separator: string)
    requires separator != ""
    ensures Join(Split(s, separator), separator) == s
    decreases |s|
  {
    match IndexOf(s, separator)
    case None =>
    case Some(i) =>
      var rest := s[i + |separator|..];
      JoinUndoesSplit(rest, separator);
      assert Split(s, separator)[1..] == Split(rest, separator);
      assert s[..i] + separator + rest == s;
  }

  /**
   * The parser cuts a framed request where the framing did: its header block is the one the length was read from,
   * and its body is the rest, of exactly the framed length, even when it contains a blank line itself.
   */
  lemma ParserAgreesWithFraming(stream: string, toNumber: ToNumber)
    requires Frame(stream, toNumber).Complete?
    ensures var Complete(headerEnd, total) := Frame(stream, toNumber);
            && headerEnd + 4 <= total <= |stream|
            && var parts := Split(stream[..total], BLANK_LINE);
               && parts[0] == stream[..headerEnd]
               && Join(parts[1..], BLANK_LINE) == stream[headerEnd + 4..total]
               && |Join(parts[1..], BLANK_LINE)| == ContentLength(parts[0], toNumber)
  {
    var Complete(headerEnd, total) := Frame(stream, toNumber);
    var raw := stream[..total];
    PrefixFinds(stream, BLANK_LINE, total);
    assert IndexOf(raw, BLANK_LINE) == Some(headerEnd);
    var body := raw[headerEnd + 4..];
    JoinUndoesSplit(body, BLANK_LINE);
    assert Split(raw, BLANK_LINE) == [raw[..headerEnd]] + Split(body, BLANK_LINE);
    assert Split(raw, BLANK_LINE)[1..] == Split(body, BLANK_LINE);
    assert raw[..headerEnd] == stream[..headerEnd] && body == stream[headerEnd + 4..total];
  }

  function LastIndex(lines: seq<string>, key: string): (last: Option<nat>)
    ensures last.Some? ==> last.value < |lines| && KeyOf(lines[last.value]) == Some(key)
    ensures last.Some? ==> forall j :: last.value < j < |lines| ==> KeyOf(lines[j]) != Some(key)
    ensures last.None? ==> forall j :: 0 <= j < |lines| ==> KeyOf(lines[j]) != Some(key)
  {
    if lines == [] then None
    else if KeyOf(lines[|lines| - 1]) == Some(key) then Some(|lines| - 1)
    else LastIndex(lines[..|lines| - 1], key)
  }

  /** A header is there exactly when some line has its key, and its value is that of the last such line. */
  lemma {:induction false} LastLineWins(lines: seq<string>, key: string)
    ensures key in HeaderMap(lines) <==> LastIndex(lines, key).Some?
    ensures key in HeaderMap(lines) ==> HeaderMap(lines)[key] == ValueOf(lines[LastIndex(lines, key).value])
    decreases |lines|
  {
    if lines != [] {
      LastLineWins(lines[..|lines| - 1], key);
    }
  }

  function FirstIndex(lines: seq<string>, key: string): (first: Option<nat>)
    ensures first.Some? ==> first.value < |lines| && KeyOf(lines[first.value]) == Some(key)
    ensures first.Some? ==> forall j :: 0 <= j < first.value ==> KeyOf(lines[j]) != Some(key)
    ensures first.None? ==> forall j :: 0 <= j < |lines| ==> KeyOf(lines[j]) != Some(key)
  {
    if lines == [] then None
    else if KeyOf(lines[0]) == Some(key) then Some(0)
    else
      match FirstIndex(lines[1..], key)
      case None => None
      case Some(k) => Some(k + 1)
  }

  /** The body is framed by the first Content-Length line, and without one there is no body. */
  lemma {:induction false} FirstLengthCounts(lines: seq<string>, toNumber: ToNumber)
    ensures var first := FirstIndex(lines, "content-length");
            LengthIn(lines, toNumber) == if first.Some? then LengthOr0(ValueOf(lines[first.value]), toNumber) else 0
  {
    if lines != [] && !IsLength(lines[0]) {
      FirstLengthCounts(lines[1..], toNumber);
    }
  }

  function ReportedLength(lines: seq<string>, toNumber: ToNumber): nat {
    var headers := HeaderMap(lines);
    if "content-length" in headers then LengthOr0(headers["content-length"], toNumber) else 0
  }

  /**
   * The parser reports the length the body was framed with if and only if there is no Content-Length line, or the
   * first and the last one give the same number.
   */
  lemma ReportedLengthIsFramedIff(lines: seq<string>, toNumber: ToNumber)
    ensures var first, last := FirstIndex(lines, "content-length"), LastIndex(lines, "content-length");
            && (first.Some? <==> last.Some?)
            && (ReportedLength(lines, toNumber) == LengthIn(lines, toNumber) <==>
                  first.None? || LengthOr0(ValueOf(lines[first.value]), toNumber) == LengthOr0(ValueOf(lines[last.value]), toNumber))
  {
    LastLineWins(lines, "content-length");
    FirstLengthCounts(lines, toNumber);
  }

  lemma PlainLengthLine(value: string)
    requires value != "" && !Whitespace(value[0]) && !Whitespace(value[|value| - 1])
    ensures KeyOf("content-length:" + value) == Some("content-length") && ValueOf("content-length:" + value) == value
  {
    var line := "content-length:" + value;
    assert line[14..15] == ":";
    forall j | 0 <= j < 14 ensures !At(line, ":", j) {
      assert line[j..j + 1][0] == line[j] != ':';
    }
    FirstIsUnique(line, ":", 14);
    assert line[..14] == "content-length" && line[15..] == value;
    assert ToLower("content-length") == "content-length";
  }

  /** Two Content-Length lines with different numbers: the body has the first length, the headers say the second. */
  lemma TwoLengthsDisagree(toNumber: ToNumber)
    requires toNumber("5") == Some(5) && toNumber("7") == Some(7)
    ensures LengthIn(["content-length:5", "content-length:7"], toNumber) == 5
    ensures ReportedLength(["content-length:5", "content-length:7"], toNumber) == 7
  {
    var lines := ["content-length:5", "content-length:7"];
    PlainLengthLine("5");
    PlainLengthLine("7");
    assert lines[0] == "content-length:" + "5" && lines[1] == "content-length:" + "7";
    FirstLengthCounts(lines, toNumber);
    LastLineWins(lines, "content-length");
  }

  lemma {:induction false} BlankHasNoColon(line: string)
    requires Trim(line) == ""
    ensures IndexOf(line, ":").None?
    decreases |line|
  {
    BlankIsWhitespace(line);
    ColonIsThere(line);
  }

  lemma ColonIsThere(line: string)
    ensures IndexOf(line, ":").Some? ==> IndexOf(line, ":").value < |line| && line[IndexOf(line, ":").value] == ':'
  {
    var colon := IndexOf(line, ":");
    if colon.Some? {
      assert line[colon.value..colon.value + 1][0] == line[colon.value];
    }
  }

  lemma {:induction false} BlankIsWhitespace(line: string)
    requires Trim(line) == ""
    ensures forall k :: 0 <= k < |line| ==> Whitespace(line[k])
    decreases |line|
  {
    if line != "" {
      if Whitespace(line[0]) {
        BlankIsWhitespace(line[1..]);
        assert line == [line[0]] + line[1..];
      } else {
        BlankIsWhitespace(line[..|line| - 1]);
      }
    }
  }

  // ---- What trimming, lower case and splitting come to ----

  /** What is left starts and ends with something else, and only whitespace was cut off on either side. */
  lemma {:induction false} TrimSays(s: string) returns (i: nat, j: nat)
    ensures i <= j <= |s| && Trim(s) == s[i..j]
    ensures forall k :: 0 <= k < i || j <= k < |s| ==> Whitespace(s[k])
    ensures i < j ==> !Whitespace(s[i]) && !Whitespace(s[j - 1])
    decreases |s|
  {
    i, j := 0, |s|;
    if s != "" && Whitespace(s[0]) {
      var left, right := TrimSays(s[1..]);
      i, j := left + 1, right + 1;
      assert forall k :: 1 <= k < |s| ==> s[k] == s[1..][k - 1];
      assert s[i..j] == s[1..][left..right];
    } else if s != "" && Whitespace(s[|s| - 1]) {
      i, j := TrimSays(s[..|s| - 1]);
      assert forall k :: 0 <= k < |s| - 1 ==> s[k] == s[..|s| - 1][k];
      assert s[i..j] == s[..|s| - 1][i..j];
    }
  }

  /** `name` spells the lower-case `word`, in whatever mixture of cases. */
  predicate Spells(name: string, word: string) {
    |name| == |word| && forall k :: 0 <= k < |name| ==> SpellsAt(name[k], word[k])
  }

  predicate SpellsAt(c: char, lower: char) {
    c == lower || ('a' <= lower <= 'z' && c as int == lower as int - 32)
  }

  /** A line counts as Content-Length exactly when what stands before its first colon, trimmed, spells that name. */
  lemma IsLengthIff(line: string)
    ensures IsLength(line) <==>
      exists colon: nat :: colon < |line| && line[colon] == ':' && ':' !in line[..colon] && Spells(Trim(line[..colon]), "content-length")
  {
    ColonIsThere(line);
    var word := "content-length";
    forall colon: nat | colon < |line| && line[colon] == ':' && ':' !in line[..colon] ensures IndexOf(line, ":") == Some(colon) {
      FirstColon(line, colon);
    }
    var found := IndexOf(line, ":");
    if found.Some? {
      var colon, name := found.value, Trim(line[..found.value]);
      NoColonBefore(line, colon);
      LowersTo(name, word);
    }
  }

  lemma FirstColon(line: string, colon: nat)
    requires colon < |line| && line[colon] == ':' && ':' !in line[..colon]
    ensures IndexOf(line, ":") == Some(colon)
  {
    assert line[colon..colon + 1] == ":";
    forall j | 0 <= j < colon ensures !At(line, ":", j) {
      assert line[j..j + 1][0] == line[j] == line[..colon][j];
    }
    FirstIsUnique(line, ":", colon);
  }

  lemma NoColonBefore(line: string, colon: nat)
    requires IndexOf(line, ":") == Some(colon)
    ensures colon < |line| && line[colon] == ':' && ':' !in line[..colon]
  {
    ColonIsThere(line);
    forall j | 0 <= j < colon ensures line[j] != ':' {
      assert !At(line, ":", j);
      assert line[j..j + 1] == [line[j]];
    }
  }

  lemma LowersTo(name: string, word: string)
    requires forall k :: 0 <= k < |word| ==> 'a' <= word[k] <= 'z' || word[k] == '-'
    ensures ToLower(name) == word <==> Spells(name, word)
  {
    forall k | 0 <= k < |name| && k < |word| ensures Lower(name[k]) == word[k] <==> SpellsAt(name[k], word[k]) {
    }
  }

  /** No piece of a split holds the separator. */
  lemma {:induction false} PiecesAreFree(s: string, separator: string, n: nat)
    requires separator != "" && n < |Split(s, separator)|
    ensures IndexOf(Split(s, separator)[n], separator).None?
    decreases |s|
  {
    match IndexOf(s, separator)
    case None =>
    case Some(i) =>
      var rest := s[i + |separator|..];
      assert Split(s, separator) == [s[..i]] + Split(rest, separator);
      if n == 0 {
        PrefixFinds(s, separator, i);
      } else {
        PiecesAreFree(rest, separator, n - 1);
      }
  }

  // ---- What is parsed ----

  /** Everything before the first CRLF. */
  function FirstLine(raw: string): string {
    match IndexOf(raw, CRLF)
    case None => raw
    case Some(i) => raw[..i]
  }

  /** Everything after the first blank line; nothing if there is none. */
  function AfterBlankLine(raw: string): string {
    match IndexOf(raw, BLANK_LINE)
    case None => ""
    case Some(k) => raw[k + 4..]
  }

  /** Everything before the first blank line. */
  function Head(raw: string): string {
    match IndexOf(raw, BLANK_LINE)
    case None => raw
    case Some(k) => raw[..k]
  }

  /** The line is verb, path and version with one space between, and perhaps more behind another space. */
  ghost predicate LineSays(line: string, verb: string, path: string, version: string) {
    && verb != "" && path != "" && version != "" && ' ' !in verb && ' ' !in path && ' ' !in version
    && exists rest :: (rest == "" || rest[0] == ' ') && line == verb + " " + (path + " " + (version + rest))
  }

  lemma SpaceCuts(field: string, rest: string)
    requires ' ' !in field
    ensures Split(field + " " + rest, " ") == [field] + Split(rest, " ")
    ensures Split(field, " ") == [field]
  {
    var line := field + " " + rest;
    assert line[|field|..|field| + 1] == " ";
    forall j | 0 <= j < |field| ensures !At(line, " ", j) && !At(field, " ", j) {
      assert line[j..j + 1] == [field[j]] && field[j..j + 1] == [field[j]];
    }
    FirstIsUnique(line, " ", |field|);
    assert line[..|field|] == field && line[|field| + 1..] == rest;
  }

  /** The first field of a line, and what follows it. */
  lemma FirstField(line: string) returns (rest: string)
    ensures ' ' !in Split(line, " ")[0] && line == Split(line, " ")[0] + rest && (rest == "" || rest[0] == ' ')
    ensures |Split(line, " ")| >= 2 ==> rest != "" && Split(line, " ") == [Split(line, " ")[0]] + Split(rest[1..], " ")
  {
    var found := IndexOf(line, " ");
    var end := if found.Some? then found.value else |line|;
    forall j | 0 <= j < end ensures line[j] != ' ' {
      assert !At(line, " ", j) && line[j..j + 1] == [line[j]];
    }
    rest := line[end..];
    if found.Some? {
      assert line[end..end + 1] == " ";
      assert rest[1..] == line[end + 1..];
    }
  }

  lemma ThreeFieldsRead(verb: string, path: string, version: string, rest: string)
    requires ' ' !in verb && ' ' !in path && ' ' !in version && (rest == "" || rest[0] == ' ')
    ensures var fields := Split(verb + " " + (path + " " + (version + rest)), " ");
            |fields| >= 3 && fields[0] == verb && fields[1] == path && fields[2] == version
  {
    var third := version + rest;
    if rest != "" {
      assert third == version + " " + rest[1..];
      SpaceCuts(version, rest[1..]);
    } else {
      assert third == version;
      SpaceCuts(version, "");
    }
    assert Split(third, " ")[0] == version;
    SpaceCuts(path, third);
    SpaceCuts(verb, path + " " + third);
  }

  lemma ThreeFieldsSay(line: string)
    requires |Split(line, " ")| >= 3
    requires forall k :: 0 <= k < 3 ==> Split(line, " ")[k] != ""
    ensures var fields := Split(line, " "); LineSays(line, fields[0], fields[1], fields[2])
  {
    var rest := ThreeFieldsAre(line);
  }

  lemma AfterField(line: string) returns (tail: string)
    requires |Split(line, " ")| >= 2
    ensures ' ' !in Split(line, " ")[0] && line == Split(line, " ")[0] + " " + tail
    ensures Split(line, " ") == [Split(line, " ")[0]] + Split(tail, " ")
  {
    var rest := FirstField(line);
    tail := rest[1..];
    assert rest == " " + tail;
  }

  lemma ThreeFieldsAre(line: string) returns (rest: string)
    requires |Split(line, " ")| >= 3
    ensures var fields := Split(line, " ");
            && ' ' !in fields[0] && ' ' !in fields[1] && ' ' !in fields[2] && (rest == "" || rest[0] == ' ')
            && line == fields[0] + " " + (fields[1] + " " + (fields[2] + rest))
  {
    var second := AfterField(line);
    assert Split(line, " ")[1] == Split(second, " ")[0] && Split(line, " ")[2] == Split(second, " ")[1];
    var third := AfterField(second);
    assert Split(second, " ")[1] == Split(third, " ")[0];
    rest := FirstField(third);
  }

  /** The request line ends at the first CRLF of the whole request, whether or not a blank line follows. */
  lemma FirstLineIsFirst(raw: string)
    ensures Split(Head(raw), CRLF)[0] == FirstLine(raw)
  {
    var blank := IndexOf(raw, BLANK_LINE);
    if blank.Some? {
      var k := blank.value;
      assert raw[k..k + 4] == BLANK_LINE && BLANK_LINE[..2] == CRLF;
      assert raw[k..k + 2] == raw[k..k + 4][..2];
      assert At(raw, CRLF, k);
      PrefixFinds(raw, CRLF, k);
      var i := IndexOf(raw, CRLF).value;
      assert raw[i..i + 2][1] == raw[i + 1] && raw[k..k + 2][0] == raw[k];
      assert i + 1 != k;
    }
  }

  /**
   * A text parses as a request exactly when its first line says verb, path and version; then the body is everything
   * after the first blank line, and the headers are those of the lines in between.
   */
  lemma ParsedIff(raw: string, r: Request)
    ensures Parse(raw) == Parsed(r) <==>
      (LineSays(FirstLine(raw), r.verb, r.path, r.version)
       && r.body == AfterBlankLine(raw) && r.headers == HeaderMap(Split(Head(raw), CRLF)[1..]))
  {
    HeadAndBody(raw);
    FirstLineIsFirst(raw);
    if Parse(raw).Parsed? {
      ThreeFieldsSay(FirstLine(raw));
    }
    if LineSays(FirstLine(raw), r.verb, r.path, r.version) {
      var rest :| (rest == "" || rest[0] == ' ') && FirstLine(raw) == r.verb + " " + (r.path + " " + (r.version + rest));
      ThreeFieldsRead(r.verb, r.path, r.version, rest);
    }
  }

  lemma HeadAndBody(raw: string)
    ensures Split(raw, BLANK_LINE)[0] == Head(raw) && Join(Split(raw, BLANK_LINE)[1..], BLANK_LINE) == AfterBlankLine(raw)
  {
    var blank := IndexOf(raw, BLANK_LINE);
    if blank.Some? {
      var body := raw[blank.value + 4..];
      JoinUndoesSplit(body, BLANK_LINE);
      assert Split(raw, BLANK_LINE)[1..] == Split(body, BLANK_LINE);
    }
  }

  /** The request line is missing exactly when there is no text, or it starts with a line end. */
  lemma EmptyIff(raw: string)
    ensures Parse(raw) == EmptyRequestLine <==> raw == "" || CRLF <= raw
  {
    HeadAndBody(raw);
    FirstLineIsFirst(raw);
    if CRLF <= raw {
      FirstIsUnique(raw, CRLF, 0);
    }
  }

  /** The request is there exactly when a first blank line is, and as many bytes behind it as the header block says. */
  lemma FramedIff(buf: string, toNumber: ToNumber, headerEnd: nat, total: nat)
    ensures Frame(buf, toNumber) == Complete(headerEnd, total) <==>
      (At(buf, "\r\n\r\n", headerEnd) && (forall j :: 0 <= j < headerEnd ==> !At(buf, "\r\n\r\n", j))
       && total == headerEnd + 4 + LengthIn(Split(buf[..headerEnd], "\r\n")[1..], toNumber) && total <= |buf|)
  {
    if At(buf, BLANK_LINE, headerEnd) && forall j :: 0 <= j < headerEnd ==> !At(buf, BLANK_LINE, j) {
      FirstIsUnique(buf, BLANK_LINE, headerEnd);
    }
  }

  // ---- The methods ----

  method GetContentLength(head: string, toNumber: ToNumber) returns (length: nat)
    ensures length == ContentLength(head, toNumber)
  {
    var lines := Split(head, CRLF)[1..];
    for i := 0 to |lines|
      invariant ContentLength(head, toNumber) == LengthIn(lines[i..], toNumber)
    {
      var colon := IndexOf(lines[i], ":");
      if colon.None? {
        continue;
      }
      var key := ToLower(Trim(lines[i][..colon.value]));
      if key != "content-length" {
        continue;
      }
      match toNumber(Trim(lines[i][colon.value + 1..])) {
        case Some(n) => return n;
        case None => return 0;
      }
    }
    return 0;
  }

  method ParseHttpRequest(raw: string) returns (parsed: Parsed)
    ensures parsed == Parse(raw)
  {
    var parts := Split(raw, BLANK_LINE);
    var body := Join(parts[1..], BLANK_LINE);
    var lines := Split(parts[0], CRLF);
    var requestLine := lines[0];
    if requestLine == "" {
      return EmptyRequestLine;
    }
    var fields := Split(requestLine, " ");
    if |fields| < 3 || fields[0] == "" || fields[1] == "" || fields[2] == "" {
      return InvalidRequestLine;
    }
    var headers := ParseHeaders(lines[1..]);
    return Parsed(Request(fields[0], fields[1], fields[2], headers, body));
  }

  method ParseHeaders(lines: seq<string>) returns (headers: map<string, string>)
    ensures headers == HeaderMap(lines)
  {
    headers := map[];
    for i := 0 to |lines|
      invariant headers == HeaderMap(lines[..i])
    {
      assert lines[..i + 1][..i] == lines[..i];
      if Trim(lines[i]) == "" {
        BlankHasNoColon(lines[i]);
        continue;
      }
      var colon := IndexOf(lines[i], ":");
      if colon.Some? {
        var key := ToLower(Trim(lines[i][..colon.value]));
        headers := headers[key := Trim(lines[i][colon.value + 1..])];
      }
    }
    assert lines[..|lines|] == lines;
  }

  class RequestHandler {
    var buf: string
    var done: bool
    var handled: seq<string>

    ghost function View(): Connection
      reads this
    {
      Connection(buf, done, handled)
    }

    constructor ()
      ensures View() == ReceiveAll([], _ => None)
    {
      buf := "";
      done := false;
      handled := [];
    }

    /** One data event; the parse of the request it completes, if it completes one. */
    method OnData(chunk: string, toNumber: ToNumber) returns (answered: Option<Parsed>)
      modifies this
      ensures View() == Receive(old(View()), chunk, toNumber)
      ensures answered.Some? <==> done && !old(done)
      ensures answered.Some? ==> handled != [] && answered.value == Parse(handled[|handled| - 1])
    {
      if done {
        return None;
      }
      buf := buf + chunk;
      var headerEnd := IndexOf(buf, BLANK_LINE);
      if headerEnd.None? {
        return None;
      }
      var contentLength := GetContentLength(buf[..headerEnd.value], toNumber);
      var totalNeeded := headerEnd.value + 4 + contentLength;
      if |buf| < totalNeeded {
        return None;
      }
      assert Frame(buf, toNumber) == Complete(headerEnd.value, totalNeeded);
      done := true;
      var rawRequest := buf[..totalNeeded];
      handled := handled + [rawRequest];
      var parsed := ParseHttpRequest(rawRequest);
      return Some(parsed);
    }
  }
}
