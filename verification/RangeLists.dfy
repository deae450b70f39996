/** The text editors for AS numbers and bogon ranges: one entry a line, printed and parsed back.
    (internal/store/assets.go, ParseASNRanges and FormatASNRanges; internal/store/bogons.go,
    ParseBogonASNs and FormatBogonASNs) */
module RangeLists {
  import opened Options
  import opened Text

  const MAX_ASN := 4294967295

  // ----- decimal numbers

  function DigitOf(d: nat): char
    requires d < 10
  {
    '0' + d as char
  }

  function Decimal(n: nat): (s: string)
    ensures s != "" && forall c | c in s :: IsDigit(c)
  {
    if n < 10 then [DigitOf(n)] else Decimal(n / 10) + [DigitOf(n % 10)]
  }

  function Value(s: string): nat
    requires forall c | c in s :: IsDigit(c)
  {
    if s == "" then 0
    else
      var last := s[|s| - 1];
      assert last in s && IsDigit(last);
      10 * Value(s[..|s| - 1]) + (last as int - '0' as int)
  }

  /** The digits a text starts with. */
  function Digits(s: string): (d: string)
    ensures |d| <= |s| && d == s[..|d|] && forall c | c in d :: IsDigit(c)
  {
    if s != "" && IsDigit(s[0]) then [s[0]] + Digits(s[1..]) else ""
  }

  lemma {:induction false} DecimalValue(n: nat)
    ensures Value(Decimal(n)) == n
  {
    if n >= 10 {
      DecimalValue(n / 10);
      assert Decimal(n)[..|Decimal(n)| - 1] == Decimal(n / 10);
    }
  }

  lemma {:induction false} DigitsOf(d: string, rest: string)
    requires forall c | c in d :: IsDigit(c)
    requires rest != "" ==> !IsDigit(rest[0])
    ensures Digits(d + rest) == d
  {
    if d == "" {
      assert d + rest == rest;
    } else {
      assert (d + rest)[0] == d[0] && (d + rest)[1..] == d[1..] + rest;
      assert d[0] in d && forall c | c in d[1..] :: c in d;
      DigitsOf(d[1..], rest);
    }
  }

  function TenTo(k: nat): nat { if k == 0 then 1 else 10 * TenTo(k - 1) }

  lemma {:induction false} DecimalLength(n: nat, k: nat)
    requires k >= 1 && n < TenTo(k)
    ensures |Decimal(n)| <= k
  {
    assert TenTo(1) == 10 * TenTo(0);
    if n >= 10 {
      DecimalLength(n / 10, k - 1);
    }
  }

  lemma {:induction false} FitsTenDigits(n: nat)
    requires n <= MAX_ASN
    ensures |Decimal(n)| <= 10
  {
    assert TenTo(2) == 100 by { assert TenTo(1) == 10; }
    assert TenTo(4) == 10000 by { assert TenTo(3) == 1000; }
    assert TenTo(6) == 1000000 by { assert TenTo(5) == 100000; }
    assert TenTo(8) == 100000000 by { assert TenTo(7) == 10000000; }
    assert TenTo(10) == 10000000000 by { assert TenTo(9) == 1000000000; }
    DecimalLength(n, 10);
  }

  // ----- the pieces of a line

  /** One to ten digits: their value, and the text after them. */
  function ReadNumber(s: string): Option<(nat, string)> {
    var d := Digits(s);
    if d == "" || |d| > 10 then None else Some((Value(d), s[|d|..]))
  }

  /** An optional "- number" tail; `as` says whether the number may be written with its AS prefix. */
  datatype Tail = NoTail(rest: string) | Tail(high: nat, rest: string) | BadTail

  function ReadTail(s: string, withAS: bool): Tail {
    var b := SkipBlanks(s);
    if b == "" || b[0] != '-' then NoTail(s)
    else
      var c := SkipBlanks(b[1..]);
      match ReadNumber(if withAS then TrimPrefix(c, "AS") else c)
      case None => BadTail
      case Some((high, rest)) => Tail(high, rest)
  }

  /** The end of a line: nothing, or a comment. */
  function ReadComment(s: string): Option<string> {
    var b := SkipBlanks(s);
    if b == "" then Some("") else if b[0] == '#' then Some(TrimSpace(SkipBlanks(b[1..]))) else None
  }

  /** "AS" in either case; a long s folds to S as well. */
  function DropAS(s: string): string {
    if |s| >= 2 && s[0] in {'A', 'a'} && (s[1] in {'S', 's'} || s[1] as int == 0x17F) then s[2..] else s
  }

  datatype Problem = Malformed | NotANumber | Backwards | EmptyList

  datatype Read<+E> = Entry(entry: E) | Bad(problem: Problem)

  // ----- lines of a text

  /** The text up to and including its first line end. */
  function FirstLine(text: string): (line: string)
    ensures |line| <= |text| && line == text[..|line|] && (text != "" ==> line != "")
    ensures forall k | 0 <= k < |line| - 1 :: line[k] != '\n'
  {
    if text == "" then "" else if text[0] == '\n' then "\n" else [text[0]] + FirstLine(text[1..])
  }

  function Lines(text: string): seq<string>
    decreases |text|
  {
    if text == "" then [] else [FirstLine(text)] + Lines(text[|FirstLine(text)|..])
  }

  lemma {:induction false} FirstLineOf(line: string, rest: string)
    requires '\n' !in line
    ensures FirstLine(line + "\n" + rest) == line + "\n"
  {
    var text := line + "\n" + rest;
    if line != "" {
      assert text[0] == line[0] && text[1..] == line[1..] + "\n" + rest;
      FirstLineOf(line[1..], rest);
    }
  }

  /** How an editor reads one line; None when the line holds no entry. */
  type Reader<!E> = string -> Option<Read<E>>

  /** What a text holds: the entries in order, and the number and problem of every bad line. */
  function ReadAll<E>(reader: Reader<E>, lines: seq<string>): (seq<E>, seq<(nat, Problem)>) {
    if lines == [] then ([], [])
    else
      var n := |lines| - 1;
      var (entries, errors) := ReadAll(reader, lines[..n]);
      match reader(lines[n])
      case None => (entries, errors)
      case Some(Entry(e)) => (entries + [e], errors)
      case Some(Bad(p)) => (entries, errors + [(n + 1, p)])
  }

  function PrintAll<E>(list: seq<E>, printer: E -> string): string {
    if list == [] then "" else printer(list[0]) + "\n" + PrintAll(list[1..], printer)
  }

  lemma {:induction false} LinesOfPrinted<E>(list: seq<E>, printer: E -> string)
    requires forall k | 0 <= k < |list| :: '\n' !in printer(list[k])
    ensures |Lines(PrintAll(list, printer))| == |list|
    ensures forall k | 0 <= k < |list| :: Lines(PrintAll(list, printer))[k] == printer(list[k]) + "\n"
  {
    if list != [] {
      var rest := PrintAll(list[1..], printer);
      var text := printer(list[0]) + "\n" + rest;
      FirstLineOf(printer(list[0]), rest);
      assert text[|printer(list[0]) + "\n"|..] == rest;
      LinesOfPrinted(list[1..], printer);
      forall k | 0 <= k < |list|
        ensures Lines(text)[k] == printer(list[k]) + "\n"
      {
        if k > 0 { assert Lines(text)[k] == Lines(rest)[k - 1] && list[k] == list[1..][k - 1]; }
      }
    }
  }

  /** Reading what was printed, entry by entry. */
  lemma {:induction false} ReadPrinted<E>(reader: Reader<E>, lines: seq<string>, list: seq<E>)
    requires |lines| == |list| && forall k | 0 <= k < |list| :: reader(lines[k]) == Some(Entry(list[k]))
    ensures ReadAll(reader, lines) == (list, [])
  {
    if lines != [] {
      var n := |lines| - 1;
      ReadPrinted(reader, lines[..n], list[..n]);
      assert list == list[..n] + [list[n]];
    }
  }

  /** Every entry read comes from one of the lines. */
  lemma {:induction false} EntriesComeFromLines<E>(reader: Reader<E>, lines: seq<string>)
    ensures forall e | e in ReadAll(reader, lines).0 :: exists k | 0 <= k < |lines| :: reader(lines[k]) == Some(Entry(e))
  {
    if lines != [] {
      var n := |lines| - 1;
      EntriesComeFromLines(reader, lines[..n]);
      forall e | e in ReadAll(reader, lines).0
        ensures exists k | 0 <= k < |lines| :: reader(lines[k]) == Some(Entry(e))
      {
        if e in ReadAll(reader, lines[..n]).0 {
          var k :| 0 <= k < n && reader(lines[..n][k]) == Some(Entry(e));
          assert lines[k] == lines[..n][k];
        } else {
          assert reader(lines[n]) == Some(Entry(e));
        }
      }
    }
  }

  lemma {:induction false} LineEndsLast(text: string, k: nat)
    requires k < |Lines(text)|
    ensures forall i | 0 <= i < |Lines(text)[k]| - 1 :: Lines(text)[k][i] != '\n'
    decreases |text|
  {
    if k > 0 { LineEndsLast(text[|FirstLine(text)|..], k - 1); }
  }

  /** A trimmed line has no line end in it. */
  lemma {:induction false} TrimmedLine(raw: string)
    requires forall i | 0 <= i < |raw| - 1 :: raw[i] != '\n'
    ensures '\n' !in TrimSpace(raw)
  {
    var i, j := TrimIsStretch(raw);
    var t := TrimSpace(raw);
    forall p | 0 <= p < |t|
      ensures t[p] != '\n'
    {
      if p == |t| - 1 { TrimmedEnds(t); } else { assert t[p] == raw[i + p]; }
    }
  }

  // ----- AS number ranges

  datatype ASNRange = ASNRange(low: int, high: int, note: string)

  function PrintNote(note: string): string { if note == "" then "" else "  # " + note }

  /** %d of any integer. */
  function Signed(n: int): string { if n < 0 then "-" + Decimal(-n) else Decimal(n) }

  function PrintSpan(low: int, high: int): string {
    if low == high then Signed(low) else Signed(low) + "-" + Signed(high)
  }

  function PrintASN(a: ASNRange): string { PrintSpan(a.low, a.high) + PrintNote(a.note) }

  /** One number or range, wherever a prefix may come before it, up to the comment. */
  function ReadSpan(s: string, withAS: bool): Option<(nat, Option<nat>, string)> {
    match ReadNumber(s)
    case None => None
    case Some((low, rest)) =>
      match ReadTail(rest, withAS)
      case BadTail => None
      case NoTail(r) => Some((low, None, r))
      case Tail(high, r) => Some((low, Some(high), r))
  }

  function CheckSpan(low: nat, high: Option<nat>, min: nat): Option<Problem> {
    if low < min || low > MAX_ASN then Some(NotANumber)
    else if high.Some? && high.value > MAX_ASN then Some(NotANumber)
    else if high.Some? && low > high.value then Some(Backwards)
    else None
  }

  function MakeASN(low: nat, high: Option<nat>, comment: Option<string>): Read<ASNRange> {
    match comment
    case None => Bad(Malformed)
    case Some(note) =>
      match CheckSpan(low, high, 1)
      case Some(p) => Bad(p)
      case None => Entry(ASNRange(low, if high.Some? then high.value else low, note))
  }

  function ReadASN(line: string): Read<ASNRange> {
    match ReadSpan(DropAS(line), true)
    case None => Bad(Malformed)
    case Some((low, high, rest)) => MakeASN(low, high, ReadComment(rest))
  }

  /** A line of the AS-number editor: a trailing comma is forgiven, blanks and comments skipped. */
  function ASNLine(raw: string): Option<Read<ASNRange>> {
    var line := TrimSuffix(TrimSpace(raw), ",");
    if line == "" || line[0] == '#' then None else Some(ReadASN(line))
  }

  function ParseASNs(text: string): (seq<ASNRange>, seq<(nat, Problem)>) { ReadAll(ASNLine, Lines(text)) }

  function FormatASNs(list: seq<ASNRange>): string { PrintAll(list, PrintASN) }

  // ----- bogon ranges

  datatype Bogon = Bogon(low: int, high: int, isPrivate: bool, note: string)

  function PrintBogon(b: Bogon): string {
    PrintSpan(b.low, b.high) + (if b.isPrivate then " private" else "") + PrintNote(b.note)
  }

  /** An optional " private": whether it is there, and the text after it. */
  function ReadPrivate(s: string): (bool, string) {
    var b := SkipBlanks(s);
    if |b| < |s| && "private" <= b then (true, b[7..]) else (false, s)
  }

  function ReadBogon(line: string): Read<Bogon> {
    match ReadSpan(line, false)
    case None => Bad(Malformed)
    case Some((low, high, rest)) =>
      var (isPrivate, rest') := ReadPrivate(rest);
      match ReadComment(rest')
      case None => Bad(Malformed)
      case Some(note) =>
        match CheckSpan(low, high, 0)
        case Some(p) => Bad(p)
        case None => Entry(Bogon(low, if high.Some? then high.value else low, isPrivate, note))
  }

  function BogonLine(raw: string): Option<Read<Bogon>> {
    var line := TrimSpace(raw);
    if line == "" || line[0] == '#' then None else Some(ReadBogon(line))
  }

  /** The list may not be empty: every import policy that checks the path needs an entry. */
  function ParseBogons(text: string): (seq<Bogon>, seq<(nat, Problem)>) {
    var (list, errors) := ReadAll(BogonLine, Lines(text));
    if list == [] && errors == [] then (list, [(0, EmptyList)]) else (list, errors)
  }

  function FormatBogons(list: seq<Bogon>): string { PrintAll(list, PrintBogon) }

  // ----- the editors' loops

  /** Reads a text line by line, keeping entries and problems apart. */
  method ReadLines<E>(reader: Reader<E>, text: string) returns (out: seq<E>, errs: seq<(nat, Problem)>)
    ensures (out, errs) == ReadAll(reader, Lines(text))
  {
    out, errs := [], [];
    var lines := Lines(text);
    for n := 0 to |lines|
      invariant (out, errs) == ReadAll(reader, lines[..n])
    {
      assert lines[..n + 1][..n] == lines[..n];
      match reader(lines[n]) {
        case None =>
        case Some(Entry(e)) => out := out + [e];
        case Some(Bad(p)) => errs := errs + [(n + 1, p)];
      }
    }
    assert lines[..|lines|] == lines;
  }

  method ParseASNRanges(text: string) returns (out: seq<ASNRange>, errs: seq<(nat, Problem)>)
    ensures (out, errs) == ParseASNs(text)
  {
    out, errs := ReadLines(ASNLine, text);
  }

  method ParseBogonASNs(text: string) returns (out: seq<Bogon>, errs: seq<(nat, Problem)>)
    ensures (out, errs) == ParseBogons(text)
  {
    out, errs := ReadLines(BogonLine, text);
    if |out| == 0 && |errs| == 0 { errs := [(0, EmptyList)]; }
  }

  method FormatASNRanges(list: seq<ASNRange>) returns (text: string)
    ensures text == FormatASNs(list)
  {
    text := PrintLoop(list, PrintASN);
  }

  method FormatBogonASNs(list: seq<Bogon>) returns (text: string)
    ensures text == FormatBogons(list)
  {
    text := PrintLoop(list, PrintBogon);
  }

  method PrintLoop<E>(list: seq<E>, printer: E -> string) returns (text: string)
    ensures text == PrintAll(list, printer)
  {
    text := "";
    for k := 0 to |list|
      invariant text + PrintAll(list[k..], printer) == PrintAll(list, printer)
    {
      assert list[k..][1..] == list[k + 1..];
      PrintStep(text, printer(list[k]), PrintAll(list[k + 1..], printer));
      text := text + printer(list[k]) + "\n";
    }
    assert list[|list|..] == [] && text + "" == text;
  }

  lemma {:induction false} PrintStep(text: string, line: string, rest: string)
    ensures text + (line + "\n" + rest) == text + line + "\n" + rest
  {
  }
}
