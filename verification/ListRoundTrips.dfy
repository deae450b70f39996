/** Which lists survive printing and parsing: exactly when, for every list. */
module ListRoundTrips {
  import opened Options
  import opened Text
  import opened RangeLists

  /** A note on one line, without space around it. */
  predicate PlainNote(note: string) { '\n' !in note && TrimSpace(note) == note }

  predicate SpanIn(low: int, high: int, min: nat) { min <= low <= high <= MAX_ASN }

  predicate CleanASN(a: ASNRange) { SpanIn(a.low, a.high, 1) && PlainNote(a.note) }

  predicate CleanBogon(b: Bogon) { SpanIn(b.low, b.high, 0) && PlainNote(b.note) }

  predicate EndsInComma(note: string) { note != "" && note[|note| - 1] == ',' }

  // ----- reading back the pieces

  lemma {:induction false} BlanksAreSpaces(c: char)
    ensures Blank(c) ==> IsSpace(c)
    ensures IsDigit(c) ==> !IsSpace(c)
  {
  }

  lemma {:induction false} ReadsNumber(n: nat, rest: string)
    requires n <= MAX_ASN && (rest != "" ==> !IsDigit(rest[0]))
    ensures ReadNumber(Decimal(n) + rest) == Some((n, rest))
  {
    DigitsOf(Decimal(n), rest);
    FitsTenDigits(n);
    DecimalValue(n);
    assert (Decimal(n) + rest)[|Decimal(n)|..] == rest;
  }

  lemma {:induction false} NumberStarts(n: nat, rest: string)
    ensures IsDigit((Decimal(n) + rest)[0]) && IsDigit(Decimal(n)[|Decimal(n)| - 1])
  {
    assert Decimal(n)[0] in Decimal(n) && Decimal(n)[|Decimal(n)| - 1] in Decimal(n);
  }

  /** The rest of a printed line after its numbers: it starts with a space, if there is any. */
  predicate AfterSpan(rest: string) { rest == "" || (rest[0] == ' ' && SkipBlanks(rest) != "" && SkipBlanks(rest)[0] != '-') }

  lemma {:induction false} ReadsSpan(low: nat, high: nat, rest: string, withAS: bool)
    requires low <= MAX_ASN && high <= MAX_ASN && AfterSpan(rest)
    ensures ReadSpan(PrintSpan(low, high) + rest, withAS) == Some((low, if low == high then None else Some(high), rest))
  {
    if low == high {
      ReadsNumber(low, rest);
      assert ReadTail(rest, withAS) == NoTail(rest);
    } else {
      var tail := "-" + Decimal(high) + rest;
      assert PrintSpan(low, high) + rest == Decimal(low) + tail;
      ReadsNumber(low, tail);
      ReadsTail(high, rest, withAS);
    }
  }

  lemma {:induction false} ReadsTail(high: nat, rest: string, withAS: bool)
    requires high <= MAX_ASN && AfterSpan(rest)
    ensures ReadTail("-" + Decimal(high) + rest, withAS) == Tail(high, rest)
  {
    var tail := "-" + Decimal(high) + rest;
    var c := Decimal(high) + rest;
    NumberStarts(high, rest);
    BlanksAreSpaces(c[0]);
    assert tail[0] == '-' && SkipBlanks(tail) == tail && tail[1..] == c && SkipBlanks(c) == c;
    assert TrimPrefix(c, "AS") == c;
    ReadsNumber(high, rest);
  }

  lemma {:induction false} SkipsTwo(text: string)
    ensures SkipBlanks("  # " + text) == "# " + text
  {
    var s := "  # " + text;
    assert s[1..] == " # " + text && s[1..][1..] == "# " + text;
    assert SkipBlanks("# " + text) == "# " + text;
  }

  lemma {:induction false} ReadsText(text: string)
    ensures ReadComment("  # " + text) == Some(TrimSpace(SkipBlanks(text)))
  {
    SkipsTwo(text);
    assert ("# " + text)[1..] == " " + text && (" " + text)[1..] == text;
  }

  lemma {:induction false} ReadsNote(note: string)
    requires PlainNote(note)
    ensures ReadComment(PrintNote(note)) == Some(note) && AfterSpan(PrintNote(note))
  {
    if note != "" {
      TrimmedEnds(note);
      BlanksAreSpaces(note[0]);
      SkipsTwo(note);
      ReadsText(note);
      assert SkipBlanks(note) == note;
    }
  }

  // ----- the ends of a printed line

  lemma {:induction false} SignedDigits(n: int)
    requires n >= 0
    ensures Signed(n) == Decimal(n) && '\n' !in Signed(n)
  {
  }

  lemma {:induction false} SpanEnds(low: int, high: int, min: nat)
    requires SpanIn(low, high, min)
    ensures var s := PrintSpan(low, high); s != "" && IsDigit(s[0]) && IsDigit(s[|s| - 1]) && '\n' !in s
  {
    NumberStarts(low, "");
    NumberStarts(high, "");
    SignedDigits(low);
    SignedDigits(high);
    assert Decimal(low) + "" == Decimal(low);
  }

  lemma {:induction false} NoteEnds(s: string, note: string)
    requires s != "" && !IsSpace(s[0]) && !IsSpace(s[|s| - 1]) && '\n' !in s && PlainNote(note)
    ensures var line := s + PrintNote(note);
      && !IsSpace(line[0]) && !IsSpace(line[|line| - 1]) && line[0] == s[0] && '\n' !in line
      && (note == "" ==> line == s) && (note != "" ==> line[|line| - 1] == note[|note| - 1])
  {
    if note != "" { TrimmedEnds(note); }
  }

  // ----- AS numbers

  lemma {:induction false} DropsComma(line: string)
    requires line != ""
    ensures TrimSuffix(line, ",") == if line[|line| - 1] == ',' then line[..|line| - 1] else line
  {
    assert line[|line| - 1..] == [line[|line| - 1]];
    assert HasSuffix(line, ",") <==> line[|line| - 1] == ',';
  }

  /** A line ends up as its trimmed text without one comma. */
  lemma {:induction false} ASNLineOf(line: string)
    requires line != "" && IsDigit(line[0]) && !IsSpace(line[|line| - 1])
    ensures ASNLine(line + "\n") == Some(ReadASN(if line[|line| - 1] != ',' then line else line[..|line| - 1]))
  {
    BlanksAreSpaces(line[0]);
    TrimsLineEnd(line);
    DropsComma(line);
  }

  lemma {:induction false} DigitIsNoPrefix(line: string)
    requires line != "" && IsDigit(line[0])
    ensures DropAS(line) == line
  {
  }

  lemma {:induction false} MakesASN(a: ASNRange, comment: Option<string>)
    requires SpanIn(a.low, a.high, 1) && comment.Some?
    ensures MakeASN(a.low, if a.low == a.high then None else Some(a.high as nat), comment) == Entry(a.(note := comment.value))
  {
  }

  lemma {:induction false} ReadASNOf(line: string, a: ASNRange, rest: string)
    requires line != "" && IsDigit(line[0]) && SpanIn(a.low, a.high, 1)
    requires ReadSpan(line, true) == Some((a.low as nat, if a.low == a.high then None else Some(a.high as nat), rest))
    ensures ReadComment(rest).Some? ==> ReadASN(line) == Entry(a.(note := ReadComment(rest).value))
  {
    DigitIsNoPrefix(line);
    if ReadComment(rest).Some? { MakesASN(a, ReadComment(rest)); }
  }

  /** A printed line: no line end in it, digits first, no space last. */
  lemma {:induction false} PrintedLine(a: ASNRange)
    requires CleanASN(a)
    ensures var line := PrintASN(a);
      && line != "" && IsDigit(line[0]) && !IsSpace(line[|line| - 1]) && '\n' !in line
      && (a.note == "" ==> line[|line| - 1] != ',') && (a.note != "" ==> line[|line| - 1] == a.note[|a.note| - 1])
  {
    var s := PrintSpan(a.low, a.high);
    SpanEnds(a.low, a.high, 1);
    BlanksAreSpaces(s[0]);
    BlanksAreSpaces(s[|s| - 1]);
    NoteEnds(s, a.note);
  }

  lemma {:induction false} ReadsPrinted(a: ASNRange)
    requires CleanASN(a)
    ensures ReadASN(PrintASN(a)) == Entry(a)
  {
    PrintedLine(a);
    ReadsNote(a.note);
    ReadsSpan(a.low, a.high, PrintNote(a.note), true);
    ReadASNOf(PrintASN(a), a, PrintNote(a.note));
  }

  lemma {:induction false} ASNLinePrinted(a: ASNRange)
    requires CleanASN(a) && !EndsInComma(a.note)
    ensures ASNLine(PrintASN(a) + "\n") == Some(Entry(a)) && '\n' !in PrintASN(a)
  {
    PrintedLine(a);
    ASNLineOf(PrintASN(a));
    ReadsPrinted(a);
  }

  /** A comma at the end of a note is taken for the one after the entry. */
  lemma {:induction false} CommaIsLost(a: ASNRange)
    requires CleanASN(a) && EndsInComma(a.note)
    ensures ASNLine(PrintASN(a) + "\n") != Some(Entry(a)) && '\n' !in PrintASN(a)
  {
    var line := PrintASN(a);
    PrintedLine(a);
    ASNLineOf(line);
    CutIs(a);
    ReadsCut(line[..|line| - 1], a, a.note[..|a.note| - 1]);
  }

  lemma {:induction false} CutIs(a: ASNRange)
    requires a.note != ""
    ensures var line := PrintASN(a);
      line[..|line| - 1] == PrintSpan(a.low, a.high) + ("  # " + a.note[..|a.note| - 1])
  {
  }

  lemma {:induction false} ReadsCut(line: string, a: ASNRange, text: string)
    requires SpanIn(a.low, a.high, 1) && |text| < |a.note| && line == PrintSpan(a.low, a.high) + ("  # " + text)
    ensures ReadASN(line) != Entry(a)
  {
    var rest := "  # " + text;
    SkipsTwo(text);
    ReadsSpan(a.low, a.high, rest, true);
    SpanEnds(a.low, a.high, 1);
    ReadsText(text);
    ReadASNOf(line, a, rest);
    SkipShrinks(text);
    TrimShrinks(SkipBlanks(text));
  }

  lemma {:induction false} SkipShrinks(s: string)
    ensures |SkipBlanks(s)| <= |s|
  {
  }

  lemma {:induction false} TrimShrinks(s: string)
    ensures |TrimSpace(s)| <= |s|
  {
    var i, j := TrimIsStretch(s);
  }

  /** Whatever is read is clean: in range, with a trimmed note on one line. */
  lemma {:induction false} ReadIsCleanASN(raw: string, a: ASNRange)
    requires (forall i | 0 <= i < |raw| - 1 :: raw[i] != '\n') && ASNLine(raw) == Some(Entry(a))
    ensures CleanASN(a)
  {
    var trimmed := TrimSpace(raw);
    var line := TrimSuffix(trimmed, ",");
    TrimmedLine(raw);
    assert forall c | c in line :: c in trimmed;
    var s := DropAS(line);
    assert forall c | c in s :: c in line;
    SpanRest(s, true);
    CommentIsPlain(ReadSpan(s, true).value.2);
  }

  lemma {:induction false} SkipIsSuffix(s: string)
    ensures forall c | c in SkipBlanks(s) :: c in s
  {
    if s != "" && Blank(s[0]) { SkipIsSuffix(s[1..]); }
  }

  /** The text after the numbers is text of the line. */
  lemma {:induction false} SpanRest(s: string, withAS: bool)
    requires ReadSpan(s, withAS).Some?
    ensures forall c | c in ReadSpan(s, withAS).value.2 :: c in s
  {
    var rest := ReadNumber(s).value.1;
    assert forall c | c in rest :: c in s;
    var b := SkipBlanks(rest);
    SkipIsSuffix(rest);
    if b != "" && b[0] == '-' {
      var c := SkipBlanks(b[1..]);
      SkipIsSuffix(b[1..]);
      var d := if withAS then TrimPrefix(c, "AS") else c;
      assert forall x | x in d :: x in c;
      assert forall x | x in ReadNumber(d).value.1 :: x in d;
    }
  }

  lemma {:induction false} CommentIsPlain(s: string)
    requires '\n' !in s && ReadComment(s).Some?
    ensures PlainNote(ReadComment(s).value)
  {
    var b := SkipBlanks(s);
    SkipIsSuffix(s);
    if b != "" {
      var c := SkipBlanks(b[1..]);
      SkipIsSuffix(b[1..]);
      var i, j := TrimIsStretch(c);
      assert forall x | x in TrimSpace(c) :: x in c;
    }
  }

  lemma {:induction false} ParsedIsCleanASN(text: string)
    ensures forall a | a in ParseASNs(text).0 :: CleanASN(a)
  {
    var lines := Lines(text);
    EntriesComeFromLines(ASNLine, lines);
    forall a | a in ParseASNs(text).0
      ensures CleanASN(a)
    {
      var k :| 0 <= k < |lines| && ASNLine(lines[k]) == Some(Entry(a));
      LineEndsLast(text, k);
      ReadIsCleanASN(lines[k], a);
    }
  }

  /** A list of AS numbers survives the editor exactly when every entry is in range, its note is
      trimmed and on one line, and the note does not end in a comma. */
  lemma {:induction false} ASNRoundTrip(list: seq<ASNRange>)
    ensures ParseASNs(FormatASNs(list)) == (list, []) <==>
              forall k | 0 <= k < |list| :: CleanASN(list[k]) && !EndsInComma(list[k].note)
  {
    if forall k | 0 <= k < |list| :: CleanASN(list[k]) && !EndsInComma(list[k].note) {
      forall k | 0 <= k < |list|
        ensures ASNLine(PrintASN(list[k]) + "\n") == Some(Entry(list[k])) && '\n' !in PrintASN(list[k])
      {
        ASNLinePrinted(list[k]);
      }
      LinesOfPrinted(list, PrintASN);
      ReadPrinted(ASNLine, Lines(FormatASNs(list)), list);
    }
    if ParseASNs(FormatASNs(list)) == (list, []) {
      ParsedIsCleanASN(FormatASNs(list));
      forall k | 0 <= k < |list|
        ensures CleanASN(list[k]) && '\n' !in PrintASN(list[k])
      {
        assert list[k] in list;
        if EndsInComma(list[k].note) { CommaIsLost(list[k]); } else { ASNLinePrinted(list[k]); }
      }
      LinesOfPrinted(list, PrintASN);
      forall k | 0 <= k < |list|
        ensures !EndsInComma(list[k].note)
      {
        SameCountSameLine(ASNLine, Lines(FormatASNs(list)), list, k);
        if EndsInComma(list[k].note) { CommaIsLost(list[k]); }
      }
    }
  }

  /** As many entries as lines: every line gave its own. */
  lemma {:induction false} SameCountSameLine<E>(reader: Reader<E>, lines: seq<string>, list: seq<E>, k: nat)
    requires |lines| == |list| && ReadAll(reader, lines) == (list, []) && k < |list|
    ensures reader(lines[k]) == Some(Entry(list[k]))
  {
    var n := |lines| - 1;
    AtMostOnePerLine(reader, lines[..n]);
    assert reader(lines[n]) == Some(Entry(list[n]));
    if k < n { SameCountSameLine(reader, lines[..n], list[..n], k); }
  }

  lemma {:induction false} AtMostOnePerLine<E>(reader: Reader<E>, lines: seq<string>)
    ensures |ReadAll(reader, lines).0| <= |lines|
  {
    if lines != [] { AtMostOnePerLine(reader, lines[..|lines| - 1]); }
  }

  // ----- bogons

  lemma {:induction false} ReadsMark(tail: string)
    ensures ReadPrivate(" private" + tail) == (true, tail) && SkipBlanks(" private" + tail) == "private" + tail
  {
    var b := "private" + tail;
    assert " private" + tail == " " + b && (" " + b)[1..] == b && SkipBlanks(b) == b;
    assert b[7..] == tail;
  }

  lemma {:induction false} ReadsNoMark(note: string)
    ensures ReadPrivate(PrintNote(note)) == (false, PrintNote(note))
  {
    if note != "" {
      SkipsTwo(note);
      var b, mark := "# " + note, "private";
      assert b[0] != mark[0];
    }
  }

  lemma {:induction false} ReadBogonOf(line: string, b: Bogon, rest: string)
    requires SpanIn(b.low, b.high, 0)
    requires ReadSpan(line, false) == Some((b.low as nat, if b.low == b.high then None else Some(b.high as nat), rest))
    requires ReadPrivate(rest).0 == b.isPrivate && ReadComment(ReadPrivate(rest).1) == Some(b.note)
    ensures ReadBogon(line) == Entry(b)
  {
  }

  function Mark(isPrivate: bool): string { if isPrivate then " private" else "" }

  lemma {:induction false} ReadsAfterSpan(isPrivate: bool, note: string)
    requires PlainNote(note)
    ensures AfterSpan(Mark(isPrivate) + PrintNote(note))
    ensures ReadPrivate(Mark(isPrivate) + PrintNote(note)) == (isPrivate, PrintNote(note))
  {
    ReadsNote(note);
    if isPrivate {
      ReadsMark(PrintNote(note));
    } else {
      ReadsNoMark(note);
      assert "" + PrintNote(note) == PrintNote(note);
    }
  }

  lemma {:induction false} MarkEnds(span: string, isPrivate: bool)
    requires span != "" && IsDigit(span[0]) && IsDigit(span[|span| - 1]) && '\n' !in span
    ensures var s := span + Mark(isPrivate); s != "" && IsDigit(s[0]) && !IsSpace(s[|s| - 1]) && '\n' !in s
  {
    BlanksAreSpaces(span[|span| - 1]);
    assert !IsSpace('e');
  }

  lemma {:induction false} BogonLinePrinted(b: Bogon)
    requires CleanBogon(b)
    ensures BogonLine(PrintBogon(b) + "\n") == Some(Entry(b)) && '\n' !in PrintBogon(b)
  {
    var span, rest := PrintSpan(b.low, b.high), Mark(b.isPrivate) + PrintNote(b.note);
    SpanEnds(b.low, b.high, 0);
    MarkEnds(span, b.isPrivate);
    var s := span + Mark(b.isPrivate);
    BlanksAreSpaces(s[0]);
    NoteEnds(s, b.note);
    assert PrintBogon(b) == s + PrintNote(b.note);
    TrimsLineEnd(PrintBogon(b));
    Regroup(span, Mark(b.isPrivate), PrintNote(b.note));
    ReadsAfterSpan(b.isPrivate, b.note);
    ReadsSpan(b.low, b.high, rest, false);
    ReadsNote(b.note);
    ReadBogonOf(PrintBogon(b), b, rest);
  }

  lemma {:induction false} Regroup(a: string, b: string, c: string)
    ensures a + b + c == a + (b + c)
  {
  }

  lemma {:induction false} ReadIsCleanBogon(raw: string, b: Bogon)
    requires (forall i | 0 <= i < |raw| - 1 :: raw[i] != '\n') && BogonLine(raw) == Some(Entry(b))
    ensures CleanBogon(b)
  {
    var line := TrimSpace(raw);
    TrimmedLine(raw);
    SpanRest(line, false);
    var rest := ReadSpan(line, false).value.2;
    SkipIsSuffix(rest);
    assert forall c | c in ReadPrivate(rest).1 :: c in rest;
    CommentIsPlain(ReadPrivate(rest).1);
  }

  /** A list of bogons survives the editor exactly when it is not empty and every entry is in range
      with a trimmed note on one line. */
  lemma {:induction false} BogonRoundTrip(list: seq<Bogon>)
    ensures ParseBogons(FormatBogons(list)) == (list, []) <==> list != [] && forall k | 0 <= k < |list| :: CleanBogon(list[k])
  {
    if list != [] && forall k | 0 <= k < |list| :: CleanBogon(list[k]) {
      forall k | 0 <= k < |list|
        ensures BogonLine(PrintBogon(list[k]) + "\n") == Some(Entry(list[k])) && '\n' !in PrintBogon(list[k])
      {
        BogonLinePrinted(list[k]);
      }
      LinesOfPrinted(list, PrintBogon);
      ReadPrinted(BogonLine, Lines(FormatBogons(list)), list);
    }
    if ParseBogons(FormatBogons(list)) == (list, []) {
      var lines := Lines(FormatBogons(list));
      EntriesComeFromLines(BogonLine, lines);
      forall k | 0 <= k < |list|
        ensures CleanBogon(list[k])
      {
        assert list[k] in list;
        var i :| 0 <= i < |lines| && BogonLine(lines[i]) == Some(Entry(list[k]));
        LineEndsLast(FormatBogons(list), i);
        ReadIsCleanBogon(lines[i], list[k]);
      }
    }
  }
}
