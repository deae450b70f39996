/** What the two list editors accept, said of the text a line is made of: every line that is put
    together as their syntax allows is read as what it says, and every other one is refused as malformed.
    (internal/store/assets.go, asnLine and ParseASNRanges; internal/store/bogons.go, bogonLine and
    ParseBogonASNs) */
module ListInputs {
  import opened Options
  import opened Text
  import opened RangeLists

  // ----- the syntax of a line

  /** "- 64510" after a number, with any blanks around the dash. */
  datatype Upper = Upper(before: string, after: string, prefix: string, high: string)

  /** A line taken apart: a prefix, a number, the upper end of a range, a mark, blanks, and what follows
      a '#'. */
  datatype Parts = Parts(prefix: string, low: string, upper: Option<Upper>, mark: string, gap: string, comment: Option<string>)
  {
    function UpperText(): string {
      match upper
      case None => ""
      case Some(u) => u.before + "-" + u.after + u.prefix + u.high
    }

    function CommentText(): string { if comment.Some? then "#" + comment.value else "" }

    function Whole(): string { prefix + (low + (UpperText() + (mark + (gap + CommentText())))) }
  }

  predicate AllBlank(s: string) { forall c | c in s :: Blank(c) }

  /** One to ten digits. */
  predicate IsNumber(s: string) { 1 <= |s| <= 10 && forall c | c in s :: IsDigit(c) }

  /** "AS" in either case, where a long s folds to S; or nothing. */
  predicate IsAS(s: string) {
    s == "" || (|s| == 2 && (s[0] == 'A' || s[0] == 'a') && (s[1] == 'S' || s[1] == 's' || s[1] as int == 0x17F))
  }

  /** "AS64500 - AS64510 # note": before the upper number only the capitals will do. */
  predicate FitsASN(p: Parts) {
    && IsAS(p.prefix) && IsNumber(p.low) && p.mark == "" && AllBlank(p.gap)
    && (p.upper.Some? ==>
          && AllBlank(p.upper.value.before) && AllBlank(p.upper.value.after) && IsNumber(p.upper.value.high)
          && (p.upper.value.prefix == "" || p.upper.value.prefix == "AS"))
  }

  /** "64512 - 65534 private # note": no AS, and blanks before the mark. */
  predicate FitsBogon(p: Parts) {
    && p.prefix == "" && IsNumber(p.low) && IsMark(p.mark) && AllBlank(p.gap)
    && (p.upper.Some? ==>
          && AllBlank(p.upper.value.before) && AllBlank(p.upper.value.after) && IsNumber(p.upper.value.high)
          && p.upper.value.prefix == "")
  }

  predicate IsMark(s: string) {
    s == "" || (|s| >= 8 && AllBlank(s[..|s| - 7]) && s[|s| - 7..] == "private")
  }

  // ----- what a line says

  ghost function Low(p: Parts): nat
    requires IsNumber(p.low)
  {
    Value(p.low)
  }

  /** A number on its own is a range of one. */
  ghost function High(p: Parts): nat
    requires IsNumber(p.low) && (p.upper.Some? ==> IsNumber(p.upper.value.high))
  {
    if p.upper.Some? then Value(p.upper.value.high) else Value(p.low)
  }

  ghost function Note(p: Parts): string { if p.comment.Some? then TrimSpace(p.comment.value) else "" }

  /** What is wrong with the numbers, if anything: the first is out of range, or the second, or they
      stand the wrong way round. */
  ghost predicate NumbersMean(low: nat, high: nat, least: nat, problem: Option<Problem>) {
    match problem
    case None => least <= low <= high <= 4294967295
    case Some(NotANumber) => low < least || low > 4294967295 || high > 4294967295
    case Some(Backwards) => least <= low <= 4294967295 && high < low
    case _ => false
  }

  ghost predicate MeansASN(low: nat, high: nat, note: string, r: Read<ASNRange>) {
    match r
    case Entry(a) => NumbersMean(low, high, 1, None) && a == ASNRange(low, high, note)
    case Bad(problem) => NumbersMean(low, high, 1, Some(problem))
  }

  ghost predicate MeansBogon(low: nat, high: nat, isPrivate: bool, note: string, r: Read<Bogon>) {
    match r
    case Entry(b) => NumbersMean(low, high, 0, None) && b == Bogon(low, high, isPrivate, note)
    case Bad(problem) => NumbersMean(low, high, 0, Some(problem))
  }

  // ----- reading what was put together

  lemma {:induction false} SkipsAll(b: string, rest: string)
    requires AllBlank(b) && (rest != "" ==> !Blank(rest[0]))
    ensures SkipBlanks(b + rest) == rest
  {
    if b == "" {
      assert b + rest == rest;
    } else {
      assert b[0] in b && (b + rest)[1..] == b[1..] + rest;
      assert forall c | c in b[1..] :: c in b;
      SkipsAll(b[1..], rest);
    }
  }

  lemma {:induction false} TrimSkipped(s: string)
    ensures TrimSpace(SkipBlanks(s)) == TrimSpace(s)
  {
    if s != "" && Blank(s[0]) {
      TrimSkipped(s[1..]);
      assert IsSpace(s[0]);
    }
  }

  lemma {:induction false} ReadsComment(gap: string, comment: Option<string>)
    requires AllBlank(gap)
    ensures var text := if comment.Some? then "#" + comment.value else "";
      ReadComment(gap + text) == Some(if comment.Some? then TrimSpace(comment.value) else "")
  {
    var text := if comment.Some? then "#" + comment.value else "";
    SkipsAll(gap, text);
    if comment.Some? {
      assert text[1..] == comment.value;
      TrimSkipped(comment.value);
    }
  }

  lemma {:induction false} ReadsDigits(d: string, rest: string)
    requires IsNumber(d) && (rest != "" ==> !IsDigit(rest[0]))
    ensures ReadNumber(d + rest) == Some((Value(d), rest))
  {
    DigitsOf(d, rest);
    assert (d + rest)[|d|..] == rest;
  }

  /** Where a line may go on after its numbers. */
  predicate Ends(rest: string) { (rest != "" ==> !IsDigit(rest[0])) && (SkipBlanks(rest) != "" ==> SkipBlanks(rest)[0] != '-') }

  lemma {:induction false} ReadsUpper(u: Upper, rest: string, withAS: bool)
    requires AllBlank(u.before) && AllBlank(u.after) && IsNumber(u.high) && Ends(rest)
    requires u.prefix == "" || (withAS && u.prefix == "AS")
    ensures ReadTail(u.before + "-" + u.after + u.prefix + u.high + rest, withAS) == Tail(Value(u.high), rest)
  {
    var number := u.high + rest;
    var named := u.prefix + number;
    assert u.high[0] in u.high && number[0] == u.high[0];
    var tail := "-" + (u.after + named);
    assert u.before + "-" + u.after + u.prefix + u.high + rest == u.before + tail;
    SkipsAll(u.before, tail);
    assert tail[1..] == u.after + named;
    SkipsAll(u.after, named);
    if u.prefix == "" { assert named == number; } else { assert named[..2] == "AS" && named[2..] == number; }
    ReadsDigits(u.high, rest);
  }

  lemma {:induction false} ReadsNumbers(low: string, upper: Option<Upper>, rest: string, withAS: bool)
    requires IsNumber(low) && Ends(rest)
    requires upper.Some? ==>
               && AllBlank(upper.value.before) && AllBlank(upper.value.after) && IsNumber(upper.value.high)
               && (upper.value.prefix == "" || (withAS && upper.value.prefix == "AS"))
    ensures var text := if upper.Some? then upper.value.before + "-" + upper.value.after + upper.value.prefix + upper.value.high else "";
      ReadSpan(low + (text + rest), withAS) ==
      Some((Value(low), if upper.Some? then Some(Value(upper.value.high)) else None, rest))
  {
    if upper.Some? {
      var u := upper.value;
      var text := u.before + "-" + u.after + u.prefix + u.high;
      ReadsUpper(u, rest, withAS);
      if u.before != "" { assert u.before[0] in u.before; }
      assert !IsDigit((text + rest)[0]);
      ReadsDigits(low, text + rest);
    } else {
      assert "" + rest == rest;
      ReadsDigits(low, rest);
    }
  }

  lemma {:induction false} DropsAS(prefix: string, rest: string)
    requires IsAS(prefix) && rest != "" && IsDigit(rest[0])
    ensures DropAS(prefix + rest) == rest
  {
    if prefix == "" { assert prefix + rest == rest; } else { assert (prefix + rest)[2..] == rest; }
  }

  lemma {:induction false} EndOfLine(gap: string, comment: string)
    requires AllBlank(gap) && (comment != "" ==> comment[0] == '#')
    ensures Ends(gap + comment)
  {
    SkipsAll(gap, comment);
    if gap != "" { assert gap[0] in gap; }
  }

  lemma {:induction false} MakesWhatItMeans(line: string, low: nat, high: Option<nat>, rest: string, note: string)
    requires ReadSpan(DropAS(line), true) == Some((low, high, rest)) && ReadComment(rest) == Some(note)
    ensures MeansASN(low, if high.Some? then high.value else low, note, ReadASN(line))
  {
  }

  lemma {:induction false} ReadsParts(p: Parts)
    requires FitsASN(p)
    ensures var rest := p.gap + p.CommentText();
      && ReadSpan(DropAS(p.Whole()), true) ==
         Some((Value(p.low), if p.upper.Some? then Some(Value(p.upper.value.high)) else None, rest))
      && ReadComment(rest) == Some(Note(p))
  {
    var rest := p.gap + p.CommentText();
    var span := p.low + (p.UpperText() + rest);
    assert p.mark + rest == rest;
    assert p.low[0] in p.low && span[0] == p.low[0];
    DropsAS(p.prefix, span);
    EndOfLine(p.gap, p.CommentText());
    ReadsNumbers(p.low, p.upper, rest, true);
    ReadsComment(p.gap, p.comment);
  }

  /** A line put together as the AS-number editor allows is read as what it says. */
  lemma {:induction false} ReadsASNInput(p: Parts)
    requires FitsASN(p)
    ensures MeansASN(Low(p), High(p), Note(p), ReadASN(p.Whole()))
  {
    ReadsParts(p);
    MakesWhatItMeans(p.Whole(), Value(p.low), if p.upper.Some? then Some(Value(p.upper.value.high)) else None,
                     p.gap + p.CommentText(), Note(p));
  }

  lemma {:induction false} ReadsMarkOf(mark: string, gap: string, comment: string)
    requires IsMark(mark) && AllBlank(gap) && (comment != "" ==> comment[0] == '#')
    ensures ReadPrivate(mark + (gap + comment)) == (mark != "", gap + comment)
    ensures Ends(mark + (gap + comment))
  {
    var rest := gap + comment;
    EndOfLine(gap, comment);
    SkipsAll(gap, comment);
    if mark == "" {
      assert mark + rest == rest;
      assert !("private" <= comment) by { if comment != "" { assert comment[0] != "private"[0]; } }
    } else {
      var n := |mark| - 7;
      var b := "private" + rest;
      assert mark == mark[..n] + "private" && mark + rest == mark[..n] + b;
      SkipsAll(mark[..n], b);
      assert mark[0] == mark[..n][0] && mark[..n][0] in mark[..n];
      assert b[..7] == "private" && b[7..] == rest;
    }
  }

  lemma {:induction false} MakesBogon(line: string, low: nat, high: Option<nat>, rest: string, isPrivate: bool, note: string)
    requires ReadSpan(line, false) == Some((low, high, rest)) && ReadPrivate(rest).0 == isPrivate
    requires ReadComment(ReadPrivate(rest).1) == Some(note)
    ensures MeansBogon(low, if high.Some? then high.value else low, isPrivate, note, ReadBogon(line))
  {
  }

  lemma {:induction false} ReadsBogonParts(p: Parts)
    requires FitsBogon(p)
    ensures var rest := p.mark + (p.gap + p.CommentText());
      && ReadSpan(p.Whole(), false) ==
         Some((Value(p.low), if p.upper.Some? then Some(Value(p.upper.value.high)) else None, rest))
      && ReadPrivate(rest).0 == (p.mark != "") && ReadComment(ReadPrivate(rest).1) == Some(Note(p))
  {
    var rest := p.mark + (p.gap + p.CommentText());
    assert p.prefix + (p.low + (p.UpperText() + rest)) == p.low + (p.UpperText() + rest);
    ReadsMarkOf(p.mark, p.gap, p.CommentText());
    ReadsNumbers(p.low, p.upper, rest, false);
    ReadsComment(p.gap, p.comment);
  }

  /** A line put together as the bogon editor allows is read as what it says. */
  lemma {:induction false} ReadsBogonInput(p: Parts)
    requires FitsBogon(p)
    ensures MeansBogon(Low(p), High(p), p.mark != "", Note(p), ReadBogon(p.Whole()))
  {
    ReadsBogonParts(p);
    MakesBogon(p.Whole(), Value(p.low), if p.upper.Some? then Some(Value(p.upper.value.high)) else None,
               p.mark + (p.gap + p.CommentText()), p.mark != "", Note(p));
  }

  // ----- taking a line apart

  lemma {:induction false} SplitBlanks(s: string) returns (b: string)
    ensures AllBlank(b) && s == b + SkipBlanks(s)
  {
    if s != "" && Blank(s[0]) {
      var rest := SplitBlanks(s[1..]);
      b := [s[0]] + rest;
      assert s == [s[0]] + s[1..];
    } else {
      b := "";
    }
  }

  lemma {:induction false} SplitNumber(s: string) returns (d: string)
    requires ReadNumber(s).Some?
    ensures IsNumber(d) && s == d + ReadNumber(s).value.1 && ReadNumber(s).value.0 == Value(d)
  {
    d := Digits(s);
  }

  lemma {:induction false} SplitComment(s: string) returns (gap: string, comment: Option<string>)
    requires ReadComment(s).Some?
    ensures AllBlank(gap) && s == gap + if comment.Some? then "#" + comment.value else ""
  {
    gap := SplitBlanks(s);
    var b := SkipBlanks(s);
    if b == "" { comment := None; } else { comment := Some(b[1..]); }
  }

  lemma {:induction false} SplitTail(s: string, withAS: bool) returns (upper: Option<Upper>)
    requires !ReadTail(s, withAS).BadTail?
    ensures s == (if upper.Some? then upper.value.before + "-" + upper.value.after + upper.value.prefix + upper.value.high else "")
                 + ReadTail(s, withAS).rest
    ensures upper.Some? ==>
              && AllBlank(upper.value.before) && AllBlank(upper.value.after) && IsNumber(upper.value.high)
              && (upper.value.prefix == "" || (withAS && upper.value.prefix == "AS"))
  {
    var b := SkipBlanks(s);
    if b == "" || b[0] != '-' {
      upper := None;
      assert "" + s == s;
    } else {
      var before := SplitBlanks(s);
      var after := SplitBlanks(b[1..]);
      var c := SkipBlanks(b[1..]);
      var named := withAS && "AS" <= c;
      var number := if named then c[2..] else c;
      var high := SplitNumber(number);
      upper := Some(Upper(before, after, if named then "AS" else "", high));
      TailParts(s, before, b, after, c, if named then "AS" else "", high, ReadNumber(number).value.1);
    }
  }

  lemma {:induction false} TailParts(s: string, before: string, b: string, after: string, c: string, prefix: string,
                                     high: string, rest: string)
    requires s == before + b && b != "" && b[0] == '-' && b[1..] == after + c && c == prefix + (high + rest)
    ensures s == before + "-" + after + prefix + high + rest
  {
    assert b == "-" + (after + (prefix + (high + rest)));
  }

  lemma {:induction false} SplitSpan(s: string, withAS: bool) returns (low: string, upper: Option<Upper>)
    requires ReadSpan(s, withAS).Some?
    ensures IsNumber(low)
    ensures upper.Some? ==>
              && AllBlank(upper.value.before) && AllBlank(upper.value.after) && IsNumber(upper.value.high)
              && (upper.value.prefix == "" || (withAS && upper.value.prefix == "AS"))
    ensures s == low + ((if upper.Some? then upper.value.before + "-" + upper.value.after + upper.value.prefix + upper.value.high
                         else "") + ReadSpan(s, withAS).value.2)
  {
    low := SplitNumber(s);
    upper := SplitTail(ReadNumber(s).value.1, withAS);
  }

  lemma {:induction false} SplitASN(line: string) returns (p: Parts)
    requires ReadASN(line) != Bad(Malformed)
    ensures FitsASN(p) && line == p.Whole()
  {
    var s := DropAS(line);
    var prefix := line[..|line| - |s|];
    assert IsAS(prefix) && line == prefix + s;
    var low, upper := SplitSpan(s, true);
    var rest := ReadSpan(s, true).value.2;
    var gap, comment := SplitComment(rest);
    p := Parts(prefix, low, upper, "", gap, comment);
    assert "" + rest == rest;
  }

  /** A line of the AS-number editor is malformed exactly when it is not put together as allowed. */
  lemma {:induction false} MalformedASN(line: string)
    ensures ReadASN(line) == Bad(Malformed) <==> !exists p: Parts :: FitsASN(p) && line == p.Whole()
  {
    if ReadASN(line) != Bad(Malformed) {
      var p := SplitASN(line);
    }
    forall p: Parts | FitsASN(p) && line == p.Whole()
      ensures ReadASN(line) != Bad(Malformed)
    {
      ReadsASNInput(p);
    }
  }

  lemma {:induction false} SplitMark(s: string) returns (mark: string)
    ensures IsMark(mark) && s == mark + ReadPrivate(s).1
  {
    var b := SkipBlanks(s);
    var blanks := SplitBlanks(s);
    if |b| < |s| && "private" <= b {
      mark := blanks + "private";
      assert mark[..|mark| - 7] == blanks && mark[|mark| - 7..] == "private" && b == "private" + b[7..];
    } else {
      mark := "";
      assert "" + s == s;
    }
  }

  lemma {:induction false} SplitBogon(line: string) returns (p: Parts)
    requires ReadBogon(line) != Bad(Malformed)
    ensures FitsBogon(p) && line == p.Whole()
  {
    var low, upper := SplitSpan(line, false);
    var rest := ReadSpan(line, false).value.2;
    var mark := SplitMark(rest);
    var gap, comment := SplitComment(ReadPrivate(rest).1);
    p := Parts("", low, upper, mark, gap, comment);
    assert "" + line == line;
  }

  lemma {:induction false} MalformedBogon(line: string)
    ensures ReadBogon(line) == Bad(Malformed) <==> !exists p: Parts :: FitsBogon(p) && line == p.Whole()
  {
    if ReadBogon(line) != Bad(Malformed) {
      var p := SplitBogon(line);
    }
    forall p: Parts | FitsBogon(p) && line == p.Whole()
      ensures ReadBogon(line) != Bad(Malformed)
    {
      ReadsBogonInput(p);
    }
  }

  // ----- whole texts

  function Joined(lines: seq<string>): string { if lines == [] then "" else lines[0] + Joined(lines[1..]) }

  /** A text is its lines: each ends at its first line end, and only the last may have none. */
  lemma {:induction false} LinesMakeText(text: string)
    ensures Joined(Lines(text)) == text
    ensures EndedLines(Lines(text))
    decreases |text|
  {
    if text != "" {
      var first := FirstLine(text);
      var rest := text[|first|..];
      FirstEnds(text);
      LinesMakeText(rest);
      assert text == first + rest;
      MoreLines(first, Lines(rest));
      JoinedMore(first, Lines(rest));
    }
  }

  lemma {:induction false} JoinedMore(first: string, lines: seq<string>)
    ensures Joined([first] + lines) == first + Joined(lines)
  {
    assert ([first] + lines)[1..] == lines;
  }

  predicate EndedLines(lines: seq<string>) {
    && (forall k | 0 <= k < |lines| :: lines[k] != "" && EndsOnce(lines[k]))
    && (forall k | 0 <= k < |lines| - 1 :: '\n' in lines[k])
  }

  lemma {:induction false} MoreLines(first: string, lines: seq<string>)
    requires EndedLines(lines) && first != "" && EndsOnce(first) && ('\n' in first || lines == [])
    ensures EndedLines([first] + lines)
  {
  }

  predicate EndsOnce(line: string) { forall i | 0 <= i < |line| - 1 :: line[i] != '\n' }

  lemma {:induction false} FirstEnds(text: string)
    ensures '\n' in FirstLine(text) || FirstLine(text) == text
  {
    if text != "" && text[0] != '\n' {
      FirstEnds(text[1..]);
      assert text == [text[0]] + text[1..];
    }
  }

  /** The entries a text holds are those of its good lines, in order. */
  ghost predicate EntriesOf<E>(reader: Reader<E>, lines: seq<string>, at: seq<nat>, entries: seq<E>) {
    && Ascending(at) && |at| == |entries|
    && (forall i | 0 <= i < |lines| :: i in at <==> reader(lines[i]).Some? && reader(lines[i]).value.Entry?)
    && forall k | 0 <= k < |at| :: at[k] < |lines| && reader(lines[at[k]]) == Some(Entry(entries[k]))
  }

  /** The problems are those of its bad lines, each with the line's number, counted from one. */
  ghost predicate ProblemsOf<E>(reader: Reader<E>, lines: seq<string>, at: seq<nat>, problems: seq<(nat, Problem)>) {
    && Ascending(at) && |at| == |problems|
    && (forall i | 0 <= i < |lines| :: i in at <==> reader(lines[i]).Some? && reader(lines[i]).value.Bad?)
    && forall k | 0 <= k < |at| ::
         at[k] < |lines| && problems[k].0 == at[k] + 1 && reader(lines[at[k]]) == Some(Bad(problems[k].1))
  }

  ghost predicate TextMeans<E>(reader: Reader<E>, lines: seq<string>, entries: seq<E>, problems: seq<(nat, Problem)>) {
    && (exists at: seq<nat> :: EntriesOf(reader, lines, at, entries))
    && (exists at: seq<nat> :: ProblemsOf(reader, lines, at, problems))
  }

  lemma {:induction false} OneMore<E>(reader: Reader<E>, lines: seq<string>, line: string, at: seq<nat>, entries: seq<E>)
    requires EntriesOf(reader, lines, at, entries)
    ensures reader(line).Some? && reader(line).value.Entry? ==>
              EntriesOf(reader, lines + [line], at + [|lines|], entries + [reader(line).value.entry])
    ensures !(reader(line).Some? && reader(line).value.Entry?) ==> EntriesOf(reader, lines + [line], at, entries)
  {
    var more: seq<nat> := at + [|lines|];
    assert more[|at|] == |lines| && |lines| !in at;
    assert forall i | 0 <= i < |lines| :: (i in more <==> i in at) && (lines + [line])[i] == lines[i];
  }

  lemma {:induction false} OneMoreProblem<E>(reader: Reader<E>, lines: seq<string>, line: string, at: seq<nat>,
                                             problems: seq<(nat, Problem)>)
    requires ProblemsOf(reader, lines, at, problems)
    ensures reader(line).Some? && reader(line).value.Bad? ==>
              ProblemsOf(reader, lines + [line], at + [|lines|], problems + [(|lines| + 1, reader(line).value.problem)])
    ensures !(reader(line).Some? && reader(line).value.Bad?) ==> ProblemsOf(reader, lines + [line], at, problems)
  {
    var more: seq<nat> := at + [|lines|];
    assert more[|at|] == |lines| && |lines| !in at;
    assert forall i | 0 <= i < |lines| :: (i in more <==> i in at) && (lines + [line])[i] == lines[i];
  }

  lemma {:induction false} ReadAllMeans<E>(reader: Reader<E>, lines: seq<string>)
    ensures TextMeans(reader, lines, ReadAll(reader, lines).0, ReadAll(reader, lines).1)
  {
    if lines == [] {
      var none: seq<nat> := [];
      assert EntriesOf(reader, lines, none, []) && ProblemsOf(reader, lines, none, []);
    } else {
      var n := |lines| - 1;
      var before, line := lines[..n], lines[n];
      assert lines == before + [line];
      ReadAllMeans(reader, before);
      var at: seq<nat> :| EntriesOf(reader, before, at, ReadAll(reader, before).0);
      OneMore(reader, before, line, at, ReadAll(reader, before).0);
      var bad: seq<nat> :| ProblemsOf(reader, before, bad, ReadAll(reader, before).1);
      OneMoreProblem(reader, before, line, bad, ReadAll(reader, before).1);
    }
  }

  /** Blank lines, lone commas and comment lines hold nothing; any other line is read without the space
      around it and without a comma at its end. */
  lemma {:induction false} ASNLineMeans(raw: string)
    ensures var t := TrimSpace(raw);
      if t == "" || t == "," || t[0] == '#' then ASNLine(raw) == None
      else ASNLine(raw) == Some(ReadASN(if t[|t| - 1] == ',' then t[..|t| - 1] else t))
  {
    var t := TrimSpace(raw);
    if t != "" {
      assert t[|t| - 1..] == [t[|t| - 1]];
      assert HasSuffix(t, ",") <==> t[|t| - 1] == ',';
    }
  }

  lemma {:induction false} BogonLineMeans(raw: string)
    ensures var t := TrimSpace(raw);
      if t == "" || t[0] == '#' then BogonLine(raw) == None else BogonLine(raw) == Some(ReadBogon(t))
  {
  }

  /** What the AS-number editor makes of a text. */
  lemma {:induction false} ASNTextMeans(text: string)
    ensures TextMeans(ASNLine, Lines(text), ParseASNs(text).0, ParseASNs(text).1)
  {
    ReadAllMeans(ASNLine, Lines(text));
  }

  /** And the bogon editor, which refuses a text with neither entries nor problems. */
  lemma {:induction false} BogonTextMeans(text: string)
    ensures var (entries, problems) := ParseBogons(text);
      || (entries == [] && problems == [(0, EmptyList)] && forall k | 0 <= k < |Lines(text)| :: BogonLine(Lines(text)[k]) == None)
      || (TextMeans(BogonLine, Lines(text), entries, problems) && (entries != [] || problems != []))
  {
    ReadAllMeans(BogonLine, Lines(text));
    if ReadAll(BogonLine, Lines(text)) == ([], []) { NothingRead(Lines(text)); }
  }

  lemma {:induction false} NothingRead(lines: seq<string>)
    requires TextMeans(BogonLine, lines, [], [])
    ensures forall k | 0 <= k < |lines| :: BogonLine(lines[k]) == None
  {
    var at: seq<nat> :| EntriesOf(BogonLine, lines, at, []);
    var bad: seq<nat> :| ProblemsOf(BogonLine, lines, bad, []);
    forall k | 0 <= k < |lines|
      ensures BogonLine(lines[k]) == None
    {
      assert k !in at && k !in bad;
    }
  }
}
