/** The framing of a BIRD control-socket reply, and the whole-reply route parser.
    A line is a string without its end-of-line. How a route line and a detail line are read is a
    parameter (`Grammar`), shared by the whole-reply parser and the streaming reader.
    (internal/birdc/client.go and internal/birdc/parser.go) */
module Replies {
  import opened Options
  import opened Text
  import opened RouteLines

  // ----- one line

  datatype Line = Plain(text: string) | Coded(code: nat, sep: char, text: string)

  /** A line is coded when it starts with four digits and one of ' ', '-', '+'. A continuation
      line loses exactly one leading marker space. */
  function ParseLine(line: string): Line {
    if |line| >= 5 && (forall i | 0 <= i < 4 :: IsDigit(line[i])) && line[4] in {' ', '-', '+'} then
      Coded(Digit(line[0]) * 1000 + Digit(line[1]) * 100 + Digit(line[2]) * 10 + Digit(line[3]), line[4], line[5..])
    else
      Plain(TrimPrefix(line, " "))
  }

  function ParseLines(lines: seq<string>): (r: seq<Line>)
    ensures |r| == |lines| && forall k | 0 <= k < |r| :: r[k] == ParseLine(lines[k])
  {
    seq(|lines|, k requires 0 <= k < |lines| => ParseLine(lines[k]))
  }

  predicate IsErrorCode(code: nat) { 8000 <= code < 10000 }

  // ----- framing

  datatype Reply = Reply(blocks: seq<Block>, terminal: Block)

  function BlockLines(blocks: seq<Block>): seq<string> {
    if blocks == [] then [] else blocks[0].lines + BlockLines(blocks[1..])
  }

  /** What a reply says: its text lines, and the code of its terminal line. */
  datatype Framed = Framed(content: seq<string>, code: nat)

  /** The meaning of framing. `started` says whether a block is open: a continuation line before
      the first block belongs to nothing. None means the input ended before the reply did. */
  function Frame(lines: seq<Line>, started: bool): Option<Framed> {
    if lines == [] then None
    else
      match lines[0]
      case Plain(text) => Prepend(if started then [text] else [], Frame(lines[1..], started))
      case Coded(code, sep, text) =>
        if sep == '+' then Frame(lines[1..], started)
        else if sep == '-' then Prepend([text], Frame(lines[1..], true))
        else Some(Framed([], code))
  }

  function Prepend(text: seq<string>, f: Option<Framed>): Option<Framed> {
    if f.None? then None else Some(f.value.(content := text + f.value.content))
  }

  lemma {:induction false} BlockLinesSnoc(blocks: seq<Block>, b: Block)
    ensures BlockLines(blocks + [b]) == BlockLines(blocks) + b.lines
  {
    if blocks == [] {
      assert [] + [b] == [b] && [b][1..] == [];
    } else {
      assert (blocks + [b])[0] == blocks[0] && (blocks + [b])[1..] == blocks[1..] + [b];
      BlockLinesSnoc(blocks[1..], b);
    }
  }

  lemma {:induction false} PrependTwice(x: seq<string>, y: seq<string>, f: Option<Framed>)
    ensures Prepend(x, Prepend(y, f)) == Prepend(x + y, f)
    ensures Prepend([], f) == f
  {
    if f.Some? {
      assert x + (y + f.value.content) == (x + y) + f.value.content;
      assert [] + f.value.content == f.value.content;
    }
  }

  /** What the first `n` lines say, and what the rest adds. */
  lemma {:induction false} FrameUpTo(lines: seq<string>, n: nat)
    requires n <= |lines| && forall m | 0 <= m < n :: !IsCoded(lines[m], ' ')
    ensures Frame(ParseLines(lines), false) ==
            Prepend(TextOf(lines, n), Frame(ParseLines(lines)[n..], exists m | 0 <= m < n :: IsCoded(lines[m], '-')))
  {
    var ls := ParseLines(lines);
    if n == 0 {
      assert ls[0..] == ls;
      PrependTwice([], [], Frame(ls, false));
    } else {
      FrameUpTo(lines, n - 1);
      var started := exists m | 0 <= m < n - 1 :: IsCoded(lines[m], '-');
      var now := exists m | 0 <= m < n :: IsCoded(lines[m], '-');
      var text := if IsCoded(lines[n - 1], '-') then [lines[n - 1][5..]]
                  else if IsPlain(lines[n - 1]) && started then [PlainText(lines[n - 1])] else [];
      assert ls[n - 1..][0] == ls[n - 1] && ls[n - 1..][1..] == ls[n..];
      PrependTwice(TextOf(lines, n - 1), text, Frame(ls[n..], now));
      PrependTwice([], [], Frame(ls[n..], now));
      assert now == (started || IsCoded(lines[n - 1], '-'));
      assert Frame(ls[n - 1..], started) == Prepend(text, Frame(ls[n..], now)) by { LineIs(lines[n - 1]); }
    }
  }

  lemma {:induction false} LineIs(line: string)
    ensures IsCoded(line, '-') ==> ParseLine(line) == Coded(CodeOf(line), '-', line[5..])
    ensures IsCoded(line, ' ') ==> ParseLine(line) == Coded(CodeOf(line), ' ', line[5..])
    ensures IsCoded(line, '+') ==> ParseLine(line) == Coded(CodeOf(line), '+', line[5..])
    ensures IsPlain(line) ==> ParseLine(line) == Plain(PlainText(line))
  {
  }

  /** A reply exists exactly when a line ends it; it holds the text before the first such line, and has
      that line's code. */
  lemma {:induction false} FrameByLines(lines: seq<string>)
    ensures forall k | 0 <= k < |lines| && EndsAt(lines, k) ::
              Frame(ParseLines(lines), false) == Some(Framed(TextOf(lines, k), CodeOf(lines[k])))
    ensures (forall k | 0 <= k < |lines| :: !IsCoded(lines[k], ' ')) ==> Frame(ParseLines(lines), false).None?
  {
    var ls := ParseLines(lines);
    forall k | 0 <= k < |lines| && EndsAt(lines, k)
      ensures Frame(ls, false) == Some(Framed(TextOf(lines, k), CodeOf(lines[k])))
    {
      FrameUpTo(lines, k);
      LineIs(lines[k]);
      assert ls[k..][0] == ls[k];
      assert TextOf(lines, k) + [] == TextOf(lines, k);
    }
    if forall k | 0 <= k < |lines| :: !IsCoded(lines[k], ' ') {
      FrameUpTo(lines, |lines|);
      assert ls[|lines|..] == [];
    }
  }

  lemma {:induction false} BlocksNext(lines: seq<string>, at: seq<nat>, blocks: seq<Block>, n: nat)
    requires n < |lines| && BlocksFit(lines, at, blocks, n) && !IsCoded(lines[n], ' ')
    ensures IsCoded(lines[n], '-') ==> BlocksFit(lines, at + [n], blocks + [Block(CodeOf(lines[n]), [lines[n][5..]])], n + 1)
    ensures IsCoded(lines[n], '+') || (IsPlain(lines[n]) && blocks == []) ==> BlocksFit(lines, at, blocks, n + 1)
    ensures IsPlain(lines[n]) && blocks != [] ==> BlocksFit(lines, at, GrowLast(blocks, PlainText(lines[n])), n + 1)
  {
    if IsCoded(lines[n], '-') {
      DashNext(lines, at, blocks, n);
    } else {
      forall b | 0 <= b < |at|
        ensures BlockAt(lines, at[b], n + 1) ==
                if IsPlain(lines[n]) && b == |at| - 1 then blocks[b].(lines := blocks[b].lines + [PlainText(lines[n])]) else blocks[b]
      {
        BlockGrows(lines, at, n, b);
      }
    }
  }

  lemma {:induction false} BlockGrows(lines: seq<string>, at: seq<nat>, n: nat, b: nat)
    requires n < |lines| && b < |at| && Ascending(at) && (forall i | 0 <= i < n :: i in at <==> IsCoded(lines[i], '-'))
    requires forall c | 0 <= c < |at| :: at[c] < n && IsCoded(lines[at[c]], '-')
    ensures BlockAt(lines, at[b], n + 1) ==
            var before := BlockAt(lines, at[b], n);
            if IsPlain(lines[n]) && b == |at| - 1 then before.(lines := before.lines + [PlainText(lines[n])]) else before
  {
    LastIsMost(at);
    if b < |at| - 1 {
      assert at[b] < at[|at| - 1] < n && IsCoded(lines[at[|at| - 1]], '-');
    } else {
      assert forall m | at[b] < m < n :: m !in at;
    }
  }

  lemma {:induction false} LastIsMost(at: seq<nat>)
    requires Ascending(at) && at != []
    ensures forall m | m in at :: m <= at[|at| - 1]
  {
  }

  lemma {:induction false} DashNext(lines: seq<string>, at: seq<nat>, blocks: seq<Block>, n: nat)
    requires n < |lines| && BlocksFit(lines, at, blocks, n) && IsCoded(lines[n], '-')
    ensures BlocksFit(lines, at + [n], blocks + [Block(CodeOf(lines[n]), [lines[n][5..]])], n + 1)
  {
    forall b | 0 <= b < |at|
      ensures BlockAt(lines, at[b], n + 1) == blocks[b]
    {
      BlockGrows(lines, at, n, b);
    }
    forall i | 0 <= i < n + 1
      ensures i in at + [n] <==> IsCoded(lines[i], '-')
    {
      if i < n { assert i in at <==> IsCoded(lines[i], '-'); }
    }
  }

  /** The text in the blocks is the text so far. */
  lemma {:induction false} TextNext(lines: seq<string>, at: seq<nat>, blocks: seq<Block>, n: nat)
    requires n < |lines| && BlocksFit(lines, at, blocks, n) && BlockLines(blocks) == TextOf(lines, n)
    ensures TextOf(lines, n + 1) ==
            BlockLines(blocks) + if IsCoded(lines[n], '-') then [lines[n][5..]]
                                 else if IsPlain(lines[n]) && blocks != [] then [PlainText(lines[n])] else []
  {
    if at != [] { assert IsCoded(lines[at[0]], '-'); }
    if m :| 0 <= m < n && IsCoded(lines[m], '-') { assert m in at; }
  }

  /** What a line that does not end the reply makes of the blocks. */
  function BlocksAfter(blocks: seq<Block>, line: string): seq<Block> {
    match ParseLine(line)
    case Plain(text) => if blocks != [] then GrowLast(blocks, text) else blocks
    case Coded(code, sep, text) => if sep == '-' then blocks + [Block(code, [text])] else blocks
  }

  lemma {:induction false} BlocksStep(lines: seq<string>, at: seq<nat>, blocks: seq<Block>, n: nat)
    requires n < |lines| && BlocksFit(lines, at, blocks, n) && BlockLines(blocks) == TextOf(lines, n) && !IsCoded(lines[n], ' ')
    ensures BlocksFit(lines, if IsCoded(lines[n], '-') then at + [n] else at, BlocksAfter(blocks, lines[n]), n + 1)
    ensures BlockLines(BlocksAfter(blocks, lines[n])) == TextOf(lines, n + 1)
  {
    LineIs(lines[n]);
    TextNext(lines, at, blocks, n);
    BlocksNext(lines, at, blocks, n);
    if IsCoded(lines[n], '-') { BlockLinesSnoc(blocks, Block(CodeOf(lines[n]), [lines[n][5..]])); }
  }

  /** What the loop knows after `n` lines. */
  ghost predicate FrameSoFar(lines: seq<string>, at: seq<nat>, blocks: seq<Block>, n: nat) {
    && n <= |lines| && BlocksFit(lines, at, blocks, n) && BlockLines(blocks) == TextOf(lines, n)
    && forall m | 0 <= m < n :: !IsCoded(lines[m], ' ')
  }

  lemma {:induction false} FrameGoesOn(lines: seq<string>, at: seq<nat>, blocks: seq<Block>, n: nat,
                                       at': seq<nat>, blocks': seq<Block>)
    requires n < |lines| && FrameSoFar(lines, at, blocks, n) && !IsCoded(lines[n], ' ')
    requires at' == (if IsCoded(lines[n], '-') then at + [n] else at) && blocks' == BlocksAfter(blocks, lines[n])
    ensures FrameSoFar(lines, at', blocks', n + 1)
  {
    BlocksStep(lines, at, blocks, n);
  }

  lemma {:induction false} FrameEnds(lines: seq<string>, at: seq<nat>, blocks: seq<Block>, n: nat)
    requires n < |lines| && FrameSoFar(lines, at, blocks, n) && IsCoded(lines[n], ' ')
    ensures FramedAs(lines, n, blocks, Block(CodeOf(lines[n]), [lines[n][5..]]))
    ensures Frame(ParseLines(lines), false) == Some(Framed(BlockLines(blocks), CodeOf(lines[n])))
  {
    FrameByLines(lines);
    assert EndsAt(lines, n);
  }

  /** Reads one line that does not end the reply. */
  method ReadFrameLine(blocks: seq<Block>, line: string) returns (blocks': seq<Block>)
    requires !IsCoded(line, ' ')
    ensures blocks' == BlocksAfter(blocks, line)
  {
    blocks' := blocks;
    match ParseLine(line) {
      case Plain(text) =>
        if blocks != [] {
          blocks' := GrowLast(blocks, text);
        }
      case Coded(code, sep, text) =>
        if sep == '-' {
          blocks' := blocks + [Block(code, [text])];
        }
    }
  }

  /** Reads lines until a space-terminated one closes the reply, growing the open block. */
  method ReadFrame(lines: seq<string>) returns (r: Option<Reply>)
    ensures r.Some? ==> exists k: nat :: FramedAs(lines, k, r.value.blocks, r.value.terminal)
    ensures r.None? ==> forall k | 0 <= k < |lines| :: !IsCoded(lines[k], ' ')
    ensures var f := Frame(ParseLines(lines), false);
      && (r.Some? <==> f.Some?)
      && (r.Some? ==> BlockLines(r.value.blocks) == f.value.content && r.value.terminal.code == f.value.code)
  {
    ghost var at: seq<nat> := [];
    var blocks: seq<Block> := [];
    var k: nat := 0;
    while k < |lines|
      invariant k <= |lines| && FrameSoFar(lines, at, blocks, k)
    {
      LineIs(lines[k]);
      match ParseLine(lines[k]) {
        case Coded(code, ' ', text) =>
          FrameEnds(lines, at, blocks, k);
          return Some(Reply(blocks, Block(code, [text])));
        case _ =>
      }
      ghost var at': seq<nat>, before := if IsCoded(lines[k], '-') then at + [k] else at, blocks;
      blocks := ReadFrameLine(blocks, lines[k]);
      FrameGoesOn(lines, at, before, k, at', blocks);
      at := at';
      k := k + 1;
    }
    FrameByLines(lines);
    return None;
  }

  /** A continuation line goes to the open block. */
  function GrowLast(blocks: seq<Block>, text: string): (r: seq<Block>)
    requires blocks != []
    ensures r != [] && BlockLines(r) == BlockLines(blocks) + [text]
    ensures var cur := |blocks| - 1; r == blocks[cur := blocks[cur].(lines := blocks[cur].lines + [text])]
  {
    var cur := |blocks| - 1;
    var grown := blocks[cur].(lines := blocks[cur].lines + [text]);
    BlockLinesSnoc(blocks[..cur], blocks[cur]);
    BlockLinesSnoc(blocks[..cur], grown);
    assert blocks == blocks[..cur] + [blocks[cur]];
    blocks[..cur] + [grown]
  }

  // ----- routes

  datatype RouteTable<E> = RouteTable(name: string, routes: seq<E>)

  datatype Kind = Blank | TableLine(name: string) | Detail | Other

  function Classify(line: string): Kind {
    if TrimSpace(line) == "" then Blank
    else if "Table " <= line && HasSuffix(TrimSpace(line), ":") then
      TableLine(TrimSuffix(TrimSpace(TrimPrefix(line, "Table ")), ":"))
    else if "\t" <= line then Detail
    else Other
  }

  /** What has been read so far: the routes, each with the name of its table line (None before
      the first one), and whether a detail line still belongs to the last route. */
  datatype Scan<E> = Scan(entries: seq<(Option<string>, E)>, table: Option<string>, open: bool, lastNetwork: string)

  function Begin<E>(): Scan<E> { Scan([], None, false, "") }

  function AttachLast<E>(g: Grammar<E>, s: Scan<E>, line: string): Scan<E> {
    if s.open && s.entries != [] then
      var k := |s.entries| - 1;
      s.(entries := s.entries[k := (s.entries[k].0, g.attach(s.entries[k].1, line))])
    else s
  }

  /** The effect of one text line. */
  function Advance<E>(g: Grammar<E>, s: Scan<E>, raw: string): Scan<E> {
    Take(g, s, Classify(TrimSpaces(raw)), TrimSpaces(raw))
  }

  function Take<E>(g: Grammar<E>, s: Scan<E>, kind: Kind, line: string): Scan<E> {
    match kind
    case Blank => s
    case TableLine(name) => s.(table := Some(name), open := false, lastNetwork := "")
    case Detail => AttachLast(g, s, line)
    case Other =>
      match g.route(line, s.lastNetwork)
      case Some((entry, network)) =>
        s.(entries := s.entries + [(s.table, entry)], open := true, lastNetwork := network)
      case None => AttachLast(g, s, line)
  }

  function ScanAll<E>(g: Grammar<E>, s: Scan<E>, content: seq<string>): Scan<E>
    decreases |content|
  {
    if content == [] then s else ScanAll(g, Advance(g, s, content[0]), content[1..])
  }

  lemma {:induction false} ScanSnoc<E>(g: Grammar<E>, s: Scan<E>, content: seq<string>, line: string)
    ensures ScanAll(g, s, content + [line]) == Advance(g, ScanAll(g, s, content), line)
    decreases |content|
  {
    if content == [] {
      assert [] + [line] == [line] && [line][1..] == [];
    } else {
      assert (content + [line])[0] == content[0] && (content + [line])[1..] == content[1..] + [line];
      ScanSnoc(g, Advance(g, s, content[0]), content[1..], line);
    }
  }

  // ----- a scan reads the lines

  /** What is known after `n` lines: the scan so far. */
  function Scanned<E>(g: Grammar<E>, content: seq<string>, n: nat): Scan<E>
    requires n <= |content|
  {
    ScanAll(g, Begin(), content[..n])
  }

  lemma {:induction false} ScannedNext<E>(g: Grammar<E>, content: seq<string>, n: nat)
    requires n < |content|
    ensures Scanned(g, content, n + 1) == Advance(g, Scanned(g, content, n), content[n])
  {
    assert content[..n + 1] == content[..n] + [content[n]];
    ScanSnoc(g, Begin(), content[..n], content[n]);
  }

  /** The network each line is read with, and what the line then says. */
  function Carried<E>(g: Grammar<E>, content: seq<string>): (nets: seq<string>)
    ensures |nets| == |content|
    ensures forall i | 0 <= i < |content| :: nets[i] == Scanned(g, content, i).lastNetwork
  {
    seq(|content|, i requires 0 <= i < |content| => Scanned(g, content, i).lastNetwork)
  }

  function AllSaid<E>(g: Grammar<E>, content: seq<string>): (said: seq<Said<E>>)
    ensures |said| == |content|
  {
    SaidWith(g, content, Carried(g, content))
  }

  /** The effect of a line, by what it says. */
  function Heed<E>(g: Grammar<E>, s: Scan<E>, said: Said<E>): Scan<E> {
    match said
    case Nothing => s
    case Head(name) => s.(table := Some(name), open := false, lastNetwork := "")
    case Route(entry, network) => s.(entries := s.entries + [(s.table, entry)], open := true, lastNetwork := network)
    case About(text) => AttachLast(g, s, text)
  }

  lemma {:induction false} AdvanceHeeds<E>(g: Grammar<E>, s: Scan<E>, raw: string)
    ensures Advance(g, s, raw) == Heed(g, s, SaidBy(g, raw, s.lastNetwork))
  {
    var line := TrimSpaces(raw);
    if "Table " <= line { assert TrimPrefix(line, "Table ") == line[6..] && line[0] == 'T'; }
    if "\t" <= line { assert line[0] == '\t'; }
    if line != "" && line[0] == '\t' { assert "\t" <= line; }
  }

  /** The scans between the lines: each line is heeded. */
  ghost predicate Heeds<E>(g: Grammar<E>, scans: seq<Scan<E>>, said: seq<Said<E>>) {
    && |scans| == |said| + 1 && scans[0] == Begin()
    && forall k | 0 <= k < |said| :: HeedsAt(g, scans, said, k)
  }

  ghost predicate HeedsAt<E>(g: Grammar<E>, scans: seq<Scan<E>>, said: seq<Said<E>>, k: nat)
    requires k < |said| < |scans|
  {
    scans[k + 1] == Heed(g, scans[k], said[k])
  }

  function Scans<E>(g: Grammar<E>, content: seq<string>): (scans: seq<Scan<E>>)
    ensures |scans| == |content| + 1
  {
    seq(|content| + 1, k requires 0 <= k <= |content| => Scanned(g, content, k))
  }

  lemma {:induction false} HeedsNext<E>(g: Grammar<E>, content: seq<string>, k: nat)
    requires k < |content|
    ensures HeedsAt(g, Scans(g, content), AllSaid(g, content), k)
  {
    var s := Scanned(g, content, k);
    assert Scans(g, content)[k] == s && Scans(g, content)[k + 1] == Scanned(g, content, k + 1);
    assert AllSaid(g, content)[k] == SaidBy(g, content[k], s.lastNetwork);
    ScannedNext(g, content, k);
    AdvanceHeeds(g, s, content[k]);
  }

  lemma {:induction false} ScansHeed<E>(g: Grammar<E>, content: seq<string>)
    ensures Heeds(g, Scans(g, content), AllSaid(g, content))
    ensures forall k | 0 <= k < |content| :: Carried(g, content)[k] == Scans(g, content)[k].lastNetwork
  {
    var scans, said := Scans(g, content), AllSaid(g, content);
    assert content[..0] == [];
    forall k | 0 <= k < |said|
      ensures HeedsAt(g, scans, said, k)
    {
      HeedsNext(g, content, k);
    }
  }

  lemma {:induction false} NetworkNext<E>(said: seq<Said<E>>, i: nat, network: string)
    requires i < |said| && NetworkFits(said, i, network)
    ensures NetworkFits(said, i + 1, match said[i] case Head(_) => "" case Route(_, next) => next case _ => network)
  {
    if !said[i].Head? && !said[i].Route? {
      if j: nat :| NearestRoute(said, i, j) && network == said[j].network {
        assert NearestRoute(said, i + 1, j);
      } else {
        NoRouteStays(said, i);
      }
    } else if said[i].Route? {
      assert NearestRoute(said, i + 1, i);
    }
  }

  lemma {:induction false} NoRouteStays<E>(said: seq<Said<E>>, i: nat)
    requires i < |said| && NoRoute(said, i) && !said[i].Route?
    ensures NoRoute(said, i + 1)
  {
    forall j | 0 <= j < i + 1 && said[j].Route?
      ensures exists m | j < m < i + 1 :: said[m].Head?
    {
      var m :| j < m < i && said[m].Head?;
      assert j < m < i + 1;
    }
  }

  lemma {:induction false} CarriedFits<E>(g: Grammar<E>, scans: seq<Scan<E>>, said: seq<Said<E>>, i: nat)
    requires Heeds(g, scans, said) && i <= |said|
    ensures NetworkFits(said, i, scans[i].lastNetwork)
  {
    if i > 0 {
      CarriedFits(g, scans, said, i - 1);
      assert HeedsAt(g, scans, said, i - 1);
      NetworkNext(said, i - 1, scans[i - 1].lastNetwork);
    }
  }

  lemma {:induction false} TableNext<E>(said: seq<Said<E>>, i: nat, table: Option<string>)
    requires i < |said| && TableFits(said, i, table)
    ensures TableFits(said, i + 1, match said[i] case Head(name) => Some(name) case _ => table)
  {
    if !said[i].Head? && table.Some? {
      var j :| 0 <= j < i && said[j].Head? && said[j].name == table.value && forall m | j < m < i :: !said[m].Head?;
      assert forall m | j < m < i + 1 :: !said[m].Head?;
    }
  }

  lemma {:induction false} ScannedTable<E>(g: Grammar<E>, scans: seq<Scan<E>>, said: seq<Said<E>>, i: nat)
    requires Heeds(g, scans, said) && i <= |said|
    ensures TableFits(said, i, scans[i].table)
  {
    if i > 0 {
      ScannedTable(g, scans, said, i - 1);
      assert HeedsAt(g, scans, said, i - 1);
      TableNext(said, i - 1, scans[i - 1].table);
    }
  }

  /** The route lines among the first `n`. */
  function RouteLinesOf<E>(said: seq<Said<E>>, n: nat): seq<nat>
    requires n <= |said|
  {
    if n == 0 then [] else RouteLinesOf(said, n - 1) + if said[n - 1].Route? then [n - 1] else []
  }

  /** The last entry can still get details: no table line follows its route line. */
  ghost predicate OpenFits<E>(said: seq<Said<E>>, at: seq<nat>, n: nat, open: bool)
    requires n <= |said|
  {
    open <==> at != [] && at[|at| - 1] < n && forall m | at[|at| - 1] < m < n :: !said[m].Route? && !said[m].Head?
  }

  lemma {:induction false} DetailedNext<E>(g: Grammar<E>, said: seq<Said<E>>, i: nat, n: nat)
    requires i < n < |said| && said[i].Route?
    ensures Detailed(g, said, i, n + 1) ==
            if BelongsTo(said, n, i) then g.attach(Detailed(g, said, i, n), said[n].text) else Detailed(g, said, i, n)
  {
  }

  /** A detail belongs to the last route, if that one is open, and to no other. */
  lemma {:induction false} EntriesAttach<E>(g: Grammar<E>, said: seq<Said<E>>, at: seq<nat>, s: Scan<E>, n: nat)
    requires n < |said| && EntriesFit(g, said, at, s.entries, n) && OpenFits(said, at, n, s.open) && said[n].About?
    ensures EntriesFit(g, said, at, AttachLast(g, s, said[n].text).entries, n + 1)
  {
    forall k | 0 <= k < |at|
      ensures var after := AttachLast(g, s, said[n].text).entries;
        after[k].0 == s.entries[k].0 && after[k].1 == Detailed(g, said, at[k], n + 1)
    {
      DetailedNext(g, said, at[k], n);
      if k < |at| - 1 { assert said[at[|at| - 1]].Route? && at[k] < at[|at| - 1] < n; }
    }
  }

  lemma {:induction false} EntriesStay<E>(g: Grammar<E>, said: seq<Said<E>>, at: seq<nat>, entries: seq<(Option<string>, E)>, n: nat)
    requires n < |said| && EntriesFit(g, said, at, entries, n) && (said[n].Nothing? || said[n].Head?)
    ensures EntriesFit(g, said, at, entries, n + 1)
  {
    forall k | 0 <= k < |at|
      ensures entries[k].1 == Detailed(g, said, at[k], n + 1)
    {
      DetailedNext(g, said, at[k], n);
    }
  }

  lemma {:induction false} EntriesRoute<E>(g: Grammar<E>, said: seq<Said<E>>, at: seq<nat>, entries: seq<(Option<string>, E)>,
                                           table: Option<string>, n: nat)
    requires n < |said| && EntriesFit(g, said, at, entries, n) && said[n].Route? && TableFits(said, n, table)
    ensures EntriesFit(g, said, at + [n], entries + [(table, said[n].entry)], n + 1)
  {
    forall k | 0 <= k < |at|
      ensures entries[k].1 == Detailed(g, said, at[k], n + 1)
    {
      DetailedNext(g, said, at[k], n);
    }
    forall i | 0 <= i < n + 1
      ensures i in at + [n] <==> said[i].Route?
    {
      if i < n { assert i in at <==> said[i].Route?; }
    }
  }

  lemma {:induction false} OpenNext<E>(said: seq<Said<E>>, at: seq<nat>, n: nat, open: bool)
    requires n < |said| && OpenFits(said, at, n, open) && !said[n].Route? && (forall k | 0 <= k < |at| :: at[k] < n)
    ensures OpenFits(said, at, n + 1, open && !said[n].Head?)
  {
  }

  /** The first `n` lines are read: what is scanned fits them. */
  ghost predicate EntriesKnown<E>(g: Grammar<E>, said: seq<Said<E>>, s: Scan<E>, n: nat)
    requires n <= |said|
  {
    var at := RouteLinesOf(said, n);
    EntriesFit(g, said, at, s.entries, n) && OpenFits(said, at, n, s.open)
  }

  lemma {:induction false} NextKnown<E>(g: Grammar<E>, scans: seq<Scan<E>>, said: seq<Said<E>>, k: nat)
    requires k < |said| < |scans| && HeedsAt(g, scans, said, k)
    requires EntriesKnown(g, said, scans[k], k) && TableFits(said, k, scans[k].table)
    ensures EntriesKnown(g, said, scans[k + 1], k + 1)
  {
    HeedFits(g, said, scans[k], k);
  }

  lemma {:induction false} ScannedEntries<E>(g: Grammar<E>, scans: seq<Scan<E>>, said: seq<Said<E>>, n: nat)
    requires Heeds(g, scans, said) && n <= |said|
    ensures EntriesKnown(g, said, scans[n], n)
  {
    if n > 0 {
      var k := n - 1;
      ScannedEntries(g, scans, said, k);
      ScannedTable(g, scans, said, k);
      assert HeedsAt(g, scans, said, k);
      NextKnown(g, scans, said, k);
    }
  }

  lemma {:induction false} HeedFits<E>(g: Grammar<E>, said: seq<Said<E>>, s: Scan<E>, n: nat)
    requires n < |said| && EntriesKnown(g, said, s, n) && TableFits(said, n, s.table)
    ensures EntriesKnown(g, said, Heed(g, s, said[n]), n + 1)
  {
    var at := RouteLinesOf(said, n);
    assert at + [] == at;
    match said[n] {
      case Route(_, _) => EntriesRoute(g, said, at, s.entries, s.table, n);
      case About(_) =>
        EntriesAttach(g, said, at, s, n);
        OpenNext(said, at, n, s.open);
      case _ =>
        EntriesStay(g, said, at, s.entries, n);
        OpenNext(said, at, n, s.open);
    }
  }

  /** The entries of a scan are what the lines say. */
  lemma {:induction false} ScanReads<E>(g: Grammar<E>, content: seq<string>)
    ensures Reads(g, content, ScanAll(g, Begin(), content).entries)
    ensures NetworksFit(g, content, Carried(g, content))
  {
    var nets, said, scans := Carried(g, content), AllSaid(g, content), Scans(g, content);
    ScansHeed(g, content);
    forall i | 0 <= i < |content|
      ensures NetworkFits(said, i, nets[i])
    {
      CarriedFits(g, scans, said, i);
    }
    ScannedEntries(g, scans, said, |content|);
    assert content[..|content|] == content;
    assert NetworksFit(g, content, nets) && EntriesKnown(g, said, scans[|content|], |content|);
    assert EntriesFit(g, said, RouteLinesOf(said, |content|), scans[|content|].entries, |content|);
  }

  /** The routes a whole reply holds, in order, each under the name of its table. */
  function Named<E>(entries: seq<(Option<string>, E)>, unnamed: string): (r: seq<(string, E)>)
    ensures |r| == |entries|
    ensures forall k | 0 <= k < |r| ::
              r[k] == (if entries[k].0.Some? then entries[k].0.value else unnamed, entries[k].1)
  {
    seq(|entries|, k requires 0 <= k < |entries| =>
      (if entries[k].0.Some? then entries[k].0.value else unnamed, entries[k].1))
  }

  function TableRoutes<E>(t: RouteTable<E>): (r: seq<(string, E)>)
    ensures |r| == |t.routes| && forall k | 0 <= k < |r| :: r[k] == (t.name, t.routes[k])
  {
    seq(|t.routes|, k requires 0 <= k < |t.routes| => (t.name, t.routes[k]))
  }

  function AllRoutes<E>(tables: seq<RouteTable<E>>): seq<(string, E)> {
    if tables == [] then [] else AllRoutes(tables[..|tables| - 1]) + TableRoutes(tables[|tables| - 1])
  }

  lemma {:induction false} AllRoutesSnoc<E>(tables: seq<RouteTable<E>>, t: RouteTable<E>)
    ensures AllRoutes(tables + [t]) == AllRoutes(tables) + TableRoutes(t)
  {
    assert (tables + [t])[..|tables|] == tables;
  }

  lemma {:induction false} AllRoutesUpdate<E>(tables: seq<RouteTable<E>>, t: RouteTable<E>)
    requires tables != []
    ensures AllRoutes(tables[|tables| - 1 := t]) == AllRoutes(tables[..|tables| - 1]) + TableRoutes(t)
  {
    assert tables[|tables| - 1 := t][..|tables| - 1] == tables[..|tables| - 1];
  }

  /** The tables a whole-reply parse has built represent a scan. */
  ghost predicate Represents<E>(tables: seq<RouteTable<E>>, s: Scan<E>, lastNetwork: string, attached: bool) {
    && AllRoutes(tables) == Named(s.entries, "master")
    && (s.table.Some? ==> tables != [] && tables[|tables| - 1].name == s.table.value)
    && (s.table.None? ==> if s.entries == [] then tables == [] else |tables| == 1 && tables[0].name == "master")
    && attached == s.open && (s.open ==> tables != [] && tables[|tables| - 1].routes != [])
    && (s.open ==> s.entries != [])
    && lastNetwork == s.lastNetwork
  }

  function AttachToLast<E>(g: Grammar<E>, tables: seq<RouteTable<E>>, line: string): seq<RouteTable<E>>
    requires tables != [] && tables[|tables| - 1].routes != []
  {
    var t := tables[|tables| - 1];
    var k := |t.routes| - 1;
    tables[|tables| - 1 := t.(routes := t.routes[k := g.attach(t.routes[k], line)])]
  }

  lemma {:induction false} UpdateTail<T>(a: seq<T>, b: seq<T>, x: T)
    requires b != []
    ensures (a + b)[|a + b| - 1 := x] == a + b[|b| - 1 := x]
  {
  }

  lemma {:induction false} NamedUpdate<E>(entries: seq<(Option<string>, E)>, e: E)
    requires entries != []
    ensures var n := |entries| - 1;
      Named(entries[n := (entries[n].0, e)], "master") == Named(entries, "master")[n := (Named(entries, "master")[n].0, e)]
  {
  }

  lemma {:induction false} RoutesUpdate<E>(t: RouteTable<E>, e: E)
    requires t.routes != []
    ensures var k := |t.routes| - 1;
      TableRoutes(t.(routes := t.routes[k := e])) == TableRoutes(t)[k := (t.name, e)]
  {
  }

  lemma {:induction false} RepresentsAttach<E>(tables: seq<RouteTable<E>>, s: Scan<E>, g: Grammar<E>, line: string)
    requires Represents(tables, s, s.lastNetwork, true)
    ensures Represents(AttachToLast(g, tables, line), AttachLast(g, s, line), s.lastNetwork, true)
  {
    var t := tables[|tables| - 1];
    var k, n := |t.routes| - 1, |s.entries| - 1;
    var before := AllRoutes(tables[..|tables| - 1]);
    assert before + TableRoutes(t) == Named(s.entries, "master");
    assert (before + TableRoutes(t))[n] == TableRoutes(t)[k];
    var e := g.attach(t.routes[k], line);
    assert e == g.attach(s.entries[n].1, line);
    AllRoutesUpdate(tables, t.(routes := t.routes[k := e]));
    UpdateTail(before, TableRoutes(t), (t.name, e));
    RoutesUpdate(t, e);
    NamedUpdate(s.entries, e);
  }

  lemma {:induction false} RepresentsTable<E>(tables: seq<RouteTable<E>>, s: Scan<E>, attached: bool, name: string)
    requires Represents(tables, s, s.lastNetwork, attached)
    ensures Represents(tables + [RouteTable(name, [])], s.(table := Some(name), open := false, lastNetwork := ""), "", false)
  {
    AllRoutesSnoc(tables, RouteTable(name, []));
  }

  lemma {:induction false} RepresentsRoute<E>(tables: seq<RouteTable<E>>, s: Scan<E>, attached: bool, entry: E, network: string)
    requires Represents(tables, s, s.lastNetwork, attached)
    ensures var tables0 := if tables == [] then [RouteTable("master", [])] else tables;
      var t := tables0[|tables0| - 1];
      Represents(tables0[|tables0| - 1 := t.(routes := t.routes + [entry])],
                 s.(entries := s.entries + [(s.table, entry)], open := true, lastNetwork := network), network, true)
  {
    var tables0 := if tables == [] then [RouteTable("master", [])] else tables;
    var t := tables0[|tables0| - 1];
    var t' := t.(routes := t.routes + [entry]);
    AllRoutesUpdate(tables0, t');
    if tables == [] { AllRoutesSnoc(tables, tables0[0]); }
    var before := AllRoutes(tables0[..|tables0| - 1]);
    assert before + TableRoutes(t) == Named(s.entries, "master");
    assert TableRoutes(t') == TableRoutes(t) + [(t.name, entry)];
    assert before + TableRoutes(t') == Named(s.entries + [(s.table, entry)], "master");
  }

  function TableNames<E>(tables: seq<RouteTable<E>>): (names: seq<string>)
    ensures |names| == |tables| && forall k | 0 <= k < |names| :: names[k] == tables[k].name
  {
    seq(|tables|, k requires 0 <= k < |tables| => tables[k].name)
  }

  lemma {:induction false} NamesOfMore<E>(tables: seq<RouteTable<E>>, t: RouteTable<E>)
    ensures TableNames(tables + [t]) == TableNames(tables) + [t.name]
    ensures tables != [] && t.name == tables[|tables| - 1].name ==> TableNames(tables[|tables| - 1 := t]) == TableNames(tables)
  {
  }

  /** "master" comes first when routes precede every table line. */
  function Lead<E>(entries: seq<(Option<string>, E)>): seq<string> {
    if entries != [] && entries[0].0.None? then ["master"] else []
  }

  function HeadList(raw: string): seq<string> { if HeadOf(raw).Some? then [HeadOf(raw).value] else [] }

  lemma {:induction false} HeadIsTableLine(raw: string)
    ensures Classify(TrimSpaces(raw)).TableLine? <==> HeadOf(raw).Some?
    ensures HeadOf(raw).Some? ==> Classify(TrimSpaces(raw)) == TableLine(HeadOf(raw).value)
  {
    var line := TrimSpaces(raw);
    if "Table " <= line { assert TrimPrefix(line, "Table ") == line[6..]; }
  }

  /** The body of the parse loop: reads one text line. */
  method ParseTextLine<E>(g: Grammar<E>, tables: seq<RouteTable<E>>, attached: bool, lastNetwork: string, raw: string,
                          ghost s: Scan<E>)
    returns (tables': seq<RouteTable<E>>, attached': bool, lastNetwork': string)
    requires Represents(tables, s, lastNetwork, attached)
    ensures Represents(tables', Advance(g, s, raw), lastNetwork', attached')
    ensures TableNames(tables') == (if tables == [] && tables' != [] && HeadOf(raw).None? then ["master"] else TableNames(tables))
                                   + HeadList(raw)
  {
    HeadIsTableLine(raw);
    tables', attached', lastNetwork' := tables, attached, lastNetwork;
    var line := TrimSpaces(raw);
    match Classify(line) {
      case Blank =>
      case TableLine(name) =>
        RepresentsTable(tables, s, attached, name);
        NamesOfMore(tables, RouteTable(name, []));
        return tables + [RouteTable(name, [])], false, "";
      case Detail =>
        if attached {
          tables' := AttachText(g, tables, line, s);
        }
      case Other =>
        match g.route(line, lastNetwork) {
          case Some((entry, network)) =>
            RepresentsRoute(tables, s, attached, entry, network);
            tables' := AddRoute(tables, entry);
            return tables', true, network;
          case None =>
            if attached {
              tables' := AttachText(g, tables, line, s);
            }
        }
    }
  }

  method AttachText<E>(g: Grammar<E>, tables: seq<RouteTable<E>>, line: string, ghost s: Scan<E>) returns (tables': seq<RouteTable<E>>)
    requires Represents(tables, s, s.lastNetwork, true)
    ensures Represents(tables', AttachLast(g, s, line), s.lastNetwork, true)
    ensures TableNames(tables') == TableNames(tables) && tables != []
  {
    RepresentsAttach(tables, s, g, line);
    tables' := AttachToLast(g, tables, line);
    NamesOfMore(tables, tables'[|tables'| - 1]);
  }

  /** Adds a route to the open table; without one it opens "master". */
  method AddRoute<E>(tables: seq<RouteTable<E>>, entry: E) returns (tables': seq<RouteTable<E>>)
    ensures var tables0 := if tables == [] then [RouteTable("master", [])] else tables;
      var t := tables0[|tables0| - 1];
      tables' == tables0[|tables0| - 1 := t.(routes := t.routes + [entry])]
    ensures TableNames(tables') == if tables == [] then ["master"] else TableNames(tables)
  {
    tables' := tables;
    if tables == [] {
      tables' := [RouteTable("master", [])];
    }
    var cur := tables'[|tables'| - 1];
    NamesOfMore(tables', cur.(routes := cur.routes + [entry]));
    tables' := tables'[|tables'| - 1 := cur.(routes := cur.routes + [entry])];
  }

  lemma {:induction false} NoTables<E>(tables: seq<RouteTable<E>>, s: Scan<E>, lastNetwork: string, attached: bool)
    requires Represents(tables, s, lastNetwork, attached)
    ensures tables == [] <==> s.table.None? && s.entries == []
  {
    if tables == [] { assert |Named(s.entries, "master")| == 0; }
  }

  lemma {:induction false} LeadNext<E>(g: Grammar<E>, s: Scan<E>, raw: string)
    ensures var t := Advance(g, s, raw);
      && Lead(t.entries) == (if s.entries == [] && t.entries != [] then (if s.table.None? then ["master"] else []) else Lead(s.entries))
      && |s.entries| <= |t.entries| && (HeadOf(raw).None? ==> t.table == s.table)
      && (HeadOf(raw).Some? ==> t.entries == s.entries && t.table.Some?)
  {
    HeadIsTableLine(raw);
  }

  lemma {:induction false} NamesNext<E>(g: Grammar<E>, names: seq<string>, names': seq<string>, s: Scan<E>, raw: string,
                                        heads: seq<string>)
    requires names == Lead(s.entries) + heads && (names == [] <==> s.table.None? && s.entries == [])
    requires var t := Advance(g, s, raw); names' == [] <==> t.table.None? && t.entries == []
    requires names' == (if names == [] && names' != [] && HeadOf(raw).None? then ["master"] else names) + HeadList(raw)
    ensures names' == Lead(Advance(g, s, raw).entries) + (heads + HeadList(raw))
  {
    LeadNext(g, s, raw);
  }

  lemma {:induction false} HeadsNext(content: seq<string>, k: nat)
    requires k < |content|
    ensures Heads(content[..k + 1]) == Heads(content[..k]) + HeadList(content[k])
  {
    assert content[..k + 1][..k] == content[..k];
  }

  /** Parses the text lines of a whole reply into per-table route lists: what the lines say, under one
      table per table line, and "master" before them when routes come first. */
  method ParseRoutes<E>(g: Grammar<E>, content: seq<string>) returns (tables: seq<RouteTable<E>>)
    ensures var entries := ScanAll(g, Begin(), content).entries;
      && Reads(g, content, entries) && AllRoutes(tables) == Named(entries, "master")
      && TableNames(tables) == Lead(entries) + Heads(content)
  {
    ScanReads(g, content);
    tables := [];
    var attached, lastNetwork := false, "";
    ghost var s: Scan<E> := Begin();
    for k := 0 to |content|
      invariant s == Scanned(g, content, k)
      invariant Represents(tables, s, lastNetwork, attached)
      invariant TableNames(tables) == Lead(s.entries) + Heads(content[..k])
    {
      ScannedNext(g, content, k);
      HeadsNext(content, k);
      ghost var names := TableNames(tables);
      NoTables(tables, s, lastNetwork, attached);
      tables, attached, lastNetwork := ParseTextLine(g, tables, attached, lastNetwork, content[k], s);
      NoTables(tables, Advance(g, s, content[k]), lastNetwork, attached);
      NamesNext(g, names, TableNames(tables), s, content[k], Heads(content[..k]));
      s := Advance(g, s, content[k]);
    }
    assert content[..|content|] == content;
  }
}
