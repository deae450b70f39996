/** What the lines of a reply mean, said of the lines themselves: where a reply ends and which text it
    holds, which lines are routes, of which table, read with which network, and which lines belong to
    them. How one route line and one detail line read is a parameter (`Grammar`).
    (internal/birdc/client.go, readFrame; internal/birdc/parser.go, ParseRoutes) */
module RouteLines {
  import opened Options
  import opened Text

  // ----- framing

  /** A line is coded when it starts with four digits and a separator. */
  predicate IsCoded(line: string, sep: char) {
    |line| >= 5 && (forall i | 0 <= i < 4 :: IsDigit(line[i])) && line[4] == sep
  }

  /** A line that is part of no code: it continues the open block, one leading space off. */
  predicate IsPlain(line: string) { !IsCoded(line, ' ') && !IsCoded(line, '-') && !IsCoded(line, '+') }

  function PlainText(line: string): string { if line != "" && line[0] == ' ' then line[1..] else line }

  function Digit(c: char): nat
    requires IsDigit(c)
  {
    (c - '0') as nat
  }

  function CodeOf(line: string): nat
    requires |line| >= 4 && forall i | 0 <= i < 4 :: IsDigit(line[i])
  {
    Digit(line[0]) * 1000 + Digit(line[1]) * 100 + Digit(line[2]) * 10 + Digit(line[3])
  }

  /** The text of the first `n` lines: that of the '-' lines, and of the plain lines after one. */
  ghost function TextOf(lines: seq<string>, n: nat): seq<string>
    requires n <= |lines|
  {
    if n == 0 then []
    else
      var l := lines[n - 1];
      TextOf(lines, n - 1)
      + if IsCoded(l, '-') then [l[5..]]
        else if IsPlain(l) && exists m | 0 <= m < n - 1 :: IsCoded(lines[m], '-') then [PlainText(l)]
        else []
  }

  /** The first line that ends a reply. */
  ghost predicate EndsAt(lines: seq<string>, k: nat) {
    k < |lines| && IsCoded(lines[k], ' ') && forall m | 0 <= m < k :: !IsCoded(lines[m], ' ')
  }

  datatype Block = Block(code: nat, lines: seq<string>)

  /** The block that starts at line `i`, as far as the first `n` lines go: its own text, and every
      plain line before the next block. */
  ghost function BlockAt(lines: seq<string>, i: nat, n: nat): Block
    requires i < n <= |lines| && IsCoded(lines[i], '-')
  {
    if n == i + 1 then Block(CodeOf(lines[i]), [lines[i][5..]])
    else
      var before := BlockAt(lines, i, n - 1);
      if IsPlain(lines[n - 1]) && forall m | i < m < n - 1 :: !IsCoded(lines[m], '-') then
        before.(lines := before.lines + [PlainText(lines[n - 1])])
      else before
  }

  /** One block per '-' line among the first `n`, in order. */
  ghost predicate BlocksFit(lines: seq<string>, at: seq<nat>, blocks: seq<Block>, n: nat)
    requires n <= |lines|
  {
    && Ascending(at) && |blocks| == |at|
    && (forall i | 0 <= i < n :: i in at <==> IsCoded(lines[i], '-'))
    && forall b | 0 <= b < |at| :: at[b] < n && IsCoded(lines[at[b]], '-') && blocks[b] == BlockAt(lines, at[b], n)
  }

  /** A reply that ends at line `k`: its blocks, and the line that ends it. */
  ghost predicate FramedAs(lines: seq<string>, k: nat, blocks: seq<Block>, terminal: Block) {
    && EndsAt(lines, k) && terminal == Block(CodeOf(lines[k]), [lines[k][5..]])
    && exists at: seq<nat> :: BlocksFit(lines, at, blocks, k)
  }

  // ----- routes

  /** How one line is read as a route, given the network of the line above, and how a detail
      line is attached to a route. */
  datatype Grammar<!E> = Grammar(route: (string, string) -> Option<(E, string)>, attach: (E, string) -> E)

  /** The line without the spaces at its end. */
  function TrimSpaces(s: string): (t: string)
    ensures t <= s && (forall k | |t| <= k < |s| :: s[k] == ' ') && (t != "" ==> t[|t| - 1] != ' ')
  {
    if s != "" && s[|s| - 1] == ' ' then TrimSpaces(s[..|s| - 1]) else s
  }

  /** What one line says: nothing, the name of a table, a route and the network it leaves for the next
      line, or some text about the route before it. */
  datatype Said<+E> = Nothing | Head(name: string) | Route(entry: E, network: string) | About(text: string)

  /** The table a line opens. */
  function HeadOf(raw: string): Option<string> {
    var line := TrimSpaces(raw);
    if "Table " <= line && HasSuffix(TrimSpace(line), ":") then Some(TrimSuffix(TrimSpace(line[6..]), ":")) else None
  }

  /** The names of the table lines, in order. */
  function Heads(content: seq<string>): seq<string> {
    if content == [] then []
    else
      var n := |content| - 1;
      Heads(content[..n]) + if HeadOf(content[n]).Some? then [HeadOf(content[n]).value] else []
  }

  /** A line, spaces at its end off, read with a network: blank ones say nothing, "Table NAME:" opens a
      table, one that starts with a tab is a detail, and so is one that does not read as a route. */
  function SaidBy<E>(g: Grammar<E>, raw: string, network: string): Said<E> {
    var line := TrimSpaces(raw);
    if TrimSpace(line) == "" then Nothing
    else if HeadOf(raw).Some? then Head(HeadOf(raw).value)
    else if line[0] == '\t' then About(line)
    else
      match g.route(line, network)
      case Some((entry, next)) => Route(entry, next)
      case None => About(line)
  }

  /** The nearest route line before line `i`, with no table line between. */
  ghost predicate NearestRoute<E>(said: seq<Said<E>>, i: nat, j: nat)
    requires i <= |said|
  {
    j < i && said[j].Route? && forall m | j < m < i :: !said[m].Route? && !said[m].Head?
  }

  /** There is none: a table line stands after every route line. */
  ghost predicate NoRoute<E>(said: seq<Said<E>>, i: nat)
    requires i <= |said|
  {
    forall j | 0 <= j < i && said[j].Route? :: exists m | j < m < i :: said[m].Head?
  }

  /** The network line `i` is read with is that which the nearest route line left, or none. */
  ghost predicate NetworkFits<E>(said: seq<Said<E>>, i: nat, network: string)
    requires i <= |said|
  {
    || (exists j: nat :: NearestRoute(said, i, j) && network == said[j].network)
    || (network == "" && NoRoute(said, i))
  }

  /** What the lines say when each is read with a network. */
  function SaidWith<E>(g: Grammar<E>, content: seq<string>, nets: seq<string>): (said: seq<Said<E>>)
    requires |nets| == |content|
    ensures |said| == |content| && forall i | 0 <= i < |content| :: said[i] == SaidBy(g, content[i], nets[i])
  {
    seq(|content|, i requires 0 <= i < |content| => SaidBy(g, content[i], nets[i]))
  }

  /** Every line is read with the network that fits. */
  ghost predicate NetworksFit<E>(g: Grammar<E>, content: seq<string>, nets: seq<string>) {
    |nets| == |content| && forall i | 0 <= i < |content| :: NetworkFits(SaidWith(g, content, nets), i, nets[i])
  }

  /** The table of line `i`: the nearest table line before it. */
  ghost predicate TableFits<E>(said: seq<Said<E>>, i: nat, table: Option<string>)
    requires i <= |said|
  {
    match table
    case None => forall j | 0 <= j < i :: !said[j].Head?
    case Some(name) =>
      exists j | 0 <= j < i :: said[j].Head? && said[j].name == name && forall m | j < m < i :: !said[m].Head?
  }

  /** Line `m` is a detail of the route at line `i`: there is no route and no table line between. */
  ghost predicate BelongsTo<E>(said: seq<Said<E>>, m: nat, i: nat)
    requires m < |said|
  {
    i < m && said[m].About? && forall x | i < x < m :: !said[x].Route? && !said[x].Head?
  }

  /** The route at line `i`, with its details among the first `n` lines attached in order. */
  ghost function Detailed<E>(g: Grammar<E>, said: seq<Said<E>>, i: nat, n: nat): E
    requires i < n <= |said| && said[i].Route?
  {
    if n == i + 1 then said[i].entry
    else
      var before := Detailed(g, said, i, n - 1);
      if BelongsTo(said, n - 1, i) then g.attach(before, said[n - 1].text) else before
  }

  /** The entries are the route lines, in order, each with its table and its details. */
  ghost predicate EntriesFit<E>(g: Grammar<E>, said: seq<Said<E>>, at: seq<nat>, entries: seq<(Option<string>, E)>, n: nat)
    requires n <= |said|
  {
    && Ascending(at) && |entries| == |at|
    && (forall i | 0 <= i < n :: i in at <==> said[i].Route?)
    && forall k | 0 <= k < |at| ::
         && at[k] < n && said[at[k]].Route? && TableFits(said, at[k], entries[k].0)
         && entries[k].1 == Detailed(g, said, at[k], n)
  }

  /** What the lines of a reply say, as entries. */
  ghost predicate Reads<E>(g: Grammar<E>, content: seq<string>, entries: seq<(Option<string>, E)>) {
    exists nets, at: seq<nat> :: NetworksFit(g, content, nets) && EntriesFit(g, SaidWith(g, content, nets), at, entries, |content|)
  }

  // ----- the lines say one thing

  lemma {:induction false} NetworksUnique<E>(g: Grammar<E>, content: seq<string>, a: seq<string>, b: seq<string>, i: nat)
    requires NetworksFit(g, content, a) && NetworksFit(g, content, b) && i < |content|
    ensures a[i] == b[i]
  {
    var x, y := SaidWith(g, content, a), SaidWith(g, content, b);
    forall j | 0 <= j < i
      ensures x[j] == y[j]
    {
      NetworksUnique(g, content, a, b, j);
    }
    assert x[..i] == y[..i];
    assert NetworkFits(x, i, a[i]) && NetworkFits(y, i, b[i]);
    SameNetwork(x, y, i, a[i], b[i]);
  }

  lemma {:induction false} SameNetwork<E>(x: seq<Said<E>>, y: seq<Said<E>>, i: nat, a: string, b: string)
    requires i <= |x| && i <= |y| && x[..i] == y[..i] && NetworkFits(x, i, a) && NetworkFits(y, i, b)
    ensures a == b
  {
    assert forall j | 0 <= j < i :: x[j] == x[..i][j] && y[j] == y[..i][j];
  }

  lemma {:induction false} AscendingUnique(a: seq<nat>, b: seq<nat>)
    requires Ascending(a) && Ascending(b) && forall i: nat :: i in a <==> i in b
    ensures a == b
  {
    if a != [] { assert a[|a| - 1] in a; }
    if b != [] { assert b[|b| - 1] in b; }
    if a != [] && b != [] {
      var m, n := |a| - 1, |b| - 1;
      assert a[m] == b[n];
      forall i: nat
        ensures i in a[..m] <==> i in b[..n]
      {
        assert i in a <==> i in b;
      }
      AscendingUnique(a[..m], b[..n]);
    }
  }

  lemma {:induction false} TableUnique<E>(said: seq<Said<E>>, i: nat, a: Option<string>, b: Option<string>)
    requires i <= |said| && TableFits(said, i, a) && TableFits(said, i, b)
    ensures a == b
  {
  }

  /** A reply has one reading. */
  lemma {:induction false} OneReading<E>(g: Grammar<E>, content: seq<string>, a: seq<(Option<string>, E)>, b: seq<(Option<string>, E)>)
    requires Reads(g, content, a) && Reads(g, content, b)
    ensures a == b
  {
    var nets, at: seq<nat> :| NetworksFit(g, content, nets) && EntriesFit(g, SaidWith(g, content, nets), at, a, |content|);
    var nets', at': seq<nat> :| NetworksFit(g, content, nets') && EntriesFit(g, SaidWith(g, content, nets'), at', b, |content|);
    forall i | 0 <= i < |content|
      ensures nets[i] == nets'[i]
    {
      NetworksUnique(g, content, nets, nets', i);
    }
    assert nets == nets';
    var said := SaidWith(g, content, nets);
    forall i: nat
      ensures i in at <==> i in at'
    {
      if i < |content| { assert i in at <==> said[i].Route?; }
    }
    AscendingUnique(at, at');
    forall k | 0 <= k < |at|
      ensures a[k] == b[k]
    {
      TableUnique(said, at[k], a[k].0, b[k].0);
    }
  }
}
