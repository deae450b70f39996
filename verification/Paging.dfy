/** The streaming reader with one-entry lookahead, the page it collects, and why that page is a
    slice of the whole-reply parse. (internal/birdc/stream.go) */
module Paging {
  import opened Options
  import opened Text
  import opened RouteLines
  import opened Replies

  // ----- grouping a run of routes by table

  /** The routes of one table, in order. */
  function Under<E>(w: seq<(string, E)>, name: string): seq<E> {
    if w == [] then []
    else
      var k := |w| - 1;
      Under(w[..k], name) + if w[k].0 == name then [w[k].1] else []
  }

  /** The table names in order of first appearance. */
  function FirstSeen<E>(w: seq<(string, E)>): seq<string> {
    if w == [] then []
    else
      var k := |w| - 1;
      var names := FirstSeen(w[..k]);
      if w[k].0 in names then names else names + [w[k].0]
  }

  lemma {:induction false} FirstSeenNames<E>(w: seq<(string, E)>)
    ensures forall i, j | 0 <= i < j < |FirstSeen(w)| :: FirstSeen(w)[i] != FirstSeen(w)[j]
    ensures forall name :: name in FirstSeen(w) <==> Under(w, name) != []
  {
    if w != [] {
      var k := |w| - 1;
      FirstSeenNames(w[..k]);
      forall name
        ensures name in FirstSeen(w) <==> Under(w, name) != []
      {
        assert name in FirstSeen(w[..k]) <==> Under(w[..k], name) != [];
      }
    }
  }

  lemma {:induction false} UnderSnoc<E>(w: seq<(string, E)>, name: string, e: E)
    ensures forall n :: Under(w + [(name, e)], n) == Under(w, n) + if n == name then [e] else []
    ensures FirstSeen(w + [(name, e)]) == if name in FirstSeen(w) then FirstSeen(w) else FirstSeen(w) + [name]
  {
    assert (w + [(name, e)])[..|w|] == w;
  }

  /** How many routes the named tables hold together. */
  function Total<E>(w: seq<(string, E)>, names: seq<string>): nat {
    if names == [] then 0 else |Under(w, names[0])| + Total(w, names[1..])
  }

  lemma {:induction false} TotalSnoc<E>(w: seq<(string, E)>, names: seq<string>, name: string)
    ensures Total(w, names + [name]) == Total(w, names) + |Under(w, name)|
  {
    if names == [] {
      assert [] + [name] == [name] && [name][1..] == [];
    } else {
      assert (names + [name])[0] == names[0] && (names + [name])[1..] == names[1..] + [name];
      TotalSnoc(w, names[1..], name);
    }
  }

  lemma {:induction false} TotalGrows<E>(w: seq<(string, E)>, name: string, e: E, names: seq<string>)
    requires forall i, j | 0 <= i < j < |names| :: names[i] != names[j]
    ensures Total(w + [(name, e)], names) == Total(w, names) + if name in names then 1 else 0
  {
    if names != [] {
      UnderSnoc(w, name, e);
      TotalGrows(w, name, e, names[1..]);
      assert name in names <==> name == names[0] || name in names[1..];
    }
  }

  lemma {:induction false} TotalIsLength<E>(w: seq<(string, E)>)
    ensures Total(w, FirstSeen(w)) == |w|
  {
    if w != [] {
      var k := |w| - 1;
      var v, name, e := w[..k], w[k].0, w[k].1;
      assert w == v + [(name, e)];
      TotalIsLength(v);
      FirstSeenNames(v);
      FirstSeenNames(w);
      TotalGrows(v, name, e, FirstSeen(v));
      if name !in FirstSeen(v) {
        TotalSnoc(w, FirstSeen(v), name);
        UnderSnoc(v, name, e);
        assert Under(v, name) == [];
      }
    }
  }

  // ----- the page being collected

  function Min(x: nat, y: nat): nat { if x < y then x else y }

  /** Entries offset..offset+limit of a run, as far as they exist. */
  function Window<E>(run: seq<(string, E)>, offset: nat, limit: nat): seq<(string, E)> {
    run[Min(offset, |run|)..Min(offset + limit, |run|)]
  }

  lemma {:induction false} WindowSnoc<E>(run: seq<(string, E)>, x: (string, E), offset: nat, limit: nat)
    ensures var w := Window(run, offset, limit);
      Window(run + [x], offset, limit) == if offset <= |run| < offset + limit then w + [x] else w
  {
    var n, more := |run|, run + [x];
    if n < offset {
      assert Window(run, offset, limit) == [] && Window(more, offset, limit) == [];
    } else if n < offset + limit {
      assert Window(run, offset, limit) == run[offset..n] && Window(more, offset, limit) == more[offset..n + 1];
      assert more[offset..n + 1] == run[offset..n] + [x];
    } else {
      assert Window(run, offset, limit) == run[offset..offset + limit];
      assert Window(more, offset, limit) == more[offset..offset + limit];
    }
  }

  lemma {:induction false} WindowOfPrefix<E>(run: seq<(string, E)>, bound: nat, offset: nat, limit: nat)
    requires offset + limit <= bound
    ensures Window(run[..Min(|run|, bound)], offset, limit) == Window(run, offset, limit)
  {
    var n, cut := |run|, run[..Min(|run|, bound)];
    var low, high := Min(offset, n), Min(offset + limit, n);
    assert Min(offset, |cut|) == low && Min(offset + limit, |cut|) == high;
    assert cut[low..high] == run[low..high];
  }

  /** The state the paging callback updates: how many routes it was shown, and the page. */
  class Collector<!E> {
    const offset: nat
    const limit: nat
    var seen: nat
    var tables: map<string, seq<E>>
    var order: seq<string>
    var hasMore: bool
    ghost var visited: seq<(string, E)>

    ghost predicate Valid()
      reads this
    {
      && seen == |visited| <= offset + limit + 1
      && (hasMore <==> seen > offset + limit)
      && order == FirstSeen(Window(visited, offset, limit))
      && (forall name :: name in tables <==> name in order)
      && (forall name | name in tables :: tables[name] == Under(Window(visited, offset, limit), name))
    }

    constructor (offset: nat, limit: nat)
      ensures Valid() && visited == [] && this.offset == offset && this.limit == limit
    {
      this.offset, this.limit := offset, limit;
      seen, tables, order, hasMore, visited := 0, map[], [], false, [];
    }

    /** Skips the entries before the page, keeps those on it, and stops at the first one past
        it. Returns whether to go on. */
    method Visit(table: string, entry: E) returns (more: bool)
      requires Valid() && !hasMore
      modifies this
      ensures Valid() && visited == old(visited) + [(table, entry)] && more == !hasMore
    {
      ghost var before := Window(visited, offset, limit);
      WindowSnoc(visited, (table, entry), offset, limit);
      seen := seen + 1;
      visited := visited + [(table, entry)];
      if seen <= offset {
        return true;
      }
      if seen > offset + limit {
        hasMore := true;
        return false;
      }
      UnderSnoc(before, table, entry);
      FirstSeenNames(before);
      if table !in tables {
        tables := tables[table := []];
        order := order + [table];
      }
      tables := tables[table := tables[table] + [entry]];
      return true;
    }

    /** The page's tables, in order of first appearance. */
    method Tables() returns (page: seq<RouteTable<E>>)
      requires Valid()
      ensures var w := Window(visited, offset, limit);
        && |page| == |FirstSeen(w)|
        && (forall k | 0 <= k < |page| :: page[k] == RouteTable(FirstSeen(w)[k], Under(w, FirstSeen(w)[k])))
    {
      page := [];
      for k := 0 to |order|
        invariant |page| == k && forall x | 0 <= x < k :: page[x] == RouteTable(order[x], tables[order[x]])
      {
        page := page + [RouteTable(order[k], tables[order[k]])];
      }
    }
  }

  // ----- the streaming reader

  /** No continuation line precedes the first '-' line. */
  ghost predicate NoStrayLine(lines: seq<Line>) {
    lines == [] ||
    match lines[0]
    case Plain(_) => false
    case Coded(_, sep, _) => sep == '+' ==> NoStrayLine(lines[1..])
  }

  lemma {:induction false} NoStrayFrame(lines: seq<Line>)
    requires NoStrayLine(lines)
    ensures Frame(lines, false) == Frame(lines, true)
  {
    if lines != [] && lines[0].Coded? && lines[0].sep == '+' {
      NoStrayFrame(lines[1..]);
    }
  }

  /** A whole reply with a non-error terminal line. */
  ghost predicate WellFormed(lines: seq<Line>) {
    && NoStrayLine(lines) && Frame(lines, false).Some? && !IsErrorCode(Frame(lines, false).value.code)
  }

  /** The routes the whole reply holds. */
  function Routes<E>(g: Grammar<E>, content: seq<string>): seq<(Option<string>, E)> {
    ScanAll(g, Begin(), content).entries
  }

  /** How many entries no later line can change. */
  function Closed<E>(s: Scan<E>): nat {
    if s.open && s.entries != [] then |s.entries| - 1 else |s.entries|
  }

  /** Later lines only touch the open entry. */
  lemma {:induction false} ClosedStay<E>(g: Grammar<E>, s: Scan<E>, content: seq<string>, n: nat)
    requires n <= Closed(s)
    ensures n <= |ScanAll(g, s, content).entries| && ScanAll(g, s, content).entries[..n] == s.entries[..n]
    decreases |content|
  {
    if content != [] {
      var t := Advance(g, s, content[0]);
      assert t.entries[..n] == s.entries[..n];
      ClosedStay(g, t, content[1..], n);
    }
  }

  /** What the reader's variables hold after the lines that make up `s`. */
  ghost predicate Tracks<E>(s: Scan<E>, table: string, lastNetwork: string, pending: Option<(string, E)>,
                            visited: seq<(string, E)>) {
    && table == (if s.table.Some? then s.table.value else "") && lastNetwork == s.lastNetwork
    && (pending.Some? <==> s.open) && (s.open ==> s.entries != [])
    && Named(s.entries, "") == visited + if pending.Some? then [pending.value] else []
  }

  lemma {:induction false} TracksAttach<E>(g: Grammar<E>, s: Scan<E>, table: string, pending: Option<(string, E)>,
                        visited: seq<(string, E)>, line: string)
    requires Tracks(s, table, s.lastNetwork, pending, visited)
    ensures Tracks(AttachLast(g, s, line), table, s.lastNetwork,
                   if pending.Some? then Some((pending.value.0, g.attach(pending.value.1, line))) else None, visited)
  {
    if pending.Some? {
      var after := AttachLast(g, s, line);
      var k := |s.entries| - 1;
      assert Named(s.entries, "")[k] == pending.value;
      assert Named(after.entries, "") == visited + [(pending.value.0, g.attach(pending.value.1, line))];
    }
  }

  lemma {:induction false} TracksRoute<E>(s: Scan<E>, table: string, entry: E, visited: seq<(string, E)>)
    requires Named(s.entries, "") == visited && table == (if s.table.Some? then s.table.value else "")
    ensures Named(s.entries + [(s.table, entry)], "") == visited + [(table, entry)]
  {
  }

  datatype Step = GoOn | Stop

  /** The reader's variables while a reply streams in. */
  class Reader<!E> {
    const g: Grammar<E>
    const page: Collector<E>
    var table: string
    var lastNetwork: string
    var pending: Option<(string, E)>

    ghost predicate Tracking(s: Scan<E>)
      reads this, page
    {
      page.Valid() && Tracks(s, table, lastNetwork, pending, page.visited)
    }

    constructor (g: Grammar<E>, page: Collector<E>)
      requires page.Valid() && page.visited == []
      ensures this.g == g && this.page == page && Tracking(Begin())
    {
      this.g, this.page := g, page;
      table, lastNetwork, pending := "", "", None;
    }

    /** Hands the buffered entry, if any, to the page. */
    method Flush() returns (more: bool)
      requires page.Valid() && !page.hasMore
      modifies this`pending, page
      ensures page.Valid() && pending == None && more == !page.hasMore
      ensures page.visited == old(page.visited) + if old(pending).Some? then [old(pending).value] else []
    {
      if pending == None {
        return true;
      }
      more := page.Visit(pending.value.0, pending.value.1);
      pending := None;
    }

    method Attach(line: string)
      modifies this`pending
      ensures pending == if old(pending).Some? then Some((old(pending).value.0, g.attach(old(pending).value.1, line)))
                         else None
    {
      if pending.Some? {
        pending := Some((pending.value.0, g.attach(pending.value.1, line)));
      }
    }

    /** Reads one content line. An entry is complete only when the next boundary is seen, so it
        waits in `pending` until then. */
    method Read(content: string, ghost s: Scan<E>) returns (step: Step)
      requires Tracking(s) && !page.hasMore
      modifies this, page
      ensures page.Valid()
      ensures step == GoOn ==> Tracking(Advance(g, s, content)) && !page.hasMore
      ensures step == Stop ==> page.hasMore && page.visited == Named(s.entries, "")
                               && Closed(Advance(g, s, content)) >= |s.entries|
    {
      var trimmed := TrimSpaces(content);
      match Classify(trimmed) {
        case Blank =>
        case TableLine(name) =>
          var more := Flush();
          if !more { return Stop; }
          table, lastNetwork := name, "";
        case Detail =>
          TracksAttach(g, s, table, pending, page.visited, trimmed);
          Attach(trimmed);
        case Other =>
          match g.route(trimmed, lastNetwork) {
            case Some((entry, network)) =>
              var more := Flush();
              if !more { return Stop; }
              pending := Some((table, entry));
              lastNetwork := network;
              TracksRoute(s, table, entry, page.visited);
            case None =>
              TracksAttach(g, s, table, pending, page.visited, trimmed);
              Attach(trimmed);
          }
      }
      return GoOn;
    }

    /** Reads the line that follows the text lines `done`. */
    method ReadNext(content: string, ghost done: seq<string>) returns (step: Step)
      requires Tracking(ScanAll(g, Begin(), done)) && !page.hasMore
      modifies this, page
      ensures page.Valid()
      ensures step == GoOn ==> Tracking(ScanAll(g, Begin(), done + [content])) && !page.hasMore
      ensures step == Stop ==> page.hasMore
      ensures step == Stop ==> forall rest :: Delivered(g, Prepend(done + [content], rest), page)
    {
      ScanSnoc(g, Begin(), done, content);
      step := Read(content, ScanAll(g, Begin(), done));
      if step == Stop {
        forall rest
          ensures Delivered(g, Prepend(done + [content], rest), page)
        {
          if rest.Some? { Overrun(g, done, content, rest.value.content, |page.visited|); }
        }
      }
    }

    /** The line that ends the reply: an error, or the last entry is complete. */
    method Finish(code: nat, ghost done: seq<string>) returns (ok: bool)
      requires Tracking(ScanAll(g, Begin(), done)) && !page.hasMore
      modifies this, page
      ensures page.Valid() && ok == !IsErrorCode(code)
      ensures Delivered(g, Prepend(done, Some(Framed([], code))), page)
    {
      assert done + [] == done;
      if IsErrorCode(code) {
        return false;
      }
      var _ := Flush();
      return true;
    }
  }

  /** What a reply that ends well must have shown a page: its routes, up to one past the page. */
  ghost predicate Delivered<E>(g: Grammar<E>, f: Option<Framed>, page: Collector<E>)
    reads page
  {
    f.Some? && !IsErrorCode(f.value.code) ==>
      var all := Named(Routes(g, f.value.content), "");
      page.visited == all[..Min(|all|, page.offset + page.limit + 1)]
  }

  /** One line of a reply, after the text lines `done`. */
  lemma {:induction false} FrameStep(ls: seq<Line>, k: nat, done: seq<string>)
    requires k < |ls| && Frame(ls, true) == Prepend(done, Frame(ls[k..], true))
    ensures match ls[k]
      case Plain(text) => Frame(ls, true) == Prepend(done + [text], Frame(ls[k + 1..], true))
      case Coded(code, sep, text) =>
        && (sep == '+' ==> Frame(ls, true) == Prepend(done, Frame(ls[k + 1..], true)))
        && (sep == '-' ==> Frame(ls, true) == Prepend(done + [text], Frame(ls[k + 1..], true)))
        && (sep == ' ' ==> Frame(ls, true) == Prepend(done, Some(Framed([], code))))
  {
    assert ls[k..][1..] == ls[k + 1..];
    PrependTwice(done, [ls[k].text], Frame(ls[k + 1..], true));
  }

  /** Reads the lines of a reply as they arrive, handing complete entries to the page until it has
      one too many or the reply ends. Fails on an error reply or a cut connection met before that. */
  method StreamLines<E>(g: Grammar<E>, ls: seq<Line>, page: Collector<E>) returns (ok: bool)
    requires page.Valid() && page.visited == []
    requires forall k | 0 <= k < |ls| && ls[k].Coded? :: ls[k].sep in {' ', '-', '+'}
    modifies page
    ensures page.Valid()
    ensures Delivered(g, Frame(ls, true), page)
    ensures var f := Frame(ls, true);
      && (f.Some? && !IsErrorCode(f.value.code) ==> ok)
      && (ok && !page.hasMore ==> f.Some? && !IsErrorCode(f.value.code))
  {
    var r := new Reader(g, page);
    ghost var done: seq<string> := [];
    PrependTwice([], [], Frame(ls, true));
    assert ls[0..] == ls;
    var k := 0;
    while k < |ls|
      invariant 0 <= k <= |ls| && r.g == g && r.page == page && fresh(r)
      invariant Frame(ls, true) == Prepend(done, Frame(ls[k..], true))
      invariant r.Tracking(ScanAll(g, Begin(), done)) && !page.hasMore
    {
      FrameStep(ls, k, done);
      var parsed := ls[k];
      k := k + 1;
      if parsed.Coded? && parsed.sep == '+' {
        continue;
      }
      if parsed.Coded? && parsed.sep == ' ' {
        ok := r.Finish(parsed.code, done);
        return;
      }
      var step := r.ReadNext(parsed.text, done);
      if step == Stop {
        return true;
      }
      done := done + [parsed.text];
    }
    return false;
  }

  lemma {:induction false} ClosedKeeps<E>(g: Grammar<E>, s: Scan<E>, kind: Kind, line: string)
    requires |s.entries| <= Closed(Take(g, s, kind, line))
    ensures Take(g, s, kind, line).entries[..|s.entries|] == s.entries
  {
  }

  lemma {:induction false} NamedPrefix<E>(all: seq<(Option<string>, E)>, n: nat)
    requires n <= |all|
    ensures Named(all, "")[..n] == Named(all[..n], "")
  {
  }

  /** The entries read before a page overruns are the first entries of the whole reply. */
  lemma {:induction false} Overrun<E>(g: Grammar<E>, done: seq<string>, line: string, rest: seq<string>, n: nat)
    requires var s := ScanAll(g, Begin(), done);
      n == |s.entries| <= Closed(Advance(g, s, line))
    ensures n <= |Routes(g, done + [line] + rest)|
    ensures Named(Routes(g, done + [line] + rest), "")[..n] == Named(Routes(g, done), "")
  {
    var s := ScanAll(g, Begin(), done);
    ScanConcat(g, Begin(), done + [line], rest);
    ScanSnoc(g, Begin(), done, line);
    ClosedKeeps(g, s, Classify(TrimSpaces(line)), TrimSpaces(line));
    ClosedStay(g, Advance(g, s, line), rest, n);
    NamedPrefix(Routes(g, done + [line] + rest), n);
  }

  lemma {:induction false} ScanConcat<E>(g: Grammar<E>, s: Scan<E>, x: seq<string>, y: seq<string>)
    ensures ScanAll(g, s, x + y) == ScanAll(g, ScanAll(g, s, x), y)
    decreases |x|
  {
    if x == [] {
      assert x + y == y;
    } else {
      assert (x + y)[0] == x[0] && (x + y)[1..] == x[1..] + y;
      ScanConcat(g, Advance(g, s, x[0]), x[1..], y);
    }
  }

  // ----- a page

  datatype RoutePage<E> = RoutePage(tables: seq<RouteTable<E>>, hasMore: bool)

  /** Positions `at` hold exactly the routes of one table in a run, in their order. */
  ghost predicate PicksOut<E>(w: seq<(string, E)>, name: string, routes: seq<E>, at: seq<nat>) {
    && Ascending(at) && |at| == |routes|
    && (forall i | 0 <= i < |w| :: i in at <==> w[i].0 == name)
    && forall k | 0 <= k < |at| :: at[k] < |w| && routes[k] == w[at[k]].1
  }

  /** The routes of one table in a run, in their order. */
  ghost predicate InOrder<E>(w: seq<(string, E)>, name: string, routes: seq<E>) {
    exists at: seq<nat> :: PicksOut(w, name, routes, at)
  }

  /** Table `a` is met in a run before table `b` is. */
  ghost predicate MetBefore<E>(w: seq<(string, E)>, a: string, b: string) {
    exists p | 0 <= p < |w| :: w[p].0 == a && forall q | 0 <= q <= p :: w[q].0 != b
  }

  /** Tables hold a run of routes: each has all the routes of its name, in order; no table is there
      twice or empty, none is missing, and they come in the order the run meets them. */
  ghost predicate Grouped<E>(tables: seq<RouteTable<E>>, w: seq<(string, E)>) {
    && (forall i, j | 0 <= i < j < |tables| :: MetBefore(w, tables[i].name, tables[j].name))
    && (forall k | 0 <= k < |tables| :: InOrder(w, tables[k].name, tables[k].routes) && tables[k].routes != [])
    && (forall i | 0 <= i < |w| :: exists k | 0 <= k < |tables| :: tables[k].name == w[i].0)
  }

  lemma {:induction false} PicksSame<E>(w: seq<(string, E)>, name: string, routes: seq<E>, at: seq<nat>, x: (string, E))
    requires PicksOut(w, name, routes, at) && x.0 != name
    ensures PicksOut(w + [x], name, routes, at)
  {
    assert |w| !in at;
  }

  lemma {:induction false} PicksMore<E>(w: seq<(string, E)>, name: string, routes: seq<E>, at: seq<nat>, e: E)
    requires PicksOut(w, name, routes, at)
    ensures PicksOut(w + [(name, e)], name, routes + [e], at + [|w|])
  {
    var more: seq<nat> := at + [|w|];
    forall i | 0 <= i <= |w|
      ensures i in more <==> (w + [(name, e)])[i].0 == name
    {
      if i == |w| { assert more[|at|] == i; }
    }
  }

  lemma {:induction false} UnderInOrder<E>(w: seq<(string, E)>, name: string)
    ensures InOrder(w, name, Under(w, name))
  {
    if w == [] {
      var none: seq<nat> := [];
      assert PicksOut(w, name, Under(w, name), none);
    } else {
      var n := |w| - 1;
      var v, x := w[..n], w[n];
      assert w == v + [x];
      UnderInOrder(v, name);
      var at: seq<nat> :| PicksOut(v, name, Under(v, name), at);
      if x.0 == name {
        PicksMore(v, name, Under(v, name), at, x.1);
      } else {
        PicksSame(v, name, Under(v, name), at, x);
        assert Under(w, name) == Under(v, name);
      }
    }
  }

  lemma {:induction false} SeenBefore<E>(w: seq<(string, E)>, j: nat, k: nat)
    requires j < k < |FirstSeen(w)|
    ensures MetBefore(w, FirstSeen(w)[j], FirstSeen(w)[k])
  {
    var n := |w| - 1;
    var names, a, b := FirstSeen(w[..n]), FirstSeen(w)[j], FirstSeen(w)[k];
    if k < |names| {
      SeenBefore(w[..n], j, k);
      var p :| 0 <= p < n && w[..n][p].0 == a && forall q | 0 <= q <= p :: w[..n][q].0 != b;
      assert w[p] == w[..n][p] && forall q | 0 <= q <= p :: w[q] == w[..n][q];
    } else {
      AllSeen(w[..n]);
      var p := Seen(w[..n], a);
      assert w[p].0 == a && forall q | 0 <= q < n :: w[q] == w[..n][q];
    }
  }

  lemma {:induction false} AllSeen<E>(w: seq<(string, E)>)
    ensures forall i | 0 <= i < |w| :: w[i].0 in FirstSeen(w)
  {
    if w != [] {
      AllSeen(w[..|w| - 1]);
      assert forall i | 0 <= i < |w| - 1 :: w[i] == w[..|w| - 1][i];
    }
  }

  lemma {:induction false} Seen<E>(w: seq<(string, E)>, name: string) returns (p: nat)
    requires name in FirstSeen(w)
    ensures p < |w| && w[p].0 == name
  {
    var n := |w| - 1;
    if name in FirstSeen(w[..n]) { p := Seen(w[..n], name); } else { p := n; }
  }

  /** A page shows entries offset..offset+limit of a run, at most `limit` entries in all. */
  ghost predicate Shows<E>(page: RoutePage<E>, run: seq<(string, E)>, offset: nat, limit: nat) {
    var w := Window(run, offset, limit);
    && (page.hasMore <==> |run| > offset + limit)
    && Grouped(page.tables, w)
    && Total(w, FirstSeen(w)) == |w| <= limit
  }

  /** A page and the content of a well-formed reply: the page is that slice of what the lines say. */
  ghost predicate PageOf<E>(g: Grammar<E>, content: seq<string>, page: RoutePage<E>, offset: nat, limit: nat) {
    Reads(g, content, Routes(g, content)) && Shows(page, Named(Routes(g, content), ""), offset, limit)
  }

  /** One page of a route listing. For a well-formed reply it is that slice of what its lines say; the
      name of a table no line names is "". */
  method Paginate<E>(g: Grammar<E>, lines: seq<string>, offset: nat, requested: int) returns (page: Option<RoutePage<E>>)
    ensures var ls := ParseLines(lines);
      && (WellFormed(ls) ==>
            page.Some? && PageOf(g, Frame(ls, false).value.content, page.value, offset,
                                 if requested <= 0 then 50 else requested))
      && (page.Some? && !page.value.hasMore && NoStrayLine(ls) ==> WellFormed(ls))
  {
    ghost var ls := ParseLines(lines);
    var limit: nat := if requested <= 0 then 50 else requested;
    var c := new Collector(offset, limit);
    var ok := StreamLines(g, ParseLines(lines), c);
    if NoStrayLine(ls) { NoStrayFrame(ls); }
    if !ok {
      return None;
    }
    var tables := c.Tables();
    page := Some(RoutePage(tables, c.hasMore));
    if WellFormed(ls) { CollectedIsPage(g, Frame(ls, false).value.content, page.value, c.visited, offset, limit); }
  }

  lemma {:induction false} CollectedIsPage<E>(g: Grammar<E>, content: seq<string>, page: RoutePage<E>,
                                              visited: seq<(string, E)>, offset: nat, limit: nat)
    requires var all := Named(Routes(g, content), ""); visited == all[..Min(|all|, offset + limit + 1)]
    requires page.hasMore <==> |visited| > offset + limit
    requires var w := Window(visited, offset, limit);
      && |page.tables| == |FirstSeen(w)|
      && (forall k | 0 <= k < |page.tables| :: page.tables[k] == RouteTable(FirstSeen(w)[k], Under(w, FirstSeen(w)[k])))
    ensures PageOf(g, content, page, offset, limit)
  {
    TablesGroup(page.tables, Window(visited, offset, limit));
    ScanReads(g, content);
    FirstRoutesShow(page, Named(Routes(g, content), ""), visited, offset, limit);
  }

  lemma {:induction false} TablesGroup<E>(tables: seq<RouteTable<E>>, w: seq<(string, E)>)
    requires |tables| == |FirstSeen(w)|
    requires forall k | 0 <= k < |tables| :: tables[k] == RouteTable(FirstSeen(w)[k], Under(w, FirstSeen(w)[k]))
    ensures Grouped(tables, w)
  {
    FirstSeenNames(w);
    forall k | 0 <= k < |tables|
      ensures InOrder(w, tables[k].name, tables[k].routes) && tables[k].routes != []
    {
      UnderInOrder(w, tables[k].name);
      assert FirstSeen(w)[k] in FirstSeen(w);
    }
    forall i, j | 0 <= i < j < |tables|
      ensures MetBefore(w, tables[i].name, tables[j].name)
    {
      SeenBefore(w, i, j);
    }
    AllSeen(w);
    forall i | 0 <= i < |w|
      ensures exists k | 0 <= k < |tables| :: tables[k].name == w[i].0
    {
      var k :| 0 <= k < |FirstSeen(w)| && FirstSeen(w)[k] == w[i].0;
      assert tables[k].name == w[i].0;
    }
  }

  lemma {:induction false} WindowFits<E>(run: seq<(string, E)>, offset: nat, limit: nat)
    ensures var w := Window(run, offset, limit); Total(w, FirstSeen(w)) == |w| <= limit
  {
    TotalIsLength(Window(run, offset, limit));
  }

  /** The first offset + limit + 1 routes decide the page. */
  lemma {:induction false} FirstRoutesShow<E>(page: RoutePage<E>, all: seq<(string, E)>, visited: seq<(string, E)>,
                                              offset: nat, limit: nat)
    requires visited == all[..Min(|all|, offset + limit + 1)]
    requires page.hasMore <==> |visited| > offset + limit
    requires Grouped(page.tables, Window(visited, offset, limit))
    ensures Shows(page, all, offset, limit)
  {
    WindowOfPrefix(all, offset + limit + 1, offset, limit);
    WindowFits(all, offset, limit);
  }

  /** The streamed sequence and the whole-reply parse name every route the same, except routes
      no table line precedes, which are under "" here and under "master" there. */
  lemma {:induction false} SameUpToDefaultName<E>(entries: seq<(Option<string>, E)>, k: nat)
    requires k < |entries|
    ensures Named(entries, "")[k].1 == Named(entries, "master")[k].1
    ensures Named(entries, "")[k].0 == Named(entries, "master")[k].0 <==> entries[k].0.Some?
  {
  }
}
