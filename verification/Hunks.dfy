/** Grouping an edit script into unified-diff hunks, and applying hunks as a patch.
    (internal/render/diff.go, hunks, buildHunk and Stat) */
module Hunks {
  import opened Options
  import opened EditScript

  datatype DiffLine = DiffLine(op: Op, text: string)

  /** A contiguous run of changes plus its context. A start of 0 means the hunk has no line on
      that side. */
  datatype Hunk = Hunk(oldStart: nat, oldCount: nat, newStart: nat, newCount: nat, lines: seq<DiffLine>)

  // ----- which edits a diff shows

  /** An edit is shown when a changed edit lies within `context` entries of it. */
  ghost predicate Shown(s: seq<Edit>, context: nat, j: int) {
    exists i | 0 <= i < |s| :: s[i].op != Same && i - context <= j <= i + context
  }

  /** One mark per edit of the script. */
  ghost predicate MarksShown(keep: seq<bool>, s: seq<Edit>, context: nat) {
    |keep| == |s| && forall j | 0 <= j < |s| :: keep[j] <==> Shown(s, context, j)
  }

  /** The end of the run of kept edits that starts at `j`. */
  function RunEnd(keep: seq<bool>, j: nat): (e: nat)
    requires j <= |keep|
    ensures j <= e <= |keep|
    ensures forall k | j <= k < e :: keep[k]
    ensures e < |keep| ==> !keep[e]
    decreases |keep| - j
  {
    if j < |keep| && keep[j] then RunEnd(keep, j + 1) else j
  }

  /** The maximal runs of kept edits from position `i` on, as half-open intervals. */
  function Runs(keep: seq<bool>, i: nat): (r: seq<(nat, nat)>)
    requires i <= |keep|
    ensures forall k | 0 <= k < |r| :: i <= r[k].0 < r[k].1 <= |keep|
    decreases |keep| - i
  {
    if i == |keep| then []
    else if !keep[i] then Runs(keep, i + 1)
    else [(i, RunEnd(keep, i))] + Runs(keep, RunEnd(keep, i))
  }

  ghost predicate In(run: (nat, nat), j: int) { run.0 <= j < run.1 }

  /** Runs are never adjacent and cover exactly the kept edits: every kept edit lies in one run,
      no run holds an edit that is not kept. */
  ghost predicate MaximalRuns(r: seq<(nat, nat)>, keep: seq<bool>, i: nat) {
    && (forall k | 0 < k < |r| :: r[k - 1].1 < r[k].0)
    && (forall k, j | 0 <= k < |r| && 0 <= j < |keep| && In(r[k], j) :: keep[j])
    && (forall j | i <= j < |keep| && keep[j] :: exists k | 0 <= k < |r| :: In(r[k], j))
  }

  lemma {:induction false} RunsAreMaximal(keep: seq<bool>, i: nat)
    requires i <= |keep|
    ensures MaximalRuns(Runs(keep, i), keep, i)
    decreases |keep| - i
  {
    if i < |keep| {
      if !keep[i] {
        RunsAreMaximal(keep, i + 1);
      } else {
        var e := RunEnd(keep, i);
        RunsAreMaximal(keep, e);
        MaximalCons(keep, i, e, Runs(keep, e));
      }
    }
  }

  lemma {:induction false} MaximalCons(keep: seq<bool>, i: nat, e: nat, rest: seq<(nat, nat)>)
    requires i < e <= |keep| && MaximalRuns(rest, keep, e)
    requires (forall k | i <= k < e :: keep[k]) && (e < |keep| ==> !keep[e])
    requires forall k | 0 <= k < |rest| :: e <= rest[k].0 < rest[k].1 <= |keep|
    ensures MaximalRuns([(i, e)] + rest, keep, i)
  {
    var r := [(i, e)] + rest;
    assert forall k | 0 < k < |r| :: r[k] == rest[k - 1];
    if rest != [] { assert In(rest[0], rest[0].0); }
    forall j | i <= j < |keep| && keep[j]
      ensures exists k | 0 <= k < |r| :: In(r[k], j)
    {
      if j < e {
        assert In(r[0], j);
      } else {
        var k :| 0 <= k < |rest| && In(rest[k], j);
        assert In(r[k + 1], j);
      }
    }
  }

  // ----- from runs to hunks

  /** The number of the first line a segment has in the old file, 0 if it has none. */
  function FirstOld(seg: seq<Edit>): nat {
    if seg == [] then 0
    else if seg[0].op != Inserted && seg[0].oldLine != 0 then seg[0].oldLine
    else FirstOld(seg[1..])
  }

  /** The number of the first line a segment has in the new file, 0 if it has none. */
  function FirstNew(seg: seq<Edit>): nat {
    if seg == [] then 0
    else if seg[0].op != Deleted && seg[0].newLine != 0 then seg[0].newLine
    else FirstNew(seg[1..])
  }

  function DiffLines(seg: seq<Edit>): (ls: seq<DiffLine>)
    ensures |ls| == |seg|
    ensures forall k | 0 <= k < |ls| :: ls[k] == DiffLine(seg[k].op, seg[k].text)
  {
    seq(|seg|, k requires 0 <= k < |seg| => DiffLine(seg[k].op, seg[k].text))
  }

  /** The hunk of one segment of the script. */
  function HunkOf(seg: seq<Edit>): Hunk {
    Hunk(FirstOld(seg), |OldSide(seg)|, FirstNew(seg), |NewSide(seg)|, DiffLines(seg))
  }

  /** The hunks of a script from position `i` on: one per run of kept edits, in order. */
  function HunksFrom(s: seq<Edit>, keep: seq<bool>, i: nat): seq<Hunk>
    requires |keep| == |s| && i <= |s|
    decreases |s| - i
  {
    if i == |s| then []
    else if !keep[i] then HunksFrom(s, keep, i + 1)
    else [HunkOf(s[i..RunEnd(keep, i)])] + HunksFrom(s, keep, RunEnd(keep, i))
  }

  /** The k-th hunk is the k-th maximal run. */
  lemma {:induction false} HunksAreRuns(s: seq<Edit>, keep: seq<bool>, i: nat)
    requires |keep| == |s| && i <= |s|
    ensures |HunksFrom(s, keep, i)| == |Runs(keep, i)|
    ensures forall k | 0 <= k < |Runs(keep, i)| ::
              HunksFrom(s, keep, i)[k] == HunkOf(s[Runs(keep, i)[k].0..Runs(keep, i)[k].1])
    decreases |s| - i
  {
    if i < |s| {
      var e := if keep[i] then RunEnd(keep, i) else i + 1;
      HunksAreRuns(s, keep, e);
      if keep[i] {
        var runs, hs := Runs(keep, i), HunksFrom(s, keep, i);
        assert runs == [(i, e)] + Runs(keep, e) && hs == [HunkOf(s[i..e])] + HunksFrom(s, keep, e);
        forall k | 0 <= k < |runs|
          ensures hs[k] == HunkOf(s[runs[k].0..runs[k].1])
        {
          if k > 0 { assert runs[k] == Runs(keep, e)[k - 1] && hs[k] == HunksFrom(s, keep, e)[k - 1]; }
        }
      }
    }
  }

  lemma {:induction false} FirstSnoc(seg: seq<Edit>, e: Edit)
    ensures FirstOld(seg + [e]) ==
              if FirstOld(seg) != 0 then FirstOld(seg) else if e.op != Inserted then e.oldLine else 0
    ensures FirstNew(seg + [e]) ==
              if FirstNew(seg) != 0 then FirstNew(seg) else if e.op != Deleted then e.newLine else 0
  {
    if seg == [] {
      assert [] + [e] == [e] && [e][1..] == [];
    } else {
      assert (seg + [e])[0] == seg[0] && (seg + [e])[1..] == seg[1..] + [e];
      FirstSnoc(seg[1..], e);
    }
  }

  method BuildHunk(seg: seq<Edit>) returns (h: Hunk)
    ensures h == HunkOf(seg)
  {
    h := Hunk(0, 0, 0, 0, []);
    for k := 0 to |seg|
      invariant h == HunkOf(seg[..k])
    {
      var e := seg[k];
      assert seg[..k + 1] == seg[..k] + [e];
      FirstSnoc(seg[..k], e);
      SidesConcat(seg[..k], [e]);
      WithoutOne(e, Inserted);
      WithoutOne(e, Deleted);
      h := h.(lines := h.lines + [DiffLine(e.op, e.text)]);
      if e.op != Inserted {
        if h.oldStart == 0 { h := h.(oldStart := e.oldLine); }
        h := h.(oldCount := h.oldCount + 1);
      }
      if e.op != Deleted {
        if h.newStart == 0 { h := h.(newStart := e.newLine); }
        h := h.(newCount := h.newCount + 1);
      }
      assert h.lines == DiffLines(seg[..k + 1]);
    }
    assert seg[..|seg|] == seg;
  }

  function Min(x: int, y: int): int { if x < y then x else y }

  /** Marks every edit within `context` of a change. */
  method MarkKept(s: seq<Edit>, context: nat) returns (keep: array<bool>, any: bool)
    ensures fresh(keep) && MarksShown(keep[..], s, context)
    ensures any <==> exists i | 0 <= i < |s| :: s[i].op != Same
  {
    keep := new bool[|s|](_ => false);
    any := false;
    for i := 0 to |s|
      invariant fresh(keep) && keep.Length == |s|
      invariant any <==> exists x | 0 <= x < i :: s[x].op != Same
      invariant forall j | 0 <= j < |s| :: keep[j] <==>
        exists x | 0 <= x < i :: s[x].op != Same && x - context <= j <= x + context
    {
      if s[i].op != Same {
        any := true;
        var lo, hi := Max(0, if i >= context then i - context else 0), Min(|s| - 1, i + context);
        for j := lo to hi + 1
          invariant fresh(keep) && keep.Length == |s|
          invariant forall y | 0 <= y < |s| :: keep[y] <==>
            (exists x | 0 <= x < i :: s[x].op != Same && x - context <= y <= x + context) || lo <= y < j
        {
          keep[j] := true;
        }
      }
    }
  }

  /** The hunks of a script at a context width: its shown edits, one hunk for each maximal run. */
  ghost predicate Groups(hs: seq<Hunk>, s: seq<Edit>, context: nat) {
    exists keep :: MarksShown(keep, s, context) && hs == HunksFrom(s, keep, 0)
  }

  /** Groups the script into hunks; nothing changed means no hunks. */
  method GroupHunks(s: seq<Edit>, context: nat) returns (out: seq<Hunk>)
    ensures Groups(out, s, context)
  {
    var marks, any := MarkKept(s, context);
    ghost var keep := marks[..];
    if !any {
      NoHunks(s, keep, 0);
      return [];
    }
    out := [];
    var i := 0;
    while i < |s|
      invariant 0 <= i <= |s| && marks[..] == keep
      invariant out + HunksFrom(s, keep, i) == HunksFrom(s, keep, 0)
    {
      if !marks[i] {
        i := i + 1;
      } else {
        var j := i;
        while j < |s| && marks[j]
          invariant i <= j <= |s| && marks[..] == keep
          invariant RunEnd(keep, i) == RunEnd(keep, j)
        {
          j := j + 1;
        }
        var h := BuildHunk(s[i..j]);
        assert out + ([h] + HunksFrom(s, keep, j)) == out + [h] + HunksFrom(s, keep, j);
        out := out + [h];
        i := j;
      }
    }
  }

  /** A script without changes has no hunks. */
  lemma {:induction false} NoChangeNoHunks(s: seq<Edit>, context: nat)
    requires forall k | 0 <= k < |s| :: s[k].op == Same
    ensures Groups([], s, context)
  {
    var keep := seq(|s|, _ => false);
    assert MarksShown(keep, s, context);
    NoHunks(s, keep, 0);
  }

  lemma {:induction false} NoHunks(s: seq<Edit>, keep: seq<bool>, i: nat)
    requires |keep| == |s| && i <= |s|
    ensures HunksFrom(s, keep, i) == [] <==> forall j | i <= j < |s| :: !keep[j]
    decreases |s| - i
  {
    if i < |s| && !keep[i] { NoHunks(s, keep, i + 1); }
  }

  // ----- hunks as a patch

  function LinesWithout(ls: seq<DiffLine>, drop: Op): seq<string> {
    if ls == [] then []
    else if ls[0].op == drop then LinesWithout(ls[1..], drop)
    else [ls[0].text] + LinesWithout(ls[1..], drop)
  }

  lemma {:induction false} LinesWithoutIsWithout(seg: seq<Edit>, drop: Op)
    ensures LinesWithout(DiffLines(seg), drop) == Without(seg, drop)
  {
    if seg != [] {
      assert DiffLines(seg)[1..] == DiffLines(seg[1..]);
      LinesWithoutIsWithout(seg[1..], drop);
    }
  }

  /** Applies hunks to the old lines the way a reader of a unified diff does: copy up to where
      the hunk starts -- its old start, or its new start when it has no old line -- check that
      the old lines are there, put the new lines in their place. `k` old lines are consumed and
      `out` is written so far. None when a hunk does not fit. */
  function Patch(was: seq<string>, hs: seq<Hunk>, k: nat, out: seq<string>): Option<seq<string>>
    requires k <= |was|
    decreases |hs|
  {
    if hs == [] then Some(out + was[k..])
    else
      var h := hs[0];
      var gap := if h.oldCount > 0 then h.oldStart - 1 - k else h.newStart - 1 - |out|;
      if gap < 0 || k + gap + h.oldCount > |was|
         || was[k + gap..k + gap + h.oldCount] != LinesWithout(h.lines, Inserted) then None
      else Patch(was, hs[1..], k + gap + h.oldCount, out + was[k..k + gap] + LinesWithout(h.lines, Deleted))
  }

  lemma {:induction false} AllSame(s: seq<Edit>)
    requires forall k | 0 <= k < |s| :: s[k].op == Same
    ensures OldSide(s) == NewSide(s) && |OldSide(s)| == |s|
  {
    if s != [] { AllSame(s[1..]); }
  }

  /** Where the first line of a segment sits in the file it belongs to. */
  lemma {:induction false} FirstLineNumber(s: seq<Edit>, p: nat, q: nat)
    requires Numbered(s, 0, 0) && p <= q <= |s|
    ensures OldSide(s[p..q]) != [] ==> FirstOld(s[p..q]) == |OldSide(s[..p])| + 1
    ensures NewSide(s[p..q]) != [] ==> FirstNew(s[p..q]) == |NewSide(s[..p])| + 1
    decreases q - p
  {
    if p < q {
      assert s[p..q][1..] == s[p + 1..q] && s[..p + 1] == s[..p] + [s[p]];
      SidesConcat(s[..p], [s[p]]);
      WithoutOne(s[p], Inserted);
      WithoutOne(s[p], Deleted);
      FirstLineNumber(s, p + 1, q);
    }
  }

  /** A hunk that fits is put in its place. */
  lemma {:induction false} PatchFits(was: seq<string>, hs: seq<Hunk>, k: nat, out: seq<string>, gap: nat)
    requires k <= |was| && hs != []
    requires gap == if hs[0].oldCount > 0 then hs[0].oldStart - 1 - k else hs[0].newStart - 1 - |out|
    requires k + gap + hs[0].oldCount <= |was|
    requires was[k + gap..k + gap + hs[0].oldCount] == LinesWithout(hs[0].lines, Inserted)
    ensures Patch(was, hs, k, out) ==
            Patch(was, hs[1..], k + gap + hs[0].oldCount,
                  out + was[k..k + gap] + LinesWithout(hs[0].lines, Deleted))
  {
  }

  /** Placing the hunk of the edits from `q` to `e`, when the edits from `p` to `q` are
      unchanged and not shown: the patch moves from position `p` of the script to `e`. */
  lemma {:induction false} PatchStep(s: seq<Edit>, p: nat, q: nat, e: nat, rest: seq<Hunk>)
    requires Numbered(s, 0, 0) && p <= q < e <= |s|
    requires forall j | p <= j < q :: s[j].op == Same
    ensures |OldSide(s[..p])| <= |OldSide(s)| && |OldSide(s[..e])| <= |OldSide(s)|
    ensures Patch(OldSide(s), [HunkOf(s[q..e])] + rest, |OldSide(s[..p])|, NewSide(s[..p])) ==
            Patch(OldSide(s), rest, |OldSide(s[..e])|, NewSide(s[..e]))
  {
    SidesSplit(s, p, q, e);
    AllSame(s[p..q]);
    LinesWithoutIsWithout(s[q..e], Inserted);
    LinesWithoutIsWithout(s[q..e], Deleted);
    GapIsSkipped(s, p, q, e);
    PatchOver(OldSide(s[..p]), OldSide(s[p..q]), OldSide(s[q..e]), OldSide(s[e..]), NewSide(s[..p]), NewSide(s[q..e]),
              HunkOf(s[q..e]), rest);
  }

  /** A hunk that replaces `c` by `added`, after `a` and the lines `b` it skips. */
  lemma {:induction false} PatchOver(a: seq<string>, b: seq<string>, c: seq<string>, d: seq<string>,
                                     out: seq<string>, added: seq<string>, h: Hunk, rest: seq<Hunk>)
    requires h.oldCount == |c|
    requires |b| == if h.oldCount > 0 then h.oldStart - 1 - |a| else h.newStart - 1 - |out|
    requires LinesWithout(h.lines, Inserted) == c && LinesWithout(h.lines, Deleted) == added
    ensures Patch(a + b + c + d, [h] + rest, |a|, out) == Patch(a + b + c + d, rest, |a + b + c|, out + b + added)
  {
    Middle(a, b, c, d);
    assert ([h] + rest)[1..] == rest;
    PatchFits(a + b + c + d, [h] + rest, |a|, out, |b|);
  }

  lemma {:induction false} SidesSplit(s: seq<Edit>, p: nat, q: nat, e: nat)
    requires p <= q <= e <= |s|
    ensures OldSide(s) == OldSide(s[..p]) + OldSide(s[p..q]) + OldSide(s[q..e]) + OldSide(s[e..])
    ensures OldSide(s[..q]) == OldSide(s[..p]) + OldSide(s[p..q])
    ensures NewSide(s[..q]) == NewSide(s[..p]) + NewSide(s[p..q])
    ensures OldSide(s[..e]) == OldSide(s[..p]) + OldSide(s[p..q]) + OldSide(s[q..e])
    ensures NewSide(s[..e]) == NewSide(s[..p]) + NewSide(s[p..q]) + NewSide(s[q..e])
  {
    assert s[..q] == s[..p] + s[p..q] && s[..e] == s[..q] + s[q..e] && s == s[..e] + s[e..];
    SidesConcat(s[..p], s[p..q]);
    SidesConcat(s[..q], s[q..e]);
    SidesConcat(s[..e], s[e..]);
  }

  /** The start a hunk carries is the position it has after the lines skipped before it. */
  lemma {:induction false} GapIsSkipped(s: seq<Edit>, p: nat, q: nat, e: nat)
    requires Numbered(s, 0, 0) && p <= q < e <= |s|
    requires forall j | p <= j < q :: s[j].op == Same
    ensures var h := HunkOf(s[q..e]);
      q - p == if h.oldCount > 0 then h.oldStart - 1 - |OldSide(s[..p])| else h.newStart - 1 - |NewSide(s[..p])|
  {
    SidesSplit(s, p, q, e);
    AllSame(s[p..q]);
    FirstLineNumber(s, q, e);
    UnchangedIsCommon(s[q..e]);
  }

  lemma {:induction false} Middle(a: seq<string>, b: seq<string>, c: seq<string>, d: seq<string>)
    ensures (a + b + c + d)[|a|..|a| + |b|] == b
    ensures (a + b + c + d)[|a| + |b|..|a| + |b| + |c|] == c
  {
  }

  lemma {:induction false} PatchEnd(a: seq<string>, b: seq<string>, out: seq<string>)
    ensures Patch(a + b, [], |a|, out) == Some(out + b)
  {
    assert (a + b)[|a|..] == b;
  }

  lemma {:induction false} SidesAt(s: seq<Edit>, p: nat)
    requires p <= |s|
    ensures OldSide(s) == OldSide(s[..p]) + OldSide(s[p..]) && NewSide(s) == NewSide(s[..p]) + NewSide(s[p..])
  {
    assert s == s[..p] + s[p..];
    SidesConcat(s[..p], s[p..]);
  }

  /** The rest of a patch, after the edits before `p`, when the edits from `p` to `q` are
      unchanged and not shown. */
  lemma {:induction false} PatchFrom(s: seq<Edit>, keep: seq<bool>, p: nat, q: nat)
    requires Numbered(s, 0, 0) && |keep| == |s| && p <= q <= |s|
    requires forall j | 0 <= j < |s| && s[j].op != Same :: keep[j]
    requires forall j | p <= j < q :: s[j].op == Same
    ensures |OldSide(s[..p])| <= |OldSide(s)|
    ensures Patch(OldSide(s), HunksFrom(s, keep, q), |OldSide(s[..p])|, NewSide(s[..p])) == Some(NewSide(s))
    decreases |s| - q
  {
    SidesAt(s, p);
    if q == |s| {
      AllSame(s[p..]);
      PatchEnd(OldSide(s[..p]), OldSide(s[p..]), NewSide(s[..p]));
    } else if !keep[q] {
      PatchFrom(s, keep, p, q + 1);
    } else {
      var e := RunEnd(keep, q);
      PatchStep(s, p, q, e, HunksFrom(s, keep, e));
      PatchFrom(s, keep, e, e);
    }
  }

  lemma {:induction false} ChangesAreKept(s: seq<Edit>, context: nat, keep: seq<bool>)
    requires MarksShown(keep, s, context)
    ensures forall j | 0 <= j < |s| && s[j].op != Same :: keep[j]
  {
    forall j | 0 <= j < |s| && s[j].op != Same
      ensures keep[j]
    {
      assert j - context <= j <= j + context;
    }
  }

  /** The hunks of a script, for any context width, patch the old file into the new one. */
  lemma {:induction false} HunksPatch(s: seq<Edit>, context: nat, keep: seq<bool>)
    requires Numbered(s, 0, 0) && MarksShown(keep, s, context)
    ensures Patch(OldSide(s), HunksFrom(s, keep, 0), 0, []) == Some(NewSide(s))
  {
    ChangesAreKept(s, context, keep);
    assert s[..0] == [];
    PatchFrom(s, keep, 0, 0);
  }

  // ----- hunks the other way round

  function FlipOp(op: Op): Op {
    match op
    case Same => Same
    case Deleted => Inserted
    case Inserted => Deleted
  }

  /** The edits that turn the new file back into the old one. */
  function Flip(s: seq<Edit>): (t: seq<Edit>)
    ensures |t| == |s|
    ensures forall k | 0 <= k < |t| :: t[k] == Edit(FlipOp(s[k].op), s[k].text, s[k].newLine, s[k].oldLine)
  {
    seq(|s|, k requires 0 <= k < |s| => Edit(FlipOp(s[k].op), s[k].text, s[k].newLine, s[k].oldLine))
  }

  function FlipLines(ls: seq<DiffLine>): (t: seq<DiffLine>)
    ensures |t| == |ls| && forall k | 0 <= k < |t| :: t[k] == DiffLine(FlipOp(ls[k].op), ls[k].text)
  {
    seq(|ls|, k requires 0 <= k < |ls| => DiffLine(FlipOp(ls[k].op), ls[k].text))
  }

  /** A hunk read in reverse: old and new trade places. */
  function FlipHunk(h: Hunk): Hunk { Hunk(h.newStart, h.newCount, h.oldStart, h.oldCount, FlipLines(h.lines)) }

  function FlipHunks(hs: seq<Hunk>): seq<Hunk> {
    if hs == [] then [] else [FlipHunk(hs[0])] + FlipHunks(hs[1..])
  }

  lemma {:induction false} FlipSides(s: seq<Edit>)
    ensures OldSide(Flip(s)) == NewSide(s) && NewSide(Flip(s)) == OldSide(s)
  {
    if s != [] {
      assert Flip(s)[1..] == Flip(s[1..]);
      FlipSides(s[1..]);
    }
  }

  lemma {:induction false} FlipNumbered(s: seq<Edit>)
    requires Numbered(s, 0, 0)
    ensures Numbered(Flip(s), 0, 0)
  {
    forall k | 0 <= k < |s|
      ensures |OldSide(Flip(s)[..k])| == |NewSide(s[..k])| && |NewSide(Flip(s)[..k])| == |OldSide(s[..k])|
    {
      assert Flip(s)[..k] == Flip(s[..k]);
      FlipSides(s[..k]);
    }
  }

  lemma {:induction false} FlipFirst(seg: seq<Edit>)
    ensures FirstOld(Flip(seg)) == FirstNew(seg) && FirstNew(Flip(seg)) == FirstOld(seg)
  {
    if seg != [] {
      assert Flip(seg)[1..] == Flip(seg[1..]);
      FlipFirst(seg[1..]);
    }
  }

  lemma {:induction false} FlipHunkOf(seg: seq<Edit>)
    ensures HunkOf(Flip(seg)) == FlipHunk(HunkOf(seg))
  {
    FlipFirst(seg);
    FlipSides(seg);
    assert DiffLines(Flip(seg)) == FlipLines(DiffLines(seg));
  }

  lemma {:induction false} FlipHunksFrom(s: seq<Edit>, keep: seq<bool>, i: nat)
    requires |keep| == |s| && i <= |s|
    ensures HunksFrom(Flip(s), keep, i) == FlipHunks(HunksFrom(s, keep, i))
    decreases |s| - i
  {
    if i < |s| {
      if !keep[i] {
        FlipHunksFrom(s, keep, i + 1);
      } else {
        var e := RunEnd(keep, i);
        FlipHunksFrom(s, keep, e);
        assert Flip(s)[i..e] == Flip(s[i..e]);
        FlipHunkOf(s[i..e]);
      }
    }
  }

  /** Read in reverse, the same hunks turn the new file back into the old one. */
  lemma {:induction false} HunksUndo(s: seq<Edit>, context: nat, keep: seq<bool>)
    requires Numbered(s, 0, 0) && MarksShown(keep, s, context)
    ensures Patch(NewSide(s), FlipHunks(HunksFrom(s, keep, 0)), 0, []) == Some(OldSide(s))
  {
    FlipSides(s);
    FlipNumbered(s);
    FlipHunksFrom(s, keep, 0);
    FlipMarks(s, context, keep);
    HunksPatch(Flip(s), context, keep);
  }

  lemma {:induction false} FlipMarks(s: seq<Edit>, context: nat, keep: seq<bool>)
    requires MarksShown(keep, s, context)
    ensures MarksShown(keep, Flip(s), context)
  {
    forall j | 0 <= j < |s|
      ensures Shown(Flip(s), context, j) <==> Shown(s, context, j)
    {
      if Shown(s, context, j) {
        var i :| 0 <= i < |s| && s[i].op != Same && i - context <= j <= i + context;
        assert Flip(s)[i].op != Same;
      }
      if Shown(Flip(s), context, j) {
        var i :| 0 <= i < |s| && Flip(s)[i].op != Same && i - context <= j <= i + context;
        assert s[i].op != Same;
      }
    }
  }

  // ----- counting

  function CountOp(s: seq<Edit>, op: Op): nat {
    if s == [] then 0 else (if s[0].op == op then 1 else 0) + CountOp(s[1..], op)
  }

  function CountLines(ls: seq<DiffLine>, op: Op): nat {
    if ls == [] then 0 else (if ls[0].op == op then 1 else 0) + CountLines(ls[1..], op)
  }

  function CountHunks(hs: seq<Hunk>, op: Op): nat {
    if hs == [] then 0 else CountLines(hs[0].lines, op) + CountHunks(hs[1..], op)
  }

  lemma {:induction false} CountOpConcat(s: seq<Edit>, t: seq<Edit>, op: Op)
    ensures CountOp(s + t, op) == CountOp(s, op) + CountOp(t, op)
  {
    if s == [] {
      assert s + t == t;
    } else {
      assert (s + t)[0] == s[0] && (s + t)[1..] == s[1..] + t;
      CountOpConcat(s[1..], t, op);
    }
  }

  lemma {:induction false} CountLinesSnoc(ls: seq<DiffLine>, l: DiffLine, op: Op)
    ensures CountLines(ls + [l], op) == CountLines(ls, op) + if l.op == op then 1 else 0
  {
    if ls == [] {
      assert [] + [l] == [l];
    } else {
      assert (ls + [l])[0] == ls[0] && (ls + [l])[1..] == ls[1..] + [l];
      CountLinesSnoc(ls[1..], l, op);
    }
  }

  lemma {:induction false} CountHunksSnoc(hs: seq<Hunk>, h: Hunk, op: Op)
    ensures CountHunks(hs + [h], op) == CountHunks(hs, op) + CountLines(h.lines, op)
  {
    if hs == [] {
      assert [] + [h] == [h];
    } else {
      assert (hs + [h])[0] == hs[0] && (hs + [h])[1..] == hs[1..] + [h];
      CountHunksSnoc(hs[1..], h, op);
    }
  }

  /** Counts added and removed lines over all hunks. */
  method Stat(hs: seq<Hunk>) returns (added: nat, removed: nat)
    ensures added == CountHunks(hs, Inserted) && removed == CountHunks(hs, Deleted)
  {
    added, removed := 0, 0;
    for k := 0 to |hs|
      invariant added == CountHunks(hs[..k], Inserted) && removed == CountHunks(hs[..k], Deleted)
    {
      var ls := hs[k].lines;
      for x := 0 to |ls|
        invariant added == CountHunks(hs[..k], Inserted) + CountLines(ls[..x], Inserted)
        invariant removed == CountHunks(hs[..k], Deleted) + CountLines(ls[..x], Deleted)
      {
        assert ls[..x + 1] == ls[..x] + [ls[x]];
        CountLinesSnoc(ls[..x], ls[x], Inserted);
        CountLinesSnoc(ls[..x], ls[x], Deleted);
        if ls[x].op == Inserted {
          added := added + 1;
        } else if ls[x].op == Deleted {
          removed := removed + 1;
        }
      }
      assert ls[..|ls|] == ls && hs[..k + 1] == hs[..k] + [hs[k]];
      CountHunksSnoc(hs[..k], hs[k], Inserted);
      CountHunksSnoc(hs[..k], hs[k], Deleted);
    }
    assert hs[..|hs|] == hs;
  }

  lemma {:induction false} CountDiffLines(seg: seq<Edit>, op: Op)
    ensures CountLines(DiffLines(seg), op) == CountOp(seg, op)
  {
    if seg != [] {
      assert DiffLines(seg)[1..] == DiffLines(seg[1..]);
      CountDiffLines(seg[1..], op);
    }
  }

  lemma {:induction false} CountFrom(s: seq<Edit>, keep: seq<bool>, i: nat, op: Op)
    requires |keep| == |s| && i <= |s| && op != Same
    requires forall j | 0 <= j < |s| && s[j].op != Same :: keep[j]
    ensures CountHunks(HunksFrom(s, keep, i), op) == CountOp(s[i..], op)
    decreases |s| - i
  {
    if i < |s| {
      var hs := HunksFrom(s, keep, i);
      if !keep[i] {
        assert s[i..][1..] == s[i + 1..];
        CountFrom(s, keep, i + 1, op);
      } else {
        var e := RunEnd(keep, i);
        assert s[i..] == s[i..e] + s[e..];
        CountOpConcat(s[i..e], s[e..], op);
        assert hs[1..] == HunksFrom(s, keep, e);
        CountDiffLines(s[i..e], op);
        CountFrom(s, keep, e, op);
      }
    }
  }

  /** Whatever the context width, the hunks hold every change exactly once: their counts are
      the script's. */
  lemma {:induction false} HunksCount(s: seq<Edit>, context: nat, keep: seq<bool>, op: Op)
    requires MarksShown(keep, s, context) && op != Same
    ensures CountHunks(HunksFrom(s, keep, 0), op) == CountOp(s, op)
  {
    ChangesAreKept(s, context, keep);
    assert s[0..] == s;
    CountFrom(s, keep, 0, op);
  }

  lemma {:induction false} NothingShown(s: seq<Edit>, context: nat, keep: seq<bool>)
    requires MarksShown(keep, s, context)
    ensures (forall j | 0 <= j < |s| :: !keep[j]) <==> (forall k | 0 <= k < |s| :: s[k].op == Same)
  {
    ChangesAreKept(s, context, keep);
    if j :| 0 <= j < |s| && keep[j] {
      assert Shown(s, context, j);
    }
  }

  lemma {:induction false} SameIffEqual(a: seq<string>, b: seq<string>)
    ensures (forall k | 0 <= k < |Script(a, b, 0, 0)| :: Script(a, b, 0, 0)[k].op == Same) <==> a == b
  {
    var s := Script(a, b, 0, 0);
    ScriptSides(a, b, 0, 0);
    assert a[0..] == a && b[0..] == b;
    if forall k | 0 <= k < |s| :: s[k].op == Same {
      AllSame(s);
    }
    if a == b {
      EqualScript(a, 0);
    }
  }

  /** There is nothing to show exactly when the two files have the same lines. */
  lemma {:induction false} NoHunksIffEqual(a: seq<string>, b: seq<string>, context: nat, keep: seq<bool>)
    requires MarksShown(keep, Script(a, b, 0, 0), context)
    ensures HunksFrom(Script(a, b, 0, 0), keep, 0) == [] <==> a == b
  {
    var s := Script(a, b, 0, 0);
    SameIffEqual(a, b);
    NothingShown(s, context, keep);
    NoHunks(s, keep, 0);
  }

  lemma {:induction false} EqualScript(a: seq<string>, i: nat)
    requires i <= |a|
    ensures forall k | 0 <= k < |Script(a, a, i, i)| :: Script(a, a, i, i)[k].op == Same
    decreases |a| - i
  {
    if i < |a| { EqualScript(a, i + 1); }
  }
}
