/** Diffing whole texts, and attributing an edit script to the sections of the rendered config.
    (internal/render/diff.go, splitLines, Diff and SectionDiff) */
module SectionDiff {
  import opened Options
  import opened EditScript
  import opened Hunks

  // ----- texts and lines

  /** Every "\r\n" replaced by "\n", left to right. */
  function Normalize(s: string): string {
    if |s| < 2 then s
    else if s[0] == '\r' && s[1] == '\n' then ['\n'] + Normalize(s[2..])
    else [s[0]] + Normalize(s[1..])
  }

  function TrimNewline(s: string): string {
    if s != "" && s[|s| - 1] == '\n' then s[..|s| - 1] else s
  }

  /** The pieces of a text between its newlines; a text without one is a single piece. */
  function Pieces(s: string): (r: seq<string>)
    ensures |r| >= 1
  {
    if s == "" then [""]
    else if s[0] == '\n' then [""] + Pieces(s[1..])
    else var r := Pieces(s[1..]); [[s[0]] + r[0]] + r[1..]
  }

  function SplitLines(s: string): seq<string> {
    if s == "" then [] else Pieces(TrimNewline(Normalize(s)))
  }

  function Newlines(s: string): nat {
    if s == "" then 0 else (if s[0] == '\n' then 1 else 0) + Newlines(s[1..])
  }

  ghost predicate EndsInNewline(s: string) { s != "" && s[|s| - 1] == '\n' }

  lemma {:induction false} NormalizeConcat(x: string, y: string)
    requires x == "" || x[|x| - 1] != '\r'
    ensures Normalize(x + y) == Normalize(x) + Normalize(y)
    decreases |x|
  {
    if x == "" {
      assert x + y == y;
    } else if |x| >= 2 && x[0] == '\r' && x[1] == '\n' {
      assert (x + y)[2..] == x[2..] + y;
      NormalizeConcat(x[2..], y);
      assert Normalize(x + y) == ['\n'] + Normalize(x[2..] + y);
    } else if |x| == 1 {
      assert (x + y)[1..] == y;
      if |y| == 0 { assert x + y == x; }
    } else {
      assert (x + y)[1..] == x[1..] + y;
      NormalizeConcat(x[1..], y);
      assert Normalize(x + y) == [x[0]] + Normalize(x[1..] + y);
    }
  }

  lemma {:induction false} NormalizeEnds(x: string)
    requires x != ""
    ensures Normalize(x) != ""
    ensures x[|x| - 1] == '\n' ==> EndsInNewline(Normalize(x))
    decreases |x|
  {
    if |x| >= 2 && x[0] == '\r' && x[1] == '\n' {
      if |x| > 2 { NormalizeEnds(x[2..]); }
    } else if |x| >= 2 {
      NormalizeEnds(x[1..]);
    }
  }

  lemma {:induction false} PiecesConcat(u: string, v: string)
    ensures Pieces(u + "\n" + v) == Pieces(u) + Pieces(v)
  {
    var w := u + "\n" + v;
    if u == "" {
      assert w[1..] == v;
    } else {
      assert w[0] == u[0] && w[1..] == u[1..] + "\n" + v;
      PiecesConcat(u[1..], v);
      PiecesGrow(u[0], Pieces(u[1..]), Pieces(v));
    }
  }

  lemma {:induction false} PiecesGrow(c: char, r: seq<string>, t: seq<string>)
    requires r != []
    ensures [""] + (r + t) == ([""] + r) + t
    ensures [[c] + (r + t)[0]] + (r + t)[1..] == ([[c] + r[0]] + r[1..]) + t
  {
  }

  lemma {:induction false} PiecesCount(u: string)
    ensures |Pieces(u)| == 1 + Newlines(u)
  {
    if u != "" { PiecesCount(u[1..]); }
  }

  lemma {:induction false} NewlinesConcat(u: string, v: string)
    ensures Newlines(u + v) == Newlines(u) + Newlines(v)
  {
    if u == "" {
      assert u + v == v;
    } else {
      assert (u + v)[0] == u[0] && (u + v)[1..] == u[1..] + v;
      NewlinesConcat(u[1..], v);
    }
  }

  lemma {:induction false} LineCount(x: string)
    requires EndsInNewline(x)
    ensures |SplitLines(x)| == Newlines(Normalize(x))
  {
    NormalizeEnds(x);
    var nx := Normalize(x);
    var u := TrimNewline(nx);
    assert nx == u + "\n";
    PiecesCount(u);
    NewlinesConcat(u, "\n");
    assert Newlines("\n") == 1 + Newlines("");
  }

  lemma {:induction false} PiecesOfConcat(nx: string, ny: string)
    requires EndsInNewline(nx) && ny != ""
    ensures Pieces(TrimNewline(nx + ny)) == Pieces(TrimNewline(nx)) + Pieces(TrimNewline(ny))
  {
    var u, v := TrimNewline(nx), TrimNewline(ny);
    assert nx == u + "\n";
    assert TrimNewline(nx + ny) == u + "\n" + v;
    PiecesConcat(u, v);
  }

  /** Putting a text after one that ends in a newline puts its lines after the other's. */
  lemma {:induction false} LinesOfConcat(x: string, y: string)
    requires EndsInNewline(x)
    ensures SplitLines(x + y) == SplitLines(x) + SplitLines(y)
  {
    if y == "" {
      assert x + y == x;
    } else {
      NormalizeEnds(x);
      NormalizeConcat(x, y);
      NormalizeEnds(y);
      PiecesOfConcat(Normalize(x), Normalize(y));
    }
  }

  /** The whole-file diff. The hunks patch the old lines into the new ones and, read in reverse, the
      new ones back into the old; there are none exactly when the two texts differ by no more than
      line-end style and one final newline. */
  method Diff(oldText: string, newText: string, context: int) returns (out: seq<Hunk>)
    ensures Patch(SplitLines(oldText), out, 0, []) == Some(SplitLines(newText))
    ensures Patch(SplitLines(newText), FlipHunks(out), 0, []) == Some(SplitLines(oldText))
    ensures out == [] <==> SameText(oldText, newText)
    ensures Groups(out, Script(SplitLines(oldText), SplitLines(newText), 0, 0), if context < 0 then 0 else context)
    ensures CountHunks(out, Inserted) == CountOp(Script(SplitLines(oldText), SplitLines(newText), 0, 0), Inserted)
    ensures CountHunks(out, Deleted) == CountOp(Script(SplitLines(oldText), SplitLines(newText), 0, 0), Deleted)
  {
    ghost var a, b := SplitLines(oldText), SplitLines(newText);
    SameLinesExactly(oldText, newText);
    if oldText == newText {
      assert a == b && [] + a[0..] == b && FlipHunks([]) == [];
      EqualScript(a, 0);
      NoChangeCounts(Script(a, b, 0, 0));
      NoChangeNoHunks(Script(a, b, 0, 0), if context < 0 then 0 else context);
      return [];
    }
    var width := if context < 0 then 0 else context;
    var oldLines, newLines := SplitLines(oldText), SplitLines(newText);
    var script := LcsScript(oldLines, newLines);
    out := GroupHunks(script, width);
    ghost var keep :| MarksShown(keep, script, width) && out == HunksFrom(script, keep, 0);
    ScriptIsShortest(a, b, [], []);
    HunksPatch(script, width, keep);
    HunksUndo(script, width, keep);
    NoHunksIffEqual(a, b, width, keep);
    HunksCount(script, width, keep, Inserted);
    HunksCount(script, width, keep, Deleted);
  }

  lemma {:induction false} NoChangeCounts(s: seq<Edit>)
    requires forall k | 0 <= k < |s| :: s[k].op == Same
    ensures CountOp(s, Inserted) == 0 && CountOp(s, Deleted) == 0
  {
    if s != [] { NoChangeCounts(s[1..]); }
  }

  /** A text is known by the pieces between its newlines. */
  lemma {:induction false} PiecesTellTexts(u: string, v: string)
    requires Pieces(u) == Pieces(v)
    ensures u == v
  {
    var x, y := Pieces(u)[0], Pieces(v)[0];
    if x == "" {
      if u == "" || v == "" {
        PiecesCount(u);
        PiecesCount(v);
      } else {
        assert Pieces(u[1..]) == Pieces(u)[1..] && Pieces(v[1..]) == Pieces(v)[1..];
        PiecesTellTexts(u[1..], v[1..]);
      }
    } else {
      assert Pieces(u[1..]) == [x[1..]] + Pieces(u)[1..];
      assert Pieces(v[1..]) == [y[1..]] + Pieces(v)[1..];
      PiecesTellTexts(u[1..], v[1..]);
      assert u[0] == x[0] && v[0] == y[0];
    }
  }

  /** What an empty diff says of the two texts: once "\r\n" is read as "\n" they differ by at most
      one final newline, and one of them is empty only if the other is. */
  ghost predicate SameText(x: string, y: string) {
    (x == "" <==> y == "") && TrimNewline(Normalize(x)) == TrimNewline(Normalize(y))
  }

  lemma {:induction false} SameLinesExactly(x: string, y: string)
    ensures SplitLines(x) == SplitLines(y) <==> SameText(x, y)
  {
    if x != "" && y != "" && SplitLines(x) == SplitLines(y) {
      PiecesTellTexts(TrimNewline(Normalize(x)), TrimNewline(Normalize(y)));
    }
  }

  /** An empty diff does not mean identical texts: a final newline is not a line. */
  lemma {:induction false} EmptyDiffOfDifferentTexts()
    ensures "a\n" != "a" && SplitLines("a\n") == SplitLines("a")
  {
    assert Normalize("a\n") == "a\n" by { assert "a\n"[1..] == "\n"; assert ['a'] + "\n" == "a\n"; }
    assert TrimNewline("a\n") == "a";
  }

  // ----- sections

  function Concat(bodies: seq<string>): string {
    if bodies == [] then "" else bodies[0] + Concat(bodies[1..])
  }

  function Flatten(blocks: seq<seq<Edit>>): seq<Edit> {
    if blocks == [] then [] else blocks[0] + Flatten(blocks[1..])
  }

  /** The lines whose owner is section `si`. */
  function Owned(lines: seq<string>, lineOf: seq<nat>, si: nat): seq<string>
    requires |lines| <= |lineOf|
  {
    if lines == [] then []
    else
      var k := |lines| - 1;
      Owned(lines[..k], lineOf, si) + if lineOf[k] == si then [lines[k]] else []
  }

  ghost predicate Owners(lineOf: seq<nat>, n: nat) {
    && (forall k | 0 <= k < |lineOf| :: lineOf[k] < n)
    && (forall j, k | 0 <= j < k < |lineOf| :: lineOf[j] <= lineOf[k])
  }

  lemma {:induction false} FlattenAppend(blocks: seq<seq<Edit>>, si: nat, e: Edit)
    requires si < |blocks| && forall k | si < k < |blocks| :: blocks[k] == []
    ensures Flatten(blocks[si := blocks[si] + [e]]) == Flatten(blocks) + [e]
  {
    var after := blocks[si := blocks[si] + [e]];
    if si == 0 {
      assert after[1..] == blocks[1..];
      FlattenEmpty(blocks[1..]);
      assert Flatten(blocks) == blocks[0] + [];
    } else {
      assert after[1..] == blocks[1..][si - 1 := blocks[1..][si - 1] + [e]];
      FlattenAppend(blocks[1..], si - 1, e);
    }
  }

  lemma {:induction false} FlattenEmpty(blocks: seq<seq<Edit>>)
    requires forall k | 0 <= k < |blocks| :: blocks[k] == []
    ensures Flatten(blocks) == []
  {
    if blocks != [] { FlattenEmpty(blocks[1..]); }
  }

  lemma {:induction false} PrefixSide(s: seq<Edit>, k: nat)
    requires k < |s|
    ensures NewSide(s[..k + 1]) == NewSide(s[..k]) + if s[k].op == Deleted then [] else [s[k].text]
    ensures |NewSide(s[..k + 1])| <= |NewSide(s)|
  {
    assert s[..k + 1] == s[..k] + [s[k]] && s == s[..k + 1] + s[k + 1..];
    SidesConcat(s[..k], [s[k]]);
    SidesConcat(s[..k + 1], s[k + 1..]);
    WithoutOne(s[k], Deleted);
  }

  lemma {:induction false} OwnedStep(block: seq<Edit>, e: Edit, lines: seq<string>, lineOf: seq<nat>, si: nat)
    requires |lines| + (if e.op == Deleted then 0 else 1) <= |lineOf|
    requires NewSide(block) == Owned(lines, lineOf, si)
    requires e.op != Deleted ==> lineOf[|lines|] == si
    ensures NewSide(block + [e]) == Owned(lines + if e.op == Deleted then [] else [e.text], lineOf, si)
  {
    SidesConcat(block, [e]);
    WithoutOne(e, Deleted);
    if e.op == Deleted {
      assert lines + [] == lines;
    } else {
      assert (lines + [e.text])[..|lines|] == lines;
    }
  }

  lemma {:induction false} OwnedElsewhere(e: Edit, lines: seq<string>, lineOf: seq<nat>, si: nat, s: nat)
    requires |lines| + (if e.op == Deleted then 0 else 1) <= |lineOf| && s != si
    requires e.op != Deleted ==> lineOf[|lines|] == si
    ensures Owned(lines + if e.op == Deleted then [] else [e.text], lineOf, s) == Owned(lines, lineOf, s)
  {
    if e.op == Deleted {
      assert lines + [] == lines;
    } else {
      assert (lines + [e.text])[..|lines|] == lines;
    }
  }

  /** How far a script is split among `n` sections: its first `k` edits are, the last of them
      into section `cur`. */
  ghost predicate Attributed(script: seq<Edit>, lineOf: seq<nat>, n: nat, k: nat, cur: nat, blocks: seq<seq<Edit>>)
    requires k <= |script|
  {
    var lines := NewSide(script[..k]);
    && cur < n == |blocks| && Flatten(blocks) == script[..k]
    && (forall s | cur < s < n :: blocks[s] == [])
    && |lines| <= |NewSide(script)| <= |lineOf|
    && (forall j | |lines| <= j < |lineOf| :: cur <= lineOf[j])
    && forall s | 0 <= s < n :: NewSide(blocks[s]) == Owned(lines, lineOf, s)
  }

  lemma {:induction false} OwnedAfter(blocks: seq<seq<Edit>>, e: Edit, lines: seq<string>, lineOf: seq<nat>, si: nat)
    requires |lines| + (if e.op == Deleted then 0 else 1) <= |lineOf| && si < |blocks|
    requires e.op != Deleted ==> lineOf[|lines|] == si
    requires forall s | 0 <= s < |blocks| :: NewSide(blocks[s]) == Owned(lines, lineOf, s)
    ensures var after := blocks[si := blocks[si] + [e]];
      forall s | 0 <= s < |blocks| ::
        NewSide(after[s]) == Owned(lines + if e.op == Deleted then [] else [e.text], lineOf, s)
  {
    OwnedStep(blocks[si], e, lines, lineOf, si);
    forall s | 0 <= s < |blocks| && s != si
      ensures NewSide(blocks[s]) == Owned(lines + if e.op == Deleted then [] else [e.text], lineOf, s)
    {
      OwnedElsewhere(e, lines, lineOf, si, s);
    }
  }

  lemma {:induction false} AttributeStep(script: seq<Edit>, lineOf: seq<nat>, n: nat, k: nat, cur: nat, si: nat,
                                         blocks: seq<seq<Edit>>)
    requires k < |script| && Numbered(script, 0, 0) && Owners(lineOf, n)
    requires Attributed(script, lineOf, n, k, cur, blocks)
    requires var at := script[k].newLine; si == if 0 < at <= |lineOf| then lineOf[at - 1] else cur
    ensures Attributed(script, lineOf, n, k + 1, si, blocks[si := blocks[si] + [script[k]]])
  {
    PrefixSide(script, k);
    FlattenAppend(blocks, si, script[k]);
    assert script[..k + 1] == script[..k] + [script[k]];
    OwnedAfter(blocks, script[k], NewSide(script[..k]), lineOf, si);
  }

  /** Splits a script among sections: a line that exists in the new file goes to its owner, a
      deletion to the section last written to. The blocks are contiguous, and each one read
      without its deletions is what its section owns. */
  method Attribute(script: seq<Edit>, lineOf: seq<nat>, n: nat) returns (blocks: seq<seq<Edit>>)
    requires Numbered(script, 0, 0) && Owners(lineOf, n) && |NewSide(script)| <= |lineOf| && n > 0
    ensures |blocks| == n && Flatten(blocks) == script
    ensures forall si | 0 <= si < n :: NewSide(blocks[si]) == Owned(NewSide(script), lineOf, si)
  {
    blocks := seq(n, _ => []);
    FlattenEmpty(blocks);
    var cur: nat := 0;
    assert script[..0] == [];
    for k := 0 to |script|
      invariant Attributed(script, lineOf, n, k, cur, blocks)
    {
      var e := script[k];
      ghost var last := cur;
      if e.newLine > 0 && e.newLine - 1 < |lineOf| {
        cur := lineOf[e.newLine - 1];
      }
      AttributeStep(script, lineOf, n, k, last, cur, blocks);
      blocks := blocks[cur := blocks[cur] + [e]];
    }
    assert script[..|script|] == script;
  }

  ghost predicate Terminated(bodies: seq<string>) {
    forall k | 0 <= k < |bodies| :: EndsInNewline(bodies[k])
  }

  lemma {:induction false} ConcatSnoc(bodies: seq<string>, body: string)
    ensures Concat(bodies + [body]) == Concat(bodies) + body
  {
    if bodies == [] {
      assert [] + [body] == [body] && [body][1..] == [];
    } else {
      assert (bodies + [body])[0] == bodies[0] && (bodies + [body])[1..] == bodies[1..] + [body];
      ConcatSnoc(bodies[1..], body);
    }
  }

  lemma {:induction false} ConcatEnds(bodies: seq<string>)
    requires Terminated(bodies)
    ensures bodies != [] ==> EndsInNewline(Concat(bodies))
  {
    if |bodies| > 1 { ConcatEnds(bodies[1..]); }
  }

  lemma {:induction false} OwnedAppend(lines: seq<string>, more: seq<string>, lineOf: seq<nat>, owner: nat, si: nat)
    requires |lineOf| >= |lines| + |more|
    requires forall k | |lines| <= k < |lines| + |more| :: lineOf[k] == owner
    ensures Owned(lines + more, lineOf, si) == Owned(lines, lineOf, si) + if si == owner then more else []
    decreases |more|
  {
    if more == [] {
      assert lines + more == lines;
    } else {
      var k := |more| - 1;
      assert (lines + more)[..|lines| + k] == lines + more[..k];
      OwnedAppend(lines, more[..k], lineOf, owner, si);
      assert more == more[..k] + [more[k]];
    }
  }

  lemma {:induction false} OwnedExtend(lines: seq<string>, lineOf: seq<nat>, tail: seq<nat>, si: nat)
    requires |lines| <= |lineOf|
    ensures Owned(lines, lineOf + tail, si) == Owned(lines, lineOf, si)
  {
    if lines != [] { OwnedExtend(lines[..|lines| - 1], lineOf, tail, si); }
  }

  function Repeat(owner: nat, count: nat): (r: seq<nat>)
    ensures |r| == count && forall k | 0 <= k < count :: r[k] == owner
  {
    seq(count, _ => owner)
  }

  /** The owner of every candidate line: a section owns as many lines as its body has newlines,
      and the last section owns whatever is left over. */
  method CountOwners(bodies: seq<string>) returns (lineOf: seq<nat>)
    ensures Owners(lineOf, |bodies|)
    ensures Terminated(bodies) ==> |lineOf| == |SplitLines(Concat(bodies))|
    ensures Terminated(bodies) ==> forall si | 0 <= si < |bodies| ::
              Owned(SplitLines(Concat(bodies)), lineOf, si) == SplitLines(bodies[si])
  {
    lineOf := [];
    for s := 0 to |bodies|
      invariant Owners(lineOf, s)
      invariant Terminated(bodies) ==> OwnedSoFar(bodies, s, lineOf)
    {
      ghost var before := lineOf;
      var count := Newlines(Normalize(bodies[s]));
      lineOf := lineOf + Repeat(s, count);
      if Terminated(bodies) { OwnedStillFar(bodies, s, before, lineOf); }
    }
    if Terminated(bodies) { OwnedAtLast(bodies, lineOf); }
  }

  lemma {:induction false} OwnedAtLast(bodies: seq<string>, lineOf: seq<nat>)
    requires OwnedSoFar(bodies, |bodies|, lineOf)
    ensures |lineOf| == |SplitLines(Concat(bodies))|
    ensures forall si | 0 <= si < |bodies| :: Owned(SplitLines(Concat(bodies)), lineOf, si) == SplitLines(bodies[si])
  {
    var n := |bodies|;
    assert bodies[..n] == bodies;
    forall si | 0 <= si < |bodies|
      ensures Owned(SplitLines(Concat(bodies)), lineOf, si) == SplitLines(bodies[si])
    {
      assert OwnedAt(bodies, n, lineOf, si);
    }
  }

  ghost predicate OwnedAt(bodies: seq<string>, s: nat, lineOf: seq<nat>, si: nat)
    requires s <= |bodies| && si < |bodies| && |lineOf| == |SplitLines(Concat(bodies[..s]))|
  {
    Owned(SplitLines(Concat(bodies[..s])), lineOf, si) == if si < s then SplitLines(bodies[si]) else []
  }

  ghost predicate OwnedSoFar(bodies: seq<string>, s: nat, lineOf: seq<nat>)
    requires s <= |bodies|
  {
    && |lineOf| == |SplitLines(Concat(bodies[..s]))|
    && forall si | 0 <= si < |bodies| :: OwnedAt(bodies, s, lineOf, si)
  }

  method LineOwners(bodies: seq<string>) returns (lineOf: seq<nat>)
    requires bodies != []
    ensures Owners(lineOf, |bodies|) && |SplitLines(Concat(bodies))| <= |lineOf|
    ensures Terminated(bodies) ==> forall si | 0 <= si < |bodies| ::
              Owned(SplitLines(Concat(bodies)), lineOf, si) == SplitLines(bodies[si])
  {
    lineOf := CountOwners(bodies);
    ghost var exact := lineOf;
    while |lineOf| < |SplitLines(Concat(bodies))|
      invariant Owners(lineOf, |bodies|)
      invariant Terminated(bodies) ==> lineOf == exact
    {
      lineOf := lineOf + [|bodies| - 1];
    }
  }

  lemma {:induction false} LinesSnoc(bodies: seq<string>, s: nat)
    requires Terminated(bodies) && s < |bodies|
    ensures SplitLines(Concat(bodies[..s + 1])) == SplitLines(Concat(bodies[..s])) + SplitLines(bodies[s])
    ensures |SplitLines(bodies[s])| == Newlines(Normalize(bodies[s]))
  {
    assert bodies[..s + 1] == bodies[..s] + [bodies[s]];
    ConcatSnoc(bodies[..s], bodies[s]);
    LineCount(bodies[s]);
    if s > 0 {
      ConcatEnds(bodies[..s]);
      LinesOfConcat(Concat(bodies[..s]), bodies[s]);
    } else {
      assert bodies[..s] == [] && "" + bodies[s] == bodies[s];
    }
  }

  lemma {:induction false} SectionLines(bodies: seq<string>, s: nat, before: seq<nat>, after: seq<nat>, si: nat)
    requires Terminated(bodies) && s < |bodies|
    requires |before| == |SplitLines(Concat(bodies[..s]))|
    requires after == before + Repeat(s, Newlines(Normalize(bodies[s])))
    ensures |after| == |SplitLines(Concat(bodies[..s + 1]))|
    ensures Owned(SplitLines(Concat(bodies[..s + 1])), after, si) ==
            Owned(SplitLines(Concat(bodies[..s])), before, si) + if si == s then SplitLines(bodies[s]) else []
  {
    LinesSnoc(bodies, s);
    var lines, more := SplitLines(Concat(bodies[..s])), SplitLines(bodies[s]);
    OwnedAppend(lines, more, after, s, si);
    OwnedExtend(lines, before, Repeat(s, Newlines(Normalize(bodies[s]))), si);
  }

  lemma {:induction false} NextOwned(bodies: seq<string>, s: nat, before: seq<nat>, after: seq<nat>, si: nat)
    requires Terminated(bodies) && s < |bodies| && si < |bodies|
    requires |before| == |SplitLines(Concat(bodies[..s]))| && OwnedAt(bodies, s, before, si)
    requires after == before + Repeat(s, Newlines(Normalize(bodies[s])))
    ensures |after| == |SplitLines(Concat(bodies[..s + 1]))| && OwnedAt(bodies, s + 1, after, si)
  {
    SectionLines(bodies, s, before, after, si);
    if si < s { assert SplitLines(bodies[si]) + [] == SplitLines(bodies[si]); }
    if si == s { assert [] + SplitLines(bodies[s]) == SplitLines(bodies[s]); }
  }

  lemma {:induction false} OwnedStillFar(bodies: seq<string>, s: nat, before: seq<nat>, after: seq<nat>)
    requires Terminated(bodies) && s < |bodies| && OwnedSoFar(bodies, s, before)
    requires after == before + Repeat(s, Newlines(Normalize(bodies[s])))
    ensures OwnedSoFar(bodies, s + 1, after)
  {
    var n := s + 1;
    assert OwnedAt(bodies, s, before, 0);
    NextOwned(bodies, s, before, after, 0);
    forall si | 0 <= si < |bodies|
      ensures OwnedAt(bodies, n, after, si)
    {
      assert OwnedAt(bodies, s, before, si);
      NextOwned(bodies, s, before, after, si);
    }
  }

  datatype Status = IsUnchanged | IsAdded | IsRemoved | IsModified

  datatype FileChange = FileChange(added: nat, removed: nat, status: Status, hunks: seq<Hunk>)

  /** What one section's entry says about the block of edits charged to it. */
  ghost predicate Describes(fc: FileChange, block: seq<Edit>, context: nat) {
    && Groups(fc.hunks, block, context)
    && fc.added == CountOp(block, Inserted) && fc.removed == CountOp(block, Deleted)
    && (fc.status == IsUnchanged <==> forall k | 0 <= k < |block| :: block[k].op == Same)
    && (fc.status == IsAdded <==> block != [] && forall k | 0 <= k < |block| :: block[k].op == Inserted)
    && (fc.status == IsRemoved <==> block != [] && forall k | 0 <= k < |block| :: block[k].op == Deleted)
  }

  function SumAdded(fs: seq<FileChange>): nat {
    if fs == [] then 0 else fs[0].added + SumAdded(fs[1..])
  }

  function SumRemoved(fs: seq<FileChange>): nat {
    if fs == [] then 0 else fs[0].removed + SumRemoved(fs[1..])
  }

  lemma {:induction false} SumsAreCounts(fs: seq<FileChange>, blocks: seq<seq<Edit>>, context: nat)
    requires |fs| == |blocks| && forall k | 0 <= k < |fs| :: Describes(fs[k], blocks[k], context)
    ensures SumAdded(fs) == CountOp(Flatten(blocks), Inserted)
    ensures SumRemoved(fs) == CountOp(Flatten(blocks), Deleted)
  {
    if fs != [] {
      CountOpConcat(blocks[0], Flatten(blocks[1..]), Inserted);
      CountOpConcat(blocks[0], Flatten(blocks[1..]), Deleted);
      SumsAreCounts(fs[1..], blocks[1..], context);
    }
  }

  lemma {:induction false} CountsDecide(s: seq<Edit>)
    ensures CountOp(s, Same) + CountOp(s, Inserted) + CountOp(s, Deleted) == |s|
    ensures forall op :: CountOp(s, op) == 0 <==> forall k | 0 <= k < |s| :: s[k].op != op
  {
    if s != [] {
      CountsDecide(s[1..]);
      forall op
        ensures CountOp(s, op) == 0 <==> forall k | 0 <= k < |s| :: s[k].op != op
      {
        if forall k | 0 <= k < |s| :: s[k].op != op {
          assert forall k | 0 <= k < |s[1..]| :: s[1..][k] == s[k + 1];
        } else if forall k | 0 <= k < |s[1..]| :: s[1..][k].op != op {
          assert forall k | 0 < k < |s| :: s[k] == s[1..][k - 1];
        }
      }
    }
  }

  method ChangeOf(block: seq<Edit>, context: nat) returns (fc: FileChange)
    ensures Describes(fc, block, context)
  {
    var hs := GroupHunks(block, context);
    ghost var keep :| MarksShown(keep, block, context) && hs == HunksFrom(block, keep, 0);
    var added, removed := Stat(hs);
    HunksCount(block, context, keep, Inserted);
    HunksCount(block, context, keep, Deleted);
    var hasEqual := false;
    for k := 0 to |block|
      invariant hasEqual <==> exists x | 0 <= x < k :: block[x].op == Same
    {
      if block[k].op == Same {
        hasEqual := true;
        break;
      }
    }
    CountsDecide(block);
    var status := if added == 0 && removed == 0 then IsUnchanged
                  else if removed == 0 && !hasEqual then IsAdded
                  else if added == 0 && !hasEqual then IsRemoved
                  else IsModified;
    fc := FileChange(added, removed, status, hs);
  }

  /** The entries describe the blocks a script is split into: laid end to end they are the script,
      and each read without its deletions is its section's lines. */
  ghost predicate Splits(out: seq<FileChange>, blocks: seq<seq<Edit>>, script: seq<Edit>, bodies: seq<string>, context: nat) {
    && |out| == |blocks| == |bodies|
    && (forall si | 0 <= si < |bodies| :: Describes(out[si], blocks[si], context))
    && Flatten(blocks) == script
    && (Terminated(bodies) ==> forall si | 0 <= si < |bodies| :: NewSide(blocks[si]) == SplitLines(bodies[si]))
  }

  /** The per-section diff of a candidate config: the whole edit script split among its sections,
      the counts adding up to those of the whole-file diff. */
  method PerSection(oldText: string, bodies: seq<string>, context: nat) returns (out: seq<FileChange>)
    ensures |out| == |bodies|
    ensures var script := Script(SplitLines(oldText), SplitLines(Concat(bodies)), 0, 0);
      bodies != [] ==>
        && (exists blocks :: Splits(out, blocks, script, bodies, context))
        && SumAdded(out) == CountOp(script, Inserted) && SumRemoved(out) == CountOp(script, Deleted)
  {
    if bodies == [] {
      return [];
    }
    var oldLines, newLines := SplitLines(oldText), SplitLines(Concat(bodies));
    var lineOf := LineOwners(bodies);
    var script := LcsScript(oldLines, newLines);
    ScriptIsShortest(oldLines, newLines, [], []);
    var perSec := Attribute(script, lineOf, |bodies|);
    out := Changes(perSec, context);
    SumsAreCounts(out, perSec, context);
    assert Splits(out, perSec, script, bodies, context);
  }

  method Changes(blocks: seq<seq<Edit>>, context: nat) returns (out: seq<FileChange>)
    ensures |out| == |blocks| && forall k | 0 <= k < |blocks| :: Describes(out[k], blocks[k], context)
  {
    out := [];
    for si := 0 to |blocks|
      invariant |out| == si && forall k | 0 <= k < si :: Describes(out[k], blocks[k], context)
    {
      var fc := ChangeOf(blocks[si], context);
      out := out + [fc];
    }
  }
}
