/** The edit script between two line lists: the longest-common-subsequence table, its
    traceback, and what makes the traceback a correct and shortest script.
    (internal/render/diff.go, lcsScript) */
module EditScript {

  /** The three marks of a diff line: ' ', '-' and '+'. */
  datatype Op = Same | Deleted | Inserted

  /** One entry of the script, with its 1-based line numbers (0 where the line does not exist). */
  datatype Edit = Edit(op: Op, text: string, oldLine: nat, newLine: nat)

  // ----- what a script says about the two files

  /** The lines of the edits that do not carry the mark `drop`, in order. */
  function Without(s: seq<Edit>, drop: Op): seq<string> {
    if s == [] then []
    else if s[0].op == drop then Without(s[1..], drop)
    else [s[0].text] + Without(s[1..], drop)
  }

  /** The old lines a script mentions: everything but the insertions. */
  function OldSide(s: seq<Edit>): seq<string> { Without(s, Inserted) }

  /** The new lines a script mentions: everything but the deletions. */
  function NewSide(s: seq<Edit>): seq<string> { Without(s, Deleted) }

  /** The lines a script leaves alone. */
  function Unchanged(s: seq<Edit>): seq<string> {
    if s == [] then []
    else if s[0].op == Same then [s[0].text] + Unchanged(s[1..])
    else Unchanged(s[1..])
  }

  /** Every edit carries the number its line has in the old and in the new file, counting on
      from line `i` and line `j`. */
  ghost predicate Numbered(s: seq<Edit>, i: nat, j: nat) {
    forall k | 0 <= k < |s| ::
      && s[k].oldLine == (if s[k].op == Inserted then 0 else i + |OldSide(s[..k])| + 1)
      && s[k].newLine == (if s[k].op == Deleted then 0 else j + |NewSide(s[..k])| + 1)
  }

  /** Inside a run of changes the deletions come first. */
  ghost predicate DeletionsFirst(s: seq<Edit>) {
    forall k | 0 < k < |s| :: !(s[k - 1].op == Inserted && s[k].op == Deleted)
  }

  lemma {:induction false} WithoutConcat(s: seq<Edit>, t: seq<Edit>, drop: Op)
    ensures Without(s + t, drop) == Without(s, drop) + Without(t, drop)
  {
    if s == [] {
      assert s + t == t;
    } else {
      assert (s + t)[0] == s[0] && (s + t)[1..] == s[1..] + t;
      WithoutConcat(s[1..], t, drop);
    }
  }

  lemma {:induction false} WithoutOne(e: Edit, drop: Op)
    ensures Without([e], drop) == if e.op == drop then [] else [e.text]
  {
    assert [e][1..] == [];
  }

  lemma {:induction false} SidesConcat(s: seq<Edit>, t: seq<Edit>)
    ensures OldSide(s + t) == OldSide(s) + OldSide(t)
    ensures NewSide(s + t) == NewSide(s) + NewSide(t)
  {
    WithoutConcat(s, t, Inserted);
    WithoutConcat(s, t, Deleted);
  }

  lemma {:induction false} NumberedCons(e: Edit, s: seq<Edit>, i: nat, j: nat, i': nat, j': nat)
    requires e.oldLine == (if e.op == Inserted then 0 else i + 1)
    requires e.newLine == (if e.op == Deleted then 0 else j + 1)
    requires i' == i + |OldSide([e])| && j' == j + |NewSide([e])|
    requires Numbered(s, i', j')
    ensures Numbered([e] + s, i, j)
  {
    var r := [e] + s;
    forall k | 0 <= k < |r|
      ensures r[k].oldLine == (if r[k].op == Inserted then 0 else i + |OldSide(r[..k])| + 1)
      ensures r[k].newLine == (if r[k].op == Deleted then 0 else j + |NewSide(r[..k])| + 1)
    {
      if k > 0 {
        assert r[..k] == [e] + s[..k - 1];
        SidesConcat([e], s[..k - 1]);
        assert r[k] == s[k - 1];
      }
    }
  }

  // ----- the longest common subsequence, by the recurrence and by its definition

  function Max(x: nat, y: nat): nat { if x > y then x else y }

  /** The recurrence that fills the table: entry (i, j) is Lcs(a[i..], b[j..]). */
  function Lcs(a: seq<string>, b: seq<string>): nat
    decreases |a| + |b|
  {
    if a == [] || b == [] then 0
    else if a[0] == b[0] then 1 + Lcs(a[1..], b[1..])
    else Max(Lcs(a[1..], b), Lcs(a, b[1..]))
  }

  /** `c` can be got from `a` by leaving lines out. */
  ghost predicate Subsequence(c: seq<string>, a: seq<string>) {
    c == [] || (a != [] && ((c[0] == a[0] && Subsequence(c[1..], a[1..])) || Subsequence(c, a[1..])))
  }

  lemma {:induction false} SubsequenceTail(c: seq<string>, a: seq<string>)
    requires c != [] && Subsequence(c, a)
    ensures a != [] && Subsequence(c[1..], a[1..])
    decreases |a|
  {
    if !(c[0] == a[0] && Subsequence(c[1..], a[1..])) {
      SubsequenceTail(c, a[1..]);
      SubsequenceGrow(c[1..], a[1..]);
    }
  }

  lemma {:induction false} SubsequenceGrow(c: seq<string>, a: seq<string>)
    requires a != [] && Subsequence(c, a[1..])
    ensures Subsequence(c, a)
  {
  }

  /** No common subsequence is longer than the recurrence says. */
  lemma {:induction false} LcsIsUpperBound(c: seq<string>, a: seq<string>, b: seq<string>)
    requires Subsequence(c, a) && Subsequence(c, b)
    ensures |c| <= Lcs(a, b)
    decreases |a| + |b|
  {
    if c != [] {
      if a[0] == b[0] {
        SubsequenceTail(c, a);
        SubsequenceTail(c, b);
        LcsIsUpperBound(c[1..], a[1..], b[1..]);
      } else if c[0] != a[0] {
        LcsIsUpperBound(c, a[1..], b);
      } else {
        LcsIsUpperBound(c, a, b[1..]);
      }
    }
  }

  lemma {:induction false} LcsMonotone(a: seq<string>, b: seq<string>)
    ensures a != [] ==> Lcs(a[1..], b) <= Lcs(a, b) <= Lcs(a[1..], b) + 1
    ensures b != [] ==> Lcs(a, b[1..]) <= Lcs(a, b) <= Lcs(a, b[1..]) + 1
    decreases |a| + |b|
  {
    if a != [] && b != [] {
      LcsMonotone(a[1..], b);
      LcsMonotone(a, b[1..]);
      LcsMonotone(a[1..], b[1..]);
    }
  }

  // ----- the traceback

  /** The script the traceback emits from table position (i, j): match, else delete when the
      table does not prefer an insertion, else insert; then whatever is left over. */
  function Script(a: seq<string>, b: seq<string>, i: nat, j: nat): seq<Edit>
    requires i <= |a| && j <= |b|
    decreases |a| - i + |b| - j
  {
    if i < |a| && j < |b| then
      if a[i] == b[j] then [Edit(Same, a[i], i + 1, j + 1)] + Script(a, b, i + 1, j + 1)
      else if Lcs(a[i + 1..], b[j..]) >= Lcs(a[i..], b[j + 1..]) then
        [Edit(Deleted, a[i], i + 1, 0)] + Script(a, b, i + 1, j)
      else [Edit(Inserted, b[j], 0, j + 1)] + Script(a, b, i, j + 1)
    else if i < |a| then [Edit(Deleted, a[i], i + 1, 0)] + Script(a, b, i + 1, j)
    else if j < |b| then [Edit(Inserted, b[j], 0, j + 1)] + Script(a, b, i, j + 1)
    else []
  }

  ghost predicate IsTable(lengths: array2<nat>, a: seq<string>, b: seq<string>)
    reads lengths
  {
    && lengths.Length0 == |a| + 1 && lengths.Length1 == |b| + 1
    && forall x, y | 0 <= x <= |a| && 0 <= y <= |b| :: lengths[x, y] == Lcs(a[x..], b[y..])
  }

  /** One entry of the table from the three next to it. */
  lemma {:induction false} LcsCell(a: seq<string>, b: seq<string>, i: nat, j: nat)
    requires i < |a| && j < |b|
    ensures Lcs(a[i..], b[j..]) ==
            if a[i] == b[j] then Lcs(a[i + 1..], b[j + 1..]) + 1 else Max(Lcs(a[i + 1..], b[j..]), Lcs(a[i..], b[j + 1..]))
  {
    assert a[i..][1..] == a[i + 1..] && b[j..][1..] == b[j + 1..];
  }

  ghost predicate IsRow(lengths: array2<nat>, a: seq<string>, b: seq<string>, x: nat)
    requires lengths.Length0 == |a| + 1 && lengths.Length1 == |b| + 1 && x <= |a|
    reads lengths
  {
    forall y | 0 <= y <= |b| :: lengths[x, y] == Lcs(a[x..], b[y..])
  }

  /** Fills one row from the one below it. */
  method FillRow(lengths: array2<nat>, a: seq<string>, b: seq<string>, i: nat)
    requires lengths.Length0 == |a| + 1 && lengths.Length1 == |b| + 1 && i < |a|
    requires IsRow(lengths, a, b, i + 1) && lengths[i, |b|] == 0
    modifies lengths
    ensures IsRow(lengths, a, b, i)
    ensures forall x, y | 0 <= x <= |a| && 0 <= y <= |b| && x != i :: lengths[x, y] == old(lengths[x, y])
    ensures forall x | 0 <= x <= |a| && x != i && old(IsRow(lengths, a, b, x)) :: IsRow(lengths, a, b, x)
  {
    var j := |b|;
    while j > 0
      invariant 0 <= j <= |b|
      invariant forall y | j <= y <= |b| :: lengths[i, y] == Lcs(a[i..], b[y..])
      invariant forall x, y | 0 <= x <= |a| && 0 <= y <= |b| && x != i :: lengths[x, y] == old(lengths[x, y])
    {
      j := j - 1;
      LcsCell(a, b, i, j);
      assert lengths[i + 1, j] == old(lengths[i + 1, j]) && lengths[i + 1, j + 1] == old(lengths[i + 1, j + 1]);
      lengths[i, j] := if a[i] == b[j] then lengths[i + 1, j + 1] + 1
                       else Max(lengths[i + 1, j], lengths[i, j + 1]);
    }
  }

  /** Fills the table bottom-up. */
  method FillLengths(a: seq<string>, b: seq<string>) returns (lengths: array2<nat>)
    ensures IsTable(lengths, a, b)
  {
    var n, m := |a|, |b|;
    lengths := new nat[n + 1, m + 1]((i, j) => 0);
    var i := n;
    while i > 0
      invariant 0 <= i <= n
      invariant forall x | i <= x <= n :: IsRow(lengths, a, b, x)
      invariant forall x, y | 0 <= x < i && 0 <= y <= m :: lengths[x, y] == 0
    {
      i := i - 1;
      assert forall x | i < x <= n :: IsRow(lengths, a, b, x);
      FillRow(lengths, a, b, i);
    }
    forall x, y | 0 <= x <= n && 0 <= y <= m
      ensures lengths[x, y] == Lcs(a[x..], b[y..])
    {
      assert IsRow(lengths, a, b, x);
    }
  }

  /** One step of the walk, while neither file is used up. */
  method NextEdit(a: seq<string>, b: seq<string>, lengths: array2<nat>, i: nat, j: nat)
    returns (e: Edit, i': nat, j': nat)
    requires i < |a| && j < |b| && IsTable(lengths, a, b)
    ensures i <= i' <= |a| && j <= j' <= |b| && i + j < i' + j'
    ensures Script(a, b, i, j) == [e] + Script(a, b, i', j')
  {
    if a[i] == b[j] {
      return Edit(Same, a[i], i + 1, j + 1), i + 1, j + 1;
    } else if lengths[i + 1, j] >= lengths[i, j + 1] {
      return Edit(Deleted, a[i], i + 1, 0), i + 1, j;
    } else {
      return Edit(Inserted, b[j], 0, j + 1), i, j + 1;
    }
  }

  lemma {:induction false} AppendStep(out: seq<Edit>, e: Edit, rest: seq<Edit>)
    ensures out + ([e] + rest) == (out + [e]) + rest
  {
  }

  /** Walks the table from the top left corner. */
  method LcsScript(a: seq<string>, b: seq<string>) returns (out: seq<Edit>)
    ensures out == Script(a, b, 0, 0)
  {
    var n, m := |a|, |b|;
    var lengths := FillLengths(a, b);
    var i := 0;
    out := [];
    var j := 0;
    ghost var whole := Script(a, b, 0, 0);
    while i < n && j < m
      invariant 0 <= i <= n && 0 <= j <= m && IsTable(lengths, a, b)
      invariant out + Script(a, b, i, j) == whole
      decreases n - i + m - j
    {
      var e, i', j' := NextEdit(a, b, lengths, i, j);
      AppendStep(out, e, Script(a, b, i', j'));
      out, i, j := out + [e], i', j';
    }
    while i < n
      invariant 0 <= i <= n && 0 <= j <= m && (i == n || j == m)
      invariant out + Script(a, b, i, j) == whole
    {
      OneSideLeft(a, b, i, j);
      AppendStep(out, Edit(Deleted, a[i], i + 1, 0), Script(a, b, i + 1, j));
      out := out + [Edit(Deleted, a[i], i + 1, 0)];
      i := i + 1;
    }
    while j < m
      invariant i == n && 0 <= j <= m
      invariant out + Script(a, b, i, j) == whole
    {
      OneSideLeft(a, b, i, j);
      AppendStep(out, Edit(Inserted, b[j], 0, j + 1), Script(a, b, i, j + 1));
      out := out + [Edit(Inserted, b[j], 0, j + 1)];
      j := j + 1;
    }
    OneSideLeft(a, b, i, j);
    AppendNothing(out);
  }

  lemma {:induction false} AppendNothing(s: seq<Edit>)
    ensures s + [] == s
  {
  }

  /** Once a file is used up, what is left of the other one is all deleted, or all inserted. */
  lemma {:induction false} OneSideLeft(a: seq<string>, b: seq<string>, i: nat, j: nat)
    requires i <= |a| && j <= |b| && (i == |a| || j == |b|)
    ensures Script(a, b, i, j) ==
            if i < |a| then [Edit(Deleted, a[i], i + 1, 0)] + Script(a, b, i + 1, j)
            else if j < |b| then [Edit(Inserted, b[j], 0, j + 1)] + Script(a, b, i, j + 1)
            else []
  {
  }

  // ----- what the traceback guarantees

  lemma {:induction false} ConsSides(e: Edit, rest: seq<Edit>)
    ensures OldSide([e] + rest) == (if e.op == Inserted then [] else [e.text]) + OldSide(rest)
    ensures NewSide([e] + rest) == (if e.op == Deleted then [] else [e.text]) + NewSide(rest)
  {
    SidesConcat([e], rest);
    WithoutOne(e, Inserted);
    WithoutOne(e, Deleted);
  }

  /** The first edit of a script, and where the rest starts. */
  lemma {:induction false} ScriptStep(a: seq<string>, b: seq<string>, i: nat, j: nat) returns (e: Edit, i': nat, j': nat)
    requires i <= |a| && j <= |b| && (i < |a| || j < |b|)
    ensures i <= i' <= |a| && j <= j' <= |b| && i + j < i' + j'
    ensures Script(a, b, i, j) == [e] + Script(a, b, i', j')
    ensures e.oldLine == (if e.op == Inserted then 0 else i + 1) && e.newLine == (if e.op == Deleted then 0 else j + 1)
    ensures a[i..] == (if e.op == Inserted then [] else [e.text]) + a[i'..]
    ensures b[j..] == (if e.op == Deleted then [] else [e.text]) + b[j'..]
    ensures i' == (if e.op == Inserted then i else i + 1) && j' == (if e.op == Deleted then j else j + 1)
  {
    e := Script(a, b, i, j)[0];
    i' := if e.op == Inserted then i else i + 1;
    j' := if e.op == Deleted then j else j + 1;
  }

  /** Read without its insertions the script is the old file, read without its deletions it is
      the new file, both numbered 1, 2, 3, ... */
  lemma {:induction false} ScriptSides(a: seq<string>, b: seq<string>, i: nat, j: nat)
    requires i <= |a| && j <= |b|
    ensures OldSide(Script(a, b, i, j)) == a[i..]
    ensures NewSide(Script(a, b, i, j)) == b[j..]
    ensures Numbered(Script(a, b, i, j), i, j)
    decreases |a| - i + |b| - j
  {
    if i < |a| || j < |b| {
      var e, i', j' := ScriptStep(a, b, i, j);
      ScriptSides(a, b, i', j');
      ConsSides(e, Script(a, b, i', j'));
      WithoutOne(e, Inserted);
      WithoutOne(e, Deleted);
      NumberedCons(e, Script(a, b, i', j'), i, j, i', j');
    }
  }

  /** The unchanged lines number what the table says. */
  lemma {:induction false} ScriptKeepsLcs(a: seq<string>, b: seq<string>, i: nat, j: nat)
    requires i <= |a| && j <= |b|
    ensures |Unchanged(Script(a, b, i, j))| == Lcs(a[i..], b[j..])
    decreases |a| - i + |b| - j
  {
    var s := Script(a, b, i, j);
    if i < |a| || j < |b| {
      var i' := if s[0].op == Inserted then i else i + 1;
      var j' := if s[0].op == Deleted then j else j + 1;
      ScriptKeepsLcs(a, b, i', j');
      assert s[1..] == Script(a, b, i', j');
      assert i < |a| ==> a[i..][1..] == a[i + 1..];
      assert j < |b| ==> b[j..][1..] == b[j + 1..];
    }
  }

  /** A script's unchanged lines are common to both of its sides, and fix its length. */
  lemma {:induction false} UnchangedIsCommon(s: seq<Edit>)
    ensures Subsequence(Unchanged(s), OldSide(s)) && Subsequence(Unchanged(s), NewSide(s))
    ensures |s| == |OldSide(s)| + |NewSide(s)| - |Unchanged(s)|
  {
    if s != [] {
      UnchangedIsCommon(s[1..]);
      if s[0].op != Inserted { assert OldSide(s)[1..] == OldSide(s[1..]); }
      if s[0].op != Deleted { assert NewSide(s)[1..] == NewSide(s[1..]); }
      if s[0].op == Same { assert Unchanged(s)[1..] == Unchanged(s[1..]); }
      if s[0].op == Deleted { SubsequenceGrow(Unchanged(s), OldSide(s)); }
      if s[0].op == Inserted { SubsequenceGrow(Unchanged(s), NewSide(s)); }
    }
  }

  /** The traceback's script is a correct edit script and no correct script is shorter; its
      unchanged lines are a longest common subsequence of the two files. */
  lemma {:induction false} ScriptIsShortest(a: seq<string>, b: seq<string>, other: seq<Edit>, common: seq<string>)
    ensures OldSide(Script(a, b, 0, 0)) == a && NewSide(Script(a, b, 0, 0)) == b
    ensures Numbered(Script(a, b, 0, 0), 0, 0)
    ensures Subsequence(Unchanged(Script(a, b, 0, 0)), a) && Subsequence(Unchanged(Script(a, b, 0, 0)), b)
    ensures Subsequence(common, a) && Subsequence(common, b) ==>
              |common| <= |Unchanged(Script(a, b, 0, 0))|
    ensures OldSide(other) == a && NewSide(other) == b ==> |Script(a, b, 0, 0)| <= |other|
  {
    var s := Script(a, b, 0, 0);
    ScriptSides(a, b, 0, 0);
    ScriptKeepsLcs(a, b, 0, 0);
    assert a[0..] == a && b[0..] == b;
    UnchangedIsCommon(s);
    if Subsequence(common, a) && Subsequence(common, b) { LcsIsUpperBound(common, a, b); }
    UnchangedIsCommon(other);
    if OldSide(other) == a && NewSide(other) == b { LcsIsUpperBound(Unchanged(other), a, b); }
  }

  /** The tie-break: in a run of changes the deletions precede the insertions, so a replaced
      line always reads old first. */
  lemma {:induction false} ScriptDeletesFirst(a: seq<string>, b: seq<string>, i: nat, j: nat)
    requires i <= |a| && j <= |b|
    ensures DeletionsFirst(Script(a, b, i, j))
    decreases |a| - i + |b| - j
  {
    var s := Script(a, b, i, j);
    if i < |a| || j < |b| {
      var i' := if s[0].op == Inserted then i else i + 1;
      var j' := if s[0].op == Deleted then j else j + 1;
      ScriptDeletesFirst(a, b, i', j');
      var rest := Script(a, b, i', j');
      assert s == [s[0]] + rest;
      if s[0].op == Inserted && rest != [] && i < |a| && j' < |b| {
        LcsMonotone(a[i..], b[j..]);
        LcsMonotone(a[i..], b[j'..]);
        LcsMonotone(a[i + 1..], b[j..]);
        assert a[i..][1..] == a[i + 1..] && b[j..][1..] == b[j'..] && b[j'..][1..] == b[j' + 1..];
      }
      forall k | 0 < k < |s|
        ensures !(s[k - 1].op == Inserted && s[k].op == Deleted)
      {
        if k > 1 { assert s[k - 1] == rest[k - 2] && s[k] == rest[k - 1]; }
      }
    }
  }
}
