/** The few string operations of Go's standard library the models share. */
module Text {
  /** No name twice. */
  ghost predicate Distinct(names: seq<string>) { forall i, j | 0 <= i < j < |names| :: names[i] != names[j] }

  ghost predicate Ascending(at: seq<nat>) { forall j, k | 0 <= j < k < |at| :: at[j] < at[k] }

  predicate IsDigit(c: char) { '0' <= c <= '9' }

  /** unicode.IsSpace. */
  predicate IsSpace(c: char) {
    var n := c as int;
    9 <= n <= 13 || n == 32 || n == 0x85 || n == 0xA0 || n == 0x1680 || 0x2000 <= n <= 0x200A
    || n == 0x2028 || n == 0x2029 || n == 0x202F || n == 0x205F || n == 0x3000
  }

  function TrimLeft(s: string): (r: string)
    ensures |r| <= |s| && (r != "" ==> !IsSpace(r[0]))
  {
    if s != "" && IsSpace(s[0]) then TrimLeft(s[1..]) else s
  }

  function TrimRight(s: string): (r: string)
    ensures |r| <= |s| && r == s[..|r|] && (r != "" ==> !IsSpace(r[|r| - 1]))
  {
    if s != "" && IsSpace(s[|s| - 1]) then TrimRight(s[..|s| - 1]) else s
  }

  /** strings.TrimSpace. */
  function TrimSpace(s: string): string { TrimRight(TrimLeft(s)) }

  function TrimPrefix(s: string, prefix: string): string {
    if prefix <= s then s[|prefix|..] else s
  }

  predicate HasSuffix(s: string, suffix: string) {
    |suffix| <= |s| && s[|s| - |suffix|..] == suffix
  }

  function TrimSuffix(s: string, suffix: string): string {
    if HasSuffix(s, suffix) then s[..|s| - |suffix|] else s
  }

  /** What \s stands for in Go's regular expressions. */
  predicate Blank(c: char) { c == ' ' || c == '\t' || c == '\n' || c == '\r' || c as int == 12 }

  function SkipBlanks(s: string): (r: string)
    ensures |r| <= |s|
  {
    if s != "" && Blank(s[0]) then SkipBlanks(s[1..]) else s
  }

  predicate AllSpace(s: string) { forall c | c in s :: IsSpace(c) }

  lemma {:induction false} LeftDropped(s: string) returns (before: string)
    ensures AllSpace(before) && s == before + TrimLeft(s)
  {
    if s != "" && IsSpace(s[0]) {
      var b := LeftDropped(s[1..]);
      before := [s[0]] + b;
      assert s == [s[0]] + s[1..];
    } else {
      before := "";
    }
  }

  lemma {:induction false} TrimLeftShrinks(s: string)
    ensures |TrimLeft(s)| == |s| ==> TrimLeft(s) == s
    ensures exists i | 0 <= i <= |s| :: TrimLeft(s) == s[i..]
  {
    var before := LeftDropped(s);
    assert TrimLeft(s) == s[|before|..];
  }

  /** Text that trimming leaves alone has no space at either end. */
  lemma {:induction false} TrimmedEnds(s: string)
    requires TrimSpace(s) == s && s != ""
    ensures !IsSpace(s[0]) && !IsSpace(s[|s| - 1]) && TrimLeft(s) == s
  {
    TrimLeftShrinks(s);
  }

  lemma {:induction false} NothingToTrim(s: string)
    requires s != "" ==> !IsSpace(s[0]) && !IsSpace(s[|s| - 1])
    ensures TrimSpace(s) == s
  {
  }

  /** The line end goes, and nothing else. */
  lemma {:induction false} TrimsLineEnd(s: string)
    requires s != "" && !IsSpace(s[0]) && !IsSpace(s[|s| - 1])
    ensures TrimSpace(s + "\n") == s
  {
    assert TrimLeft(s + "\n") == s + "\n";
    assert (s + "\n")[..|s|] == s;
    assert TrimRight(s) == s;
  }

  /** What trimming leaves is a stretch of the text, and has nothing left to trim. */
  lemma {:induction false} TrimIsStretch(s: string) returns (i: nat, j: nat)
    ensures i <= j <= |s| && TrimSpace(s) == s[i..j] && TrimSpace(TrimSpace(s)) == TrimSpace(s)
  {
    TrimLeftShrinks(s);
    i :| 0 <= i <= |s| && TrimLeft(s) == s[i..];
    var t := TrimSpace(s);
    j := i + |t|;
    assert t == s[i..][..|t|];
    if t != "" { assert t[0] == TrimLeft(s)[0]; }
    NothingToTrim(t);
  }

  lemma {:induction false} RightDropped(s: string) returns (after: string)
    ensures AllSpace(after) && s == TrimRight(s) + after
  {
    if s != "" && IsSpace(s[|s| - 1]) {
      var n := |s| - 1;
      var a := RightDropped(s[..n]);
      after := a + [s[n]];
      Appended(s, TrimRight(s), a);
    } else {
      after := "";
    }
  }

  lemma {:induction false} Appended(s: string, r: string, a: string)
    requires s != "" && s[..|s| - 1] == r + a
    ensures s == r + (a + [s[|s| - 1]])
  {
    assert s == s[..|s| - 1] + [s[|s| - 1]];
  }

  /** Trimming takes the space at both ends, all of it, and nothing else. */
  lemma {:induction false} TrimTakesSpace(s: string) returns (before: string, after: string)
    ensures AllSpace(before) && AllSpace(after) && s == before + TrimSpace(s) + after
    ensures TrimSpace(s) != "" ==> !IsSpace(TrimSpace(s)[0]) && !IsSpace(TrimSpace(s)[|TrimSpace(s)| - 1])
  {
    before := LeftDropped(s);
    after := RightDropped(TrimLeft(s));
    TrimmedStart(TrimLeft(s));
  }

  lemma {:induction false} TrimmedStart(s: string)
    ensures TrimRight(s) != "" ==> TrimRight(s)[0] == s[0]
  {
  }
}
