/** The include lines of a bird.conf: how birdy writes them and how it finds its own again.
    (internal/web/apply.go, includeRe and birdyIncludes; internal/render/files.go, Files) */
module IncludeLines {
  import opened Options
  import opened Text

  /** The text up to the first quote. */
  function UntilQuote(s: string): (r: string)
    ensures |r| <= |s| && r == s[..|r|]
  {
    if s == "" || s[0] == '"' then "" else [s[0]] + UntilQuote(s[1..])
  }

  const KEYWORD := "include"

  /** A quoted path and a semicolon: the path, and the text after the semicolon. */
  function MatchQuoted(c: string): (m: Option<(string, string)>)
    ensures m.Some? ==> |m.value.1| < |c|
  {
    if c == "" || c[0] != '"' then None
    else
      var path := UntilQuote(c[1..]);
      var after := c[1 + |path|..];
      if path == "" || after == "" then None
      else
        var d := SkipBlanks(after[1..]);
        if d == "" || d[0] != ';' then None else Some((path, d[1..]))
  }

  /** An include statement right here: the path it names and the text after its semicolon. */
  function MatchHere(s: string): (m: Option<(string, string)>)
    ensures m.Some? ==> |m.value.1| < |s|
  {
    var a := SkipBlanks(s);
    if !(KEYWORD <= a) then None
    else
      var b := a[|KEYWORD|..];
      if b == "" || !Blank(b[0]) then None else MatchQuoted(SkipBlanks(b))
  }

  /** Every include statement that starts a line, in order. */
  function FindAll(s: string, lineStart: bool): seq<string>
    decreases |s|
  {
    if s == "" then []
    else if lineStart && MatchHere(s).Some? then [MatchHere(s).value.0] + FindAll(MatchHere(s).value.1, false)
    else FindAll(s[1..], s[0] == '\n')
  }

  /** What birdy writes for a list of paths. */
  function Lines(paths: seq<string>): string {
    if paths == [] then "" else "include \"" + paths[0] + "\";\n" + Lines(paths[1..])
  }

  /** The banner above them. */
  function Comments(lines: seq<string>): string {
    if lines == [] then "" else lines[0] + "\n" + Comments(lines[1..])
  }

  ghost predicate PlainPath(path: string) { path != "" && '"' !in path }

  ghost predicate CommentLine(line: string) { line != "" && line[0] == '#' && '\n' !in line }

  lemma {:induction false} UntilQuoteOf(path: string, rest: string)
    requires '"' !in path
    ensures UntilQuote(path + "\"" + rest) == path
  {
    var s := path + "\"" + rest;
    if path != "" {
      assert s[1..] == path[1..] + "\"" + rest;
      UntilQuoteOf(path[1..], rest);
    }
  }

  lemma {:induction false} QuotedParts(path: string, tail: string)
    requires '"' !in path
    ensures var c := "\"" + path + ("\"" + tail);
      && c[0] == '"' && UntilQuote(c[1..]) == path && c[1 + |path|..] == "\"" + tail && ("\"" + tail)[1..] == tail
  {
    var c := "\"" + path + ("\"" + tail);
    UntilQuoteOf(path, tail);
    assert c[1..] == path + "\"" + tail;
  }

  lemma {:induction false} MatchesQuoted(path: string, rest: string)
    requires PlainPath(path)
    ensures MatchQuoted("\"" + path + "\";\n" + rest) == Some((path, "\n" + rest))
  {
    var tail := ";" + ("\n" + rest);
    QuotedParts(path, tail);
    assert "\"" + path + ("\"" + tail) == "\"" + path + "\";\n" + rest;
    assert SkipBlanks(tail) == tail && tail[1..] == "\n" + rest;
  }

  lemma {:induction false} MatchesLine(path: string, rest: string)
    requires PlainPath(path)
    ensures MatchHere("include \"" + path + "\";\n" + rest) == Some((path, "\n" + rest))
  {
    var c := "\"" + path + "\";\n" + rest;
    var s := KEYWORD + (" " + c);
    assert "include \"" + path + "\";\n" + rest == s;
    assert s[0] == 'i' && SkipBlanks(s) == s;
    assert s[|KEYWORD|..] == " " + c;
    assert (" " + c)[1..] == c && SkipBlanks(c) == c;
    MatchesQuoted(path, rest);
  }

  lemma {:induction false} FindsLines(paths: seq<string>)
    requires forall k | 0 <= k < |paths| :: PlainPath(paths[k])
    ensures FindAll(Lines(paths), true) == paths
  {
    if paths != [] {
      var rest := Lines(paths[1..]);
      MatchesLine(paths[0], rest);
      assert ("\n" + rest)[1..] == rest;
      FindsLines(paths[1..]);
    }
  }

  lemma {:induction false} SkipsLine(line: string, rest: string)
    requires '\n' !in line
    ensures FindAll(line + "\n" + rest, false) == FindAll(rest, true)
  {
    var s := line + "\n" + rest;
    if line == "" {
      assert s[1..] == rest;
    } else {
      assert s[0] == line[0] && s[1..] == line[1..] + "\n" + rest;
      SkipsLine(line[1..], rest);
    }
  }

  lemma {:induction false} SkipsComment(line: string, rest: string)
    requires CommentLine(line)
    ensures FindAll(line + "\n" + rest, true) == FindAll(rest, true)
  {
    var s := line + "\n" + rest;
    assert SkipBlanks(s) == s && !(KEYWORD <= s);
    assert s[0] == line[0] && s[1..] == line[1..] + "\n" + rest;
    SkipsLine(line[1..], rest);
  }

  lemma {:induction false} SkipsBlankLine(rest: string)
    ensures FindAll("\n" + rest, true) == FindAll(rest, true)
  {
    assert ("\n" + rest)[1..] == rest;
    assert SkipBlanks("\n" + rest) == SkipBlanks(rest);
    assert MatchHere("\n" + rest) == MatchHere(rest);
    if rest == "" { assert SkipBlanks("\n") == ""; }
  }

  /** birdy finds exactly the paths it wrote, in order, banner or not. */
  lemma {:induction false} FindsWritten(banner: seq<string>, paths: seq<string>)
    requires forall k | 0 <= k < |banner| :: CommentLine(banner[k])
    requires forall k | 0 <= k < |paths| :: PlainPath(paths[k])
    ensures FindAll(Comments(banner) + "\n" + Lines(paths), true) == paths
  {
    if banner == [] {
      assert Comments(banner) + "\n" + Lines(paths) == "\n" + Lines(paths);
      SkipsBlankLine(Lines(paths));
      FindsLines(paths);
    } else {
      var rest := Comments(banner[1..]) + "\n" + Lines(paths);
      assert Comments(banner) + "\n" + Lines(paths) == banner[0] + "\n" + rest;
      SkipsComment(banner[0], rest);
      FindsWritten(banner[1..], paths);
    }
  }

  // ----- which of them are birdy's

  const INCLUDE_DIR := "birdy.d"

  /** Every backslash made a slash. */
  function Slashed(s: string): (t: string)
    ensures |t| == |s| && forall k | 0 <= k < |s| :: t[k] == if s[k] == '\\' then '/' else s[k]
  {
    seq(|s|, k requires 0 <= k < |s| => if s[k] == '\\' then '/' else s[k])
  }

  /** The directory the paths are written under: the config directory with its backslashes turned
      and its last slashes off, or "." when that leaves nothing. */
  function Base(dir: string): string {
    var base := TrimSlashes(Slashed(dir));
    if base == "" then "." else base
  }

  function TrimSlashes(s: string): (t: string)
    ensures |t| <= |s| && t == s[..|t|] && forall k | |t| <= k < |s| :: s[k] == '/'
    ensures t != "" ==> t[|t| - 1] != '/'
  {
    if s != "" && s[|s| - 1] == '/' then TrimSlashes(s[..|s| - 1]) else s
  }

  /** Where birdy's own files live. */
  function OwnDir(dir: string): string {
    if HasSuffix(dir, "/") then dir + INCLUDE_DIR + "/" else dir + "/" + INCLUDE_DIR + "/"
  }

  /** The file in birdy's own directory a path names, if it names one. */
  function OwnName(dir: string, path: string): Option<string> {
    if OwnDir(dir) <= path && '/' !in path[|OwnDir(dir)|..] && path != OwnDir(dir) then Some(path[|OwnDir(dir)|..])
    else None
  }

  function OwnNames(dir: string, paths: seq<string>): seq<string> {
    if paths == [] then []
    else
      (match OwnName(dir, paths[0]) case Some(name) => [name] case None => []) + OwnNames(dir, paths[1..])
  }

  /** birdy's own includes in a bird.conf. */
  function BirdyIncludes(dir: string, conf: string): seq<string> { OwnNames(dir, FindAll(conf, true)) }

  function IncludePath(dir: string, name: string): string { Base(dir) + "/" + INCLUDE_DIR + "/" + name }

  function IncludePaths(dir: string, names: seq<string>): (p: seq<string>)
    ensures |p| == |names| && forall k | 0 <= k < |p| :: p[k] == IncludePath(dir, names[k])
  {
    if names == [] then [] else [IncludePath(dir, names[0])] + IncludePaths(dir, names[1..])
  }

  /** A directory as filepath.Dir returns it: not empty, and no slash at the end unless it is the
      root. */
  ghost predicate CleanDir(dir: string) { dir != "" && (dir != "/" ==> dir[|dir| - 1] != '/') }

  /** The directories whose includes birdy finds again. */
  predicate Recognisable(dir: string) { dir != "/" && '\\' !in dir && '"' !in dir }

  ghost predicate PlainName(name: string) { name != "" && '/' !in name && '"' !in name }

  lemma {:induction false} BaseIsDir(dir: string)
    requires CleanDir(dir) && dir != "/" && '\\' !in dir
    ensures Base(dir) == dir
  {
    assert Slashed(dir) == dir;
  }

  lemma {:induction false} OwnNamesOfPaths(dir: string, names: seq<string>)
    requires CleanDir(dir) && dir != "/" && '\\' !in dir
    requires forall k | 0 <= k < |names| :: PlainName(names[k])
    ensures OwnNames(dir, IncludePaths(dir, names)) == names
  {
    if names != [] {
      OwnNameOfPath(dir, names[0]);
      OwnNamesOfPaths(dir, names[1..]);
      OwnNamesCons(dir, names[0], IncludePath(dir, names[0]), IncludePaths(dir, names[1..]));
      assert names == [names[0]] + names[1..];
    }
  }

  lemma {:induction false} OwnNamesCons(dir: string, name: string, path: string, paths: seq<string>)
    requires OwnName(dir, path) == Some(name)
    ensures OwnNames(dir, [path] + paths) == [name] + OwnNames(dir, paths)
  {
    assert ([path] + paths)[1..] == paths;
  }

  lemma {:induction false} OwnNameOfPath(dir: string, name: string)
    requires CleanDir(dir) && dir != "/" && '\\' !in dir && PlainName(name)
    ensures OwnName(dir, IncludePath(dir, name)) == Some(name)
  {
    BaseIsDir(dir);
    var p := IncludePath(dir, name);
    assert p == OwnDir(dir) + name && p[|OwnDir(dir)|..] == name;
  }

  lemma {:induction false} ForeignPaths(dir: string, paths: seq<string>)
    requires forall k | 0 <= k < |paths| :: !(OwnDir(dir) <= paths[k])
    ensures OwnNames(dir, paths) == []
  {
    if paths != [] { ForeignPaths(dir, paths[1..]); }
  }

  /** In the root directory the paths are written under ".". */
  lemma {:induction false} RootIsForeign(name: string)
    ensures !(OwnDir("/") <= IncludePath("/", name))
  {
    assert Slashed("/") == "/" && "/"[..0] == "" && TrimSlashes("/") == TrimSlashes("");
    assert IncludePath("/", name)[0] == '.' && OwnDir("/")[0] == '/';
  }

  /** A directory with a backslash is written with a slash in its place, and looked for as it is. */
  lemma {:induction false} BackslashIsForeign(dir: string, name: string)
    requires CleanDir(dir) && '\\' in dir
    ensures !(OwnDir(dir) <= IncludePath(dir, name))
  {
    var base, tail := TrimSlashes(Slashed(dir)), "/" + INCLUDE_DIR + "/";
    var b :| 0 <= b < |dir| && dir[b] == '\\';
    assert OwnDir(dir) == dir + tail && tail[0] == '/' && tail[1] == 'b';
    if base == "" {
      assert IncludePath(dir, name)[0] == '.' && Slashed(dir)[0] == '/';
      DifferAt(OwnDir(dir), IncludePath(dir, name), 0);
    } else {
      PathUnder(base, name);
      BackslashDiffers(dir, Slashed(dir), |base|, b, tail, tail + name);
    }
  }

  lemma {:induction false} PathUnder(base: string, name: string)
    ensures base + "/" + INCLUDE_DIR + "/" + name == base + ("/" + INCLUDE_DIR + "/" + name)
  {
  }

  /** What is left of a turned directory is shorter than a backslash's place, or has a slash there. */
  lemma {:induction false} BackslashDiffers(dir: string, turned: string, n: nat, b: nat, tail: string, rest: string)
    requires |turned| == |dir| && forall k | 0 <= k < |dir| :: turned[k] == if dir[k] == '\\' then '/' else dir[k]
    requires n <= |dir| && (forall k | n <= k < |dir| :: turned[k] == '/')
    requires b < |dir| && dir[b] == '\\' && |rest| >= 2 && rest[0] == '/' && rest[1] != '/' && rest[1] != '\\'
    ensures !(dir + tail <= turned[..n] + rest)
  {
    var p := turned[..n] + rest;
    if b < n {
      assert p[b] == turned[b];
      DifferAt(dir + tail, p, b);
    } else if dir[n] == '\\' {
      assert p[n] == rest[0];
      DifferAt(dir + tail, p, n);
    } else {
      assert p[n + 1] == rest[1] && turned[n + 1] == '/';
      DifferAt(dir + tail, p, n + 1);
    }
  }

  lemma {:induction false} DifferAt(a: string, b: string, i: nat)
    requires i < |a| && i < |b| && a[i] != b[i]
    ensures !(a <= b)
  {
  }

  lemma {:induction false} UntilQuoteHasNone(s: string)
    ensures '"' !in UntilQuote(s)
  {
    if s != "" && s[0] != '"' { UntilQuoteHasNone(s[1..]); }
  }

  lemma {:induction false} MatchHasNoQuote(s: string)
    ensures MatchHere(s).Some? ==> '"' !in MatchHere(s).value.0
  {
    var b := SkipBlanks(s);
    if KEYWORD <= b {
      var c := SkipBlanks(b[|KEYWORD|..]);
      if c != "" { UntilQuoteHasNone(c[1..]); }
    }
  }

  /** No path the pattern finds has a quote in it. */
  lemma {:induction false} FoundHaveNoQuote(s: string, lineStart: bool)
    ensures forall k | 0 <= k < |FindAll(s, lineStart)| :: '"' !in FindAll(s, lineStart)[k]
    decreases |s|
  {
    if s != "" {
      MatchHasNoQuote(s);
      if lineStart && MatchHere(s).Some? {
        FoundHaveNoQuote(MatchHere(s).value.1, false);
      } else {
        FoundHaveNoQuote(s[1..], s[0] == '\n');
      }
    }
  }

  /** The entry file birdy writes for a list of include files. */
  function EntryText(banner: seq<string>, dir: string, names: seq<string>): string {
    Comments(banner) + "\n" + Lines(IncludePaths(dir, names))
  }

  lemma {:induction false} FindsItsPaths(banner: seq<string>, dir: string, names: seq<string>)
    requires forall k | 0 <= k < |banner| :: CommentLine(banner[k])
    requires '"' !in dir && forall k | 0 <= k < |names| :: PlainName(names[k])
    ensures FindAll(EntryText(banner, dir, names), true) == IncludePaths(dir, names)
  {
    var paths := IncludePaths(dir, names);
    forall k | 0 <= k < |paths|
      ensures PlainPath(paths[k])
    {
      NoQuoteInPath(dir, names[k]);
    }
    FindsWritten(banner, paths);
  }

  lemma {:induction false} NoQuoteInPath(dir: string, name: string)
    requires '"' !in dir && PlainName(name)
    ensures PlainPath(IncludePath(dir, name))
  {
    assert forall k | 0 <= k < |dir| :: dir[k] in dir;
  }

  /** The include files of a bird.conf birdy wrote are the ones it listed, or none of them is found:
      in the root directory, and in one with a backslash or a quote in its name. */
  lemma {:induction false} EntryNamesItsFiles(banner: seq<string>, dir: string, names: seq<string>)
    requires forall k | 0 <= k < |banner| :: CommentLine(banner[k])
    requires CleanDir(dir) && forall k | 0 <= k < |names| :: PlainName(names[k])
    ensures BirdyIncludes(dir, EntryText(banner, dir, names)) == if Recognisable(dir) then names else []
    ensures names != [] ==> (BirdyIncludes(dir, EntryText(banner, dir, names)) == names <==> Recognisable(dir))
  {
    var text, paths := EntryText(banner, dir, names), IncludePaths(dir, names);
    if '"' in dir {
      FoundHaveNoQuote(text, true);
      NothingOwnWithQuote(dir, FindAll(text, true));
    } else {
      FindsItsPaths(banner, dir, names);
      if Recognisable(dir) {
        OwnNamesOfPaths(dir, names);
      } else {
        forall k | 0 <= k < |paths|
          ensures !(OwnDir(dir) <= paths[k])
        {
          if dir == "/" { RootIsForeign(names[k]); } else { BackslashIsForeign(dir, names[k]); }
        }
        ForeignPaths(dir, paths);
      }
    }
  }

  lemma {:induction false} NothingOwnWithQuote(dir: string, paths: seq<string>)
    requires '"' in dir && forall k | 0 <= k < |paths| :: '"' !in paths[k]
    ensures OwnNames(dir, paths) == []
  {
    var b :| 0 <= b < |dir| && dir[b] == '"';
    forall k | 0 <= k < |paths|
      ensures !(OwnDir(dir) <= paths[k])
    {
      assert OwnDir(dir)[b] == '"';
      if b < |paths[k]| {
        assert paths[k][b] in paths[k];
        DifferAt(OwnDir(dir), paths[k], b);
      }
    }
    ForeignPaths(dir, paths);
  }
}
