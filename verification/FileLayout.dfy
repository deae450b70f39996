/** One file per section: the names of the files, and the layout a rendered configuration gets.
    (internal/render/files.go) */
module FileLayout {
  import opened Options
  import opened Text
  import opened IncludeLines
  import opened ConfigFiles

  /** The text before the first slash: the whole of a path without one. */
  function GroupOf(path: string): (g: string)
    ensures |g| <= |path| && g == path[..|g|] && '/' !in g
    ensures |g| < |path| ==> path[|g|] == '/'
  {
    if path == "" || path[0] == '/' then "" else [path[0]] + GroupOf(path[1..])
  }

  /** A stable number per group, so that related files list together. */
  function GroupNum(group: string): (num: string)
    ensures |num| == 2
  {
    if group == "header" then "00"
    else if group == "globals" then "01"
    else if group == "communities" then "02"
    else if group == "sets" then "03"
    else if group == "bogons" then "04"
    else if group == "rpki" then "05"
    else if group == "protocols" then "06"
    else if group == "static" then "07"
    else if group == "policies" || group == "templates" then "08"
    else if group == "peers" then "09"
    else if group == "raw" then "10"
    else "99"
  }

  function Slug(path: string): (s: string)
    ensures |s| == |path| && '/' !in s
    ensures forall k | 0 <= k < |s| :: s[k] == if path[k] == '/' then '-' else path[k]
    ensures forall c | c in s :: c == '-' || c in path
  {
    if path == "" then "" else [if path[0] == '/' then '-' else path[0]] + Slug(path[1..])
  }

  /** The section's file in birdy.d. */
  function IncludeFileName(path: string): string { GroupNum(GroupOf(path)) + "-" + Slug(path) + ".conf" }

  /** A path with at most one slash, and neither a dash before it nor a quote. */
  ghost predicate SectionPath(path: string) {
    && '-' !in GroupOf(path) && '"' !in path
    && forall k | |GroupOf(path)| < k < |path| :: path[k] != '/'
  }

  lemma {:induction false} SlugGroup(path: string)
    requires '-' !in GroupOf(path)
    ensures |GroupOf(path)| < |path| ==> Slug(path)[|GroupOf(path)|] == '-'
    ensures forall k | 0 <= k < |GroupOf(path)| :: Slug(path)[k] != '-'
  {
    var s, g := Slug(path), GroupOf(path);
    forall k | 0 <= k < |g|
      ensures s[k] == g[k] && s[k] != '-'
    {
      assert g[k] == path[k] && g[k] in g;
    }
  }

  /** The first dash of a text is in one place. */
  lemma {:induction false} FirstDash(s: string, m: nat, n: nat)
    requires m <= |s| && n <= |s|
    requires m < |s| ==> s[m] == '-'
    requires n < |s| ==> s[n] == '-'
    requires forall k | 0 <= k < m :: s[k] != '-'
    requires forall k | 0 <= k < n :: s[k] != '-'
    ensures m == n
  {
  }

  lemma {:induction false} SameSlug(num: string, slug: string, num': string, slug': string)
    requires |num| == |num'| == 2 && num + "-" + slug + ".conf" == num' + "-" + slug' + ".conf"
    ensures slug == slug'
  {
    var a, b := num + "-" + slug + ".conf", num' + "-" + slug' + ".conf";
    assert a[3..|a| - 5] == slug && b[3..|b| - 5] == slug';
  }

  /** Different section paths get different files. */
  lemma {:induction false} FileNamesInjective(p: string, q: string)
    requires SectionPath(p) && SectionPath(q) && IncludeFileName(p) == IncludeFileName(q)
    ensures p == q
  {
    SameSlug(GroupNum(GroupOf(p)), Slug(p), GroupNum(GroupOf(q)), Slug(q));
    SlugsInjective(p, q);
  }

  lemma {:induction false} SlugsInjective(p: string, q: string)
    requires SectionPath(p) && SectionPath(q) && Slug(p) == Slug(q)
    ensures p == q
  {
    SlugGroup(p);
    SlugGroup(q);
    FirstDash(Slug(p), |GroupOf(p)|, |GroupOf(q)|);
    SameText(p, q, |GroupOf(p)|);
  }

  /** A slug and the place of its slash give the path back. */
  lemma {:induction false} SameText(p: string, q: string, n: nat)
    requires Slug(p) == Slug(q) && n <= |p| && n == |GroupOf(p)| == |GroupOf(q)|
    requires forall k | n < k < |p| :: p[k] != '/'
    requires forall k | n < k < |q| :: q[k] != '/'
    ensures p == q
  {
    assert |p| == |q|;
    forall k | 0 <= k < |p|
      ensures p[k] == q[k]
    {
      assert Slug(p)[k] == Slug(q)[k];
      if k < n { assert p[k] in GroupOf(p) && q[k] in GroupOf(q); }
    }
  }

  lemma {:induction false} SlugConcat(a: string, b: string)
    ensures Slug(a + b) == Slug(a) + Slug(b)
  {
    if a == "" {
      assert a + b == b;
    } else {
      assert (a + b)[0] == a[0] && (a + b)[1..] == a[1..] + b;
      SlugConcat(a[1..], b);
    }
  }

  /** A second slash is enough to lose that: both of these paths share a file. */
  lemma {:induction false} SlashesCollide(group: string, a: string, b: string)
    requires '/' !in group
    ensures IncludeFileName(group + "/" + (a + "/" + b)) == IncludeFileName(group + "/" + (a + "-" + b))
  {
    GroupPrefix(group, a + "/" + b);
    GroupPrefix(group, a + "-" + b);
    SlugConcat(group + "/", a + "/" + b);
    SlugConcat(group + "/", a + "-" + b);
    SlugConcat(a + "/", b);
    SlugConcat(a + "-", b);
    SlugConcat(a, "/");
    SlugConcat(a, "-");
    assert Slug("/") == Slug("-") == "-";
  }

  lemma {:induction false} GroupPrefix(group: string, rest: string)
    requires '/' !in group
    ensures GroupOf(group + "/" + rest) == group
  {
    var p := group + "/" + rest;
    if group != "" {
      assert p[0] == group[0] && p[1..] == group[1..] + "/" + rest;
      GroupPrefix(group[1..], rest);
    }
  }

  // ----- the layout

  /** A rendered section: its path and its text. */
  datatype TextSection = TextSection(path: string, body: string)

  /** The configuration in one piece. */
  function WholeText(secs: seq<TextSection>): string {
    if secs == [] then "" else secs[0].body + WholeText(secs[1..])
  }

  function SectionFiles(secs: seq<TextSection>): (files: seq<File>)
    ensures |files| == |secs|
    ensures forall k | 0 <= k < |files| :: files[k] == File(IncludeFileName(secs[k].path), secs[k].body)
  {
    if secs == [] then [] else [File(IncludeFileName(secs[0].path), secs[0].body)] + SectionFiles(secs[1..])
  }

  function Laid(banner: seq<string>, dir: string, secs: seq<TextSection>): FileSet {
    FileSet(EntryText(banner, dir, NamesOf(SectionFiles(secs))), SectionFiles(secs))
  }

  function IncludeLine(dir: string, name: string): string { "include \"" + IncludePath(dir, name) + "\";\n" }

  /** The include lines of a list of sections. */
  function EntryLines(dir: string, secs: seq<TextSection>): string {
    if secs == [] then ""
    else IncludeLine(dir, IncludeFileName(secs[0].path)) + EntryLines(dir, secs[1..])
  }

  lemma {:induction false} EntryLinesAre(dir: string, secs: seq<TextSection>)
    ensures EntryLines(dir, secs) == Lines(IncludePaths(dir, NamesOf(SectionFiles(secs))))
  {
    if secs != [] {
      var files := SectionFiles(secs);
      assert files[1..] == SectionFiles(secs[1..]);
      assert NamesOf(files)[1..] == NamesOf(files[1..]);
      assert IncludePaths(dir, NamesOf(files))[1..] == IncludePaths(dir, NamesOf(files[1..]));
      EntryLinesAre(dir, secs[1..]);
    }
  }

  /** The entry after section `i`'s line has been written. */
  lemma {:induction false} EntryGrows(dir: string, secs: seq<TextSection>, i: nat, entry: string, whole: string)
    requires i < |secs| && entry + EntryLines(dir, secs[i..]) == whole
    ensures entry + IncludeLine(dir, IncludeFileName(secs[i].path)) + EntryLines(dir, secs[i + 1..]) == whole
  {
    NextEntryLine(dir, secs, i);
    JoinThree(entry, IncludeLine(dir, IncludeFileName(secs[i].path)), EntryLines(dir, secs[i + 1..]));
  }

  lemma {:induction false} JoinThree(a: string, b: string, c: string)
    ensures a + b + c == a + (b + c)
  {
  }

  lemma {:induction false} NextEntryLine(dir: string, secs: seq<TextSection>, i: nat)
    requires i < |secs|
    ensures EntryLines(dir, secs[i..]) == IncludeLine(dir, IncludeFileName(secs[i].path)) + EntryLines(dir, secs[i + 1..])
    ensures SectionFiles(secs)[..i + 1] == SectionFiles(secs)[..i] + [File(IncludeFileName(secs[i].path), secs[i].body)]
  {
    assert secs[i..][1..] == secs[i + 1..];
  }

  /** Builds the entry and the include files section by section. */
  method Files(banner: seq<string>, dir: string, secs: seq<TextSection>) returns (fs: FileSet)
    ensures fs == Laid(banner, dir, secs)
  {
    var entry, includes, i := Comments(banner) + "\n", [], 0;
    ghost var whole := entry + EntryLines(dir, secs);
    assert secs[0..] == secs;
    while i < |secs|
      invariant 0 <= i <= |secs|
      invariant includes == SectionFiles(secs)[..i]
      invariant entry + EntryLines(dir, secs[i..]) == whole
    {
      EntryGrows(dir, secs, i, entry, whole);
      NextEntryLine(dir, secs, i);
      var name := IncludeFileName(secs[i].path);
      entry := entry + IncludeLine(dir, name);
      includes := includes + [File(name, secs[i].body)];
      i := i + 1;
    }
    EntryLinesAre(dir, secs);
    EntryDone(dir, secs, entry, whole);
    assert SectionFiles(secs)[..i] == SectionFiles(secs);
    return FileSet(entry, includes);
  }

  lemma {:induction false} EntryDone(dir: string, secs: seq<TextSection>, entry: string, whole: string)
    requires entry + EntryLines(dir, secs[|secs|..]) == whole
    ensures entry == whole
  {
    assert secs[|secs|..] == [] && entry + "" == entry;
  }

  ghost predicate DistinctPaths(secs: seq<TextSection>) {
    && (forall k | 0 <= k < |secs| :: SectionPath(secs[k].path))
    && forall i, j | 0 <= i < j < |secs| :: secs[i].path != secs[j].path
  }

  lemma {:induction false} LogicalIsWhole(secs: seq<TextSection>)
    ensures Bodies(SectionFiles(secs)) == WholeText(secs)
  {
    if secs != [] {
      assert SectionFiles(secs)[1..] == SectionFiles(secs[1..]);
      LogicalIsWhole(secs[1..]);
    }
  }

  lemma {:induction false} FileNamesAreConf(path: string)
    requires SectionPath(path)
    ensures IsConf(IncludeFileName(path)) && PlainName(IncludeFileName(path))
  {
    var n := IncludeFileName(path);
    assert n[|n| - 5..] == ".conf";
    assert '"' !in Slug(path);
  }

  lemma {:induction false} OtherPathOtherName(path: string, other: string)
    requires SectionPath(path) && SectionPath(other) && path != other
    ensures IncludeFileName(path) != IncludeFileName(other)
  {
    if IncludeFileName(path) == IncludeFileName(other) { FileNamesInjective(path, other); }
  }

  lemma {:induction false} ListNames(paths: seq<string>, names: seq<string>, nameOf: string -> string)
    requires |names| == |paths| && forall k | 0 <= k < |paths| :: names[k] == nameOf(paths[k])
    requires forall i, j | 0 <= i < j < |paths| :: nameOf(paths[i]) != nameOf(paths[j])
    requires forall k | 0 <= k < |paths| :: PlainName(nameOf(paths[k])) && IsConf(nameOf(paths[k]))
    ensures Distinct(names) && forall k | 0 <= k < |names| :: PlainName(names[k]) && IsConf(names[k])
  {
  }

  lemma {:induction false} SectionNames(secs: seq<TextSection>)
    requires DistinctPaths(secs)
    ensures var names := NamesOf(SectionFiles(secs));
      |names| == |secs| && Distinct(names) && forall k | 0 <= k < |names| :: PlainName(names[k]) && IsConf(names[k])
  {
    var names, paths := NamesOf(SectionFiles(secs)), seq(|secs|, k requires 0 <= k < |secs| => secs[k].path);
    forall i, j | 0 <= i < j < |paths|
      ensures IncludeFileName(paths[i]) != IncludeFileName(paths[j])
    {
      OtherPathOtherName(paths[i], paths[j]);
    }
    forall k | 0 <= k < |paths|
      ensures PlainName(IncludeFileName(paths[k])) && IsConf(IncludeFileName(paths[k]))
    {
      FileNamesAreConf(paths[k]);
    }
    ListNames(paths, names, IncludeFileName);
  }

  /** A laid-out configuration carries its own text exactly when its directory is one whose includes
      birdy finds again; anywhere else what is read back is the list of includes itself. */
  lemma {:induction false} LaidOutCarriesItsText(banner: seq<string>, dir: string, secs: seq<TextSection>)
    requires forall k | 0 <= k < |banner| :: CommentLine(banner[k])
    requires CleanDir(dir) && DistinctPaths(secs) && secs != []
    ensures LaysOut(dir, Laid(banner, dir, secs), WholeText(secs)) <==> Recognisable(dir)
    ensures !Recognisable(dir) ==>
              forall disk :: Read(dir, Written(disk, Laid(banner, dir, secs))) == Some(Laid(banner, dir, secs).entry)
  {
    LogicalIsWhole(secs);
    SectionNames(secs);
    assert NamesOf(SectionFiles(secs)) != [];
    EntryNamesItsFiles(banner, dir, NamesOf(SectionFiles(secs)));
    if !Recognisable(dir) { ForeignReadsItself(dir, Laid(banner, dir, secs)); }
  }

  lemma {:induction false} ForeignReadsItself(dir: string, fs: FileSet)
    requires BirdyIncludes(dir, fs.entry) == []
    ensures forall disk :: Read(dir, Written(disk, fs)) == Some(fs.entry)
  {
  }

  /** Write, then read: birdy.d holds exactly the sections' files, and the text read back is the
      whole configuration. */
  lemma {:induction false} LayoutRoundTrip(banner: seq<string>, dir: string, secs: seq<TextSection>, disk: Disk)
    requires forall k | 0 <= k < |banner| :: CommentLine(banner[k])
    requires CleanDir(dir) && Recognisable(dir) && DistinctPaths(secs) && secs != []
    ensures var d := Written(disk, Laid(banner, dir, secs));
      && Read(dir, d) == Some(WholeText(secs))
      && (forall n | IsConf(n) :: n in d.files <==> exists k | 0 <= k < |secs| :: IncludeFileName(secs[k].path) == n)
      && Others(d.files) == Others(disk.files)
  {
    var fs := Laid(banner, dir, secs);
    LaidOutCarriesItsText(banner, dir, secs);
    ReadsBack(dir, disk, fs, WholeText(secs));
    SectionNames(secs);
    WrittenHoldsExactly(disk, fs);
    HoldsExactly(Written(disk, fs).files, fs.includes, secs);
  }

  lemma {:induction false} HoldsExactly(files: map<string, string>, includes: seq<File>, secs: seq<TextSection>)
    requires |includes| == |secs| && forall k | 0 <= k < |secs| :: includes[k].name == IncludeFileName(secs[k].path)
    requires forall k | 0 <= k < |includes| :: includes[k].name in files
    requires forall n | n in files && IsConf(n) :: exists k | 0 <= k < |includes| :: includes[k].name == n
    ensures forall n | IsConf(n) :: n in files <==> exists k | 0 <= k < |secs| :: IncludeFileName(secs[k].path) == n
  {
    forall n | IsConf(n)
      ensures n in files <==> exists k | 0 <= k < |secs| :: IncludeFileName(secs[k].path) == n
    {
      if n in files {
        var k :| 0 <= k < |includes| && includes[k].name == n;
        assert IncludeFileName(secs[k].path) == n;
      }
      if k :| 0 <= k < |secs| && IncludeFileName(secs[k].path) == n {
        assert includes[k].name == n;
      }
    }
  }
}
