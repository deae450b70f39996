/** The files of a rendered model: every section gets a file of its own, so what is written reads
    back as the whole configuration. (internal/render/render.go, Sections; internal/render/files.go) */
module RenderedFiles {
  import opened Options
  import opened Bird
  import opened Model
  import opened Compile
  import opened Sections
  import opened Scope
  import opened IncludeLines
  import opened ConfigFiles
  import opened FileLayout

  /** A name BIRD takes as an identifier, as the editors insist on. */
  ghost predicate Identifier(name: string) { name != "" && '/' !in name && '"' !in name }

  /** The database keeps the names of policies, templates and peers unique, each in its own table. */
  ghost predicate NamesUnique(inp: Input) {
    && (forall k | 0 <= k < |inp.policies| :: Identifier(inp.policies[k].name))
    && (forall k | 0 <= k < |inp.templates| :: Identifier(inp.templates[k].name))
    && (forall k | 0 <= k < |inp.peers| :: Identifier(inp.peers[k].name))
    && (forall i, j | 0 <= i < j < |inp.policies| :: inp.policies[i].name != inp.policies[j].name)
    && (forall i, j | 0 <= i < j < |inp.templates| :: inp.templates[i].name != inp.templates[j].name)
    && (forall i, j | 0 <= i < j < |inp.peers| :: inp.peers[i].name != inp.peers[j].name)
  }

  /** Distinct section paths, all in the given groups. */
  ghost predicate PathsIn(secs: seq<Section>, groups: set<string>) {
    && (forall k | 0 <= k < |secs| :: SectionPath(secs[k].path) && GroupOf(secs[k].path) in groups)
    && forall i, j | 0 <= i < j < |secs| :: secs[i].path != secs[j].path
  }

  lemma {:induction false} PathsConcat(a: seq<Section>, b: seq<Section>, g: set<string>, h: set<string>)
    requires PathsIn(a, g) && PathsIn(b, h) && g !! h
    ensures PathsIn(a + b, g + h)
  {
    var c := a + b;
    forall i, j | 0 <= i < j < |c|
      ensures c[i].path != c[j].path
    {
      if i < |a| <= j { assert c[i] == a[i] && c[j] == b[j - |a|]; }
    }
  }

  lemma {:induction false} DropEmptyOrigin(secs: seq<Section>, k: nat) returns (i: nat)
    requires k < |DropEmpty(secs)|
    ensures i < |secs| && secs[i] == DropEmpty(secs)[k]
  {
    var n := |secs| - 1;
    if k < |DropEmpty(secs[..n])| { i := DropEmptyOrigin(secs[..n], k); } else { i := n; }
  }

  lemma {:induction false} PathsKept(secs: seq<Section>, groups: set<string>)
    requires PathsIn(secs, groups)
    ensures PathsIn(DropEmpty(secs), groups)
  {
    if secs != [] {
      var n := |secs| - 1;
      PathsKept(secs[..n], groups);
      var kept := DropEmpty(secs[..n]);
      forall k | 0 <= k < |kept|
        ensures kept[k].path != secs[n].path
      {
        var i := DropEmptyOrigin(secs[..n], k);
      }
    }
  }

  lemma {:induction false} NamedPath(group: string, name: string)
    requires '/' !in group && '-' !in group && '"' !in group && Identifier(name)
    ensures SectionPath(group + "/" + name) && GroupOf(group + "/" + name) == group
  {
    var path := group + "/" + name;
    GroupPrefix(group, name);
    forall k | |group| < k < |path|
      ensures path[k] != '/'
    {
      assert path[k] == name[k - |group| - 1] && path[k] in name;
    }
  }

  lemma {:induction false} NamedPathsDiffer(group: string, a: string, b: string)
    requires a != b
    ensures group + "/" + a != group + "/" + b
  {
    assert (group + "/" + a)[|group| + 1..] == a && (group + "/" + b)[|group| + 1..] == b;
  }

  /** Sections collected one per item, each under the group and named after its item. */
  lemma {:induction false} CollectedPaths<T>(items: seq<T>, render: T -> Result<Section>, name: T -> string, group: string)
    requires Collect(items, render).Ok? && '/' !in group && '-' !in group && '"' !in group
    requires forall k | 0 <= k < |items| :: Identifier(name(items[k]))
    requires forall i, j | 0 <= i < j < |items| :: name(items[i]) != name(items[j])
    requires forall k | 0 <= k < |items| && render(items[k]).Ok? :: render(items[k]).value.path == group + "/" + name(items[k])
    ensures PathsIn(Collect(items, render).value, {group})
  {
    var secs := Collect(items, render).value;
    CollectLength(items, render);
    forall k | 0 <= k < |secs|
      ensures secs[k].path == group + "/" + name(items[k]) && SectionPath(secs[k].path) && GroupOf(secs[k].path) == group
    {
      CollectAt(items, render, k);
      NamedPath(group, name(items[k]));
    }
    forall i, j | 0 <= i < j < |secs|
      ensures secs[i].path != secs[j].path
    {
      NamedPathsDiffer(group, name(items[i]), name(items[j]));
    }
  }

  const LIBRARY_GROUPS := {"globals", "communities", "sets", "bogons", "rpki", "protocols", "static"}

  const LIBRARY_PATHS :=
    ["globals", "communities", "sets/prefixes", "sets/as", "bogons/asns", "rpki/tables", "protocols/base",
     "protocols/bfd", "protocols/bmp", "rpki/servers", "sets/originators", "static"]

  lemma {:induction false} PlainPathGroup(path: string)
    requires '/' !in path && '-' !in path && '"' !in path
    ensures SectionPath(path) && GroupOf(path) == path
  {
  }

  lemma {:induction false} GroupedPath(path: string, group: string, name: string)
    requires path == group + "/" + name && '/' !in group && '-' !in group && '"' !in group && Identifier(name)
    ensures SectionPath(path) && GroupOf(path) == group
  {
    NamedPath(group, name);
  }

  lemma {:induction false} LibraryGroup(k: nat)
    requires k < 12
    ensures SectionPath(LIBRARY_PATHS[k]) && GroupOf(LIBRARY_PATHS[k]) in LIBRARY_GROUPS
  {
    if k == 0 || k == 1 || k == 11 {
      PlainPathGroup(LIBRARY_PATHS[k]);
    } else if k < 6 {
      EarlyGroup(k);
    } else {
      LateGroup(k);
    }
  }

  lemma {:induction false} EarlyGroup(k: nat)
    requires 2 <= k < 6
    ensures SectionPath(LIBRARY_PATHS[k]) && GroupOf(LIBRARY_PATHS[k]) in LIBRARY_GROUPS
  {
    match k {
      case 2 => GroupedPath(LIBRARY_PATHS[2], "sets", "prefixes");
      case 3 => GroupedPath(LIBRARY_PATHS[3], "sets", "as");
      case 4 => GroupedPath(LIBRARY_PATHS[4], "bogons", "asns");
      case _ => GroupedPath(LIBRARY_PATHS[5], "rpki", "tables");
    }
  }

  lemma {:induction false} LateGroup(k: nat)
    requires 6 <= k < 11
    ensures SectionPath(LIBRARY_PATHS[k]) && GroupOf(LIBRARY_PATHS[k]) in LIBRARY_GROUPS
  {
    match k {
      case 6 => GroupedPath(LIBRARY_PATHS[6], "protocols", "base");
      case 7 => GroupedPath(LIBRARY_PATHS[7], "protocols", "bfd");
      case 8 => GroupedPath(LIBRARY_PATHS[8], "protocols", "bmp");
      case 9 => GroupedPath(LIBRARY_PATHS[9], "rpki", "servers");
      case _ => GroupedPath(LIBRARY_PATHS[10], "sets", "originators");
    }
  }

  lemma {:induction false} LibraryPathsDiffer(i: nat, j: nat)
    requires i < j < 12
    ensures LIBRARY_PATHS[i] != LIBRARY_PATHS[j]
  {
  }

  lemma {:induction false} LibraryPathIs(inp: Input, k: nat)
    requires k < 12
    ensures LibrarySections(inp)[k].path == LIBRARY_PATHS[k]
  {
  }

  lemma {:induction false} LibraryPaths(inp: Input)
    ensures PathsIn(LibrarySections(inp), LIBRARY_GROUPS)
  {
    var l := LibrarySections(inp);
    forall k | 0 <= k < |l|
      ensures l[k].path == LIBRARY_PATHS[k]
    {
      LibraryPathIs(inp, k);
    }
    PathsFromList(l, LIBRARY_PATHS);
  }

  lemma {:induction false} PathsFromList(l: seq<Section>, paths: seq<string>)
    requires |l| == 12 && paths == LIBRARY_PATHS && forall k | 0 <= k < |l| :: l[k].path == paths[k]
    ensures PathsIn(l, LIBRARY_GROUPS)
  {
    forall k | 0 <= k < |l|
      ensures SectionPath(paths[k]) && GroupOf(paths[k]) in LIBRARY_GROUPS
    {
      LibraryGroup(k);
    }
    forall i, j | 0 <= i < j < |l|
      ensures paths[i] != paths[j]
    {
      LibraryPathsDiffer(i, j);
    }
  }

  lemma {:induction false} PolicyPaths(inp: Input)
    requires PolicySections(inp).Ok? && NamesUnique(inp)
    ensures PathsIn(PolicySections(inp).value, {"policies"})
  {
    forall k | 0 <= k < |inp.policies| && PolicySection(inp)(inp.policies[k]).Ok?
      ensures PolicySection(inp)(inp.policies[k]).value.path == "policies" + "/" + PolicyName(inp.policies[k])
    {
      PolicyPathIs(inp, inp.policies[k]);
    }
    CollectedPaths(inp.policies, PolicySection(inp), PolicyName, "policies");
  }

  function PolicyName(pol: Policy): string { pol.name }

  lemma {:induction false} PolicyPathIs(inp: Input, pol: Policy)
    requires PolicySection(inp)(pol).Ok?
    ensures PolicySection(inp)(pol).value.path == "policies" + "/" + pol.name
  {
    assert "policies/" + pol.name == "policies" + "/" + pol.name;
  }

  lemma {:induction false} TemplatePaths(inp: Input)
    requires Collect(UsedTemplates(inp.templates, inp.peers), TemplateSection(inp)).Ok? && NamesUnique(inp)
    ensures PathsIn(Collect(UsedTemplates(inp.templates, inp.peers), TemplateSection(inp)).value, {"templates"})
  {
    var used := UsedTemplates(inp.templates, inp.peers);
    UsedDistinct(inp.templates, inp.peers);
    forall k | 0 <= k < |used|
      ensures Identifier(used[k].name)
    {
      var i := UsedAre(inp.templates, inp.peers, k);
    }
    forall k | 0 <= k < |used|
      ensures TemplateSection(inp)(used[k]).value.path == "templates" + "/" + TemplateName(used[k])
    {
      TemplatePathIs(inp, used[k]);
    }
    CollectedPaths(used, TemplateSection(inp), TemplateName, "templates");
  }

  function TemplateName(t: Template<Policy>): string { t.name }

  lemma {:induction false} TemplatePathIs(inp: Input, t: Template<Policy>)
    ensures TemplateSection(inp)(t).Ok? && TemplateSection(inp)(t).value.path == "templates" + "/" + t.name
  {
    assert "templates/" + t.name == "templates" + "/" + t.name;
  }

  lemma {:induction false} PeerPaths(inp: Input, used: seq<Template<Policy>>)
    requires Collect(inp.peers, PeerSection(inp, used)).Ok? && NamesUnique(inp)
    ensures PathsIn(Collect(inp.peers, PeerSection(inp, used)).value, {"peers"})
  {
    forall k | 0 <= k < |inp.peers|
      ensures PeerSection(inp, used)(inp.peers[k]).value.path == "peers" + "/" + inp.peers[k].name
    {
      PeerPathIs(inp, used, inp.peers[k]);
    }
    CollectedPaths(inp.peers, PeerSection(inp, used), PeerName, "peers");
  }

  function PeerName(p: Peer<Policy>): string { p.name }

  lemma {:induction false} PeerPathIs(inp: Input, used: seq<Template<Policy>>, p: Peer<Policy>)
    ensures PeerSection(inp, used)(p).Ok? && PeerSection(inp, used)(p).value.path == "peers" + "/" + p.name
  {
    assert "peers/" + p.name == "peers" + "/" + p.name;
  }

  const ALL_GROUPS := LIBRARY_GROUPS + {"policies"} + {"templates"} + {"peers"}

  lemma {:induction false} FourGroups(a: seq<Section>, b: seq<Section>, c: seq<Section>, d: seq<Section>)
    requires PathsIn(a, LIBRARY_GROUPS) && PathsIn(b, {"policies"}) && PathsIn(c, {"templates"}) && PathsIn(d, {"peers"})
    ensures PathsIn(a + b + c + d, ALL_GROUPS)
  {
    PathsConcat(a, b, LIBRARY_GROUPS, {"policies"});
    PathsConcat(a + b, c, LIBRARY_GROUPS + {"policies"}, {"templates"});
    PathsConcat(a + b + c, d, LIBRARY_GROUPS + {"policies"} + {"templates"}, {"peers"});
  }

  /** Every section the renderer has a writer for, whether or not it declares anything: some print
      comments, or settings outside this model's declarations. */
  function EverySection(inp: Input): seq<Section>
    requires AllSections(inp).Ok?
  {
    var used := UsedTemplates(inp.templates, inp.peers);
    LibrarySections(inp) + PolicySections(inp).value + Collect(used, TemplateSection(inp)).value
    + Collect(inp.peers, PeerSection(inp, used)).value
  }

  /** The sections have distinct paths, of the groups the renderer uses. */
  lemma {:induction false} RenderedPaths(inp: Input)
    requires AllSections(inp).Ok? && NamesUnique(inp)
    ensures PathsIn(EverySection(inp), ALL_GROUPS) && PathsIn(AllSections(inp).value, ALL_GROUPS)
  {
    var used := UsedTemplates(inp.templates, inp.peers);
    var l, pols := LibrarySections(inp), PolicySections(inp).value;
    var templates, peers := Collect(used, TemplateSection(inp)).value, Collect(inp.peers, PeerSection(inp, used)).value;
    LibraryPaths(inp);
    PolicyPaths(inp);
    TemplatePaths(inp);
    PeerPaths(inp, used);
    FourGroups(l, pols, templates, peers);
    PathsKept(l + pols + templates + peers, ALL_GROUPS);
  }

  // ----- the text of the sections

  function Printed(secs: seq<Section>, show: Section -> string): (t: seq<TextSection>)
    ensures |t| == |secs| && forall k | 0 <= k < |t| :: t[k] == TextSection(secs[k].path, show(secs[k]))
  {
    if secs == [] then [] else [TextSection(secs[0].path, show(secs[0]))] + Printed(secs[1..], show)
  }

  /** A section that prints nothing gets no file. */
  function WithText(texts: seq<TextSection>): seq<TextSection> {
    if texts == [] then []
    else (if texts[0].body == "" then [] else [texts[0]]) + WithText(texts[1..])
  }

  /** The whole file: the header, the sections and the operator's raw block, each that prints
      anything. How a section prints is left open. */
  function AllTexts(secs: seq<Section>, show: Section -> string, header: string, raw: string): seq<TextSection> {
    WithText([TextSection("header", header)] + Printed(secs, show) + [TextSection("raw", raw)])
  }

  lemma {:induction false} WithTextIn(texts: seq<TextSection>)
    ensures forall t | t in WithText(texts) :: t in texts
  {
    if texts != [] { WithTextIn(texts[1..]); }
  }

  lemma {:induction false} WithTextDistinct(texts: seq<TextSection>)
    requires DistinctPaths(texts)
    ensures DistinctPaths(WithText(texts))
  {
    if texts != [] {
      var rest := WithText(texts[1..]);
      WithTextDistinct(texts[1..]);
      WithTextIn(texts[1..]);
      forall k | 0 <= k < |rest|
        ensures rest[k].path != texts[0].path
      {
        assert rest[k] in texts[1..];
      }
    }
  }

  lemma {:induction false} AllPathsDistinct(secs: seq<Section>, groups: set<string>, show: Section -> string,
                                            header: string, raw: string)
    requires PathsIn(secs, groups) && "header" !in groups && "raw" !in groups
    ensures DistinctPaths(AllTexts(secs, show, header, raw))
  {
    PlainPathGroup("header");
    PlainPathGroup("raw");
    var b := Printed(secs, show);
    PrintedDistinct(secs, groups, show);
    PrintedApart(secs, groups, show, "header");
    PrintedApart(secs, groups, show, "raw");
    Enclosed(TextSection("header", header), b, TextSection("raw", raw));
    WithTextDistinct([TextSection("header", header)] + b + [TextSection("raw", raw)]);
  }

  lemma {:induction false} PrintedApart(secs: seq<Section>, groups: set<string>, show: Section -> string, path: string)
    requires PathsIn(secs, groups) && path !in groups && GroupOf(path) == path
    ensures forall k | 0 <= k < |secs| :: Printed(secs, show)[k].path != path
  {
    forall k | 0 <= k < |secs|
      ensures secs[k].path != path
    {
      assert GroupOf(secs[k].path) in groups;
    }
  }

  lemma {:induction false} Enclosed(first: TextSection, b: seq<TextSection>, last: TextSection)
    requires DistinctPaths(b) && SectionPath(first.path) && SectionPath(last.path) && first.path != last.path
    requires forall k | 0 <= k < |b| :: b[k].path != first.path && b[k].path != last.path
    ensures DistinctPaths([first] + b + [last])
  {
  }

  lemma {:induction false} PrintedDistinct(secs: seq<Section>, groups: set<string>, show: Section -> string)
    requires PathsIn(secs, groups)
    ensures DistinctPaths(Printed(secs, show))
  {
  }

  /** Leaving out what prints nothing leaves the whole text as it is. */
  lemma {:induction false} SameWholeText(texts: seq<TextSection>)
    ensures WholeText(WithText(texts)) == WholeText(texts)
  {
    if texts != [] {
      SameWholeText(texts[1..]);
      var rest := WithText(texts[1..]);
      if texts[0].body == "" {
        assert [] + rest == rest;
      } else {
        assert ([texts[0]] + rest)[1..] == rest;
      }
    }
  }

  lemma {:induction false} TextsReadBack(secs: seq<Section>, show: Section -> string, header: string, raw: string,
                                         banner: seq<string>, dir: string, disk: Disk)
    requires PathsIn(secs, ALL_GROUPS) && CleanDir(dir) && Recognisable(dir) && header != ""
    requires forall k | 0 <= k < |banner| :: CommentLine(banner[k])
    ensures var texts := AllTexts(secs, show, header, raw);
      && LaysOut(dir, Laid(banner, dir, texts), WholeText(texts))
      && Read(dir, Written(disk, Laid(banner, dir, texts))) == Some(WholeText(texts))
  {
    var texts := AllTexts(secs, show, header, raw);
    AllPathsDistinct(secs, ALL_GROUPS, show, header, raw);
    LaidOutCarriesItsText(banner, dir, texts);
    ReadsBack(dir, disk, Laid(banner, dir, texts), WholeText(texts));
  }

  /** Whatever the sections print -- a section that declares nothing may print too, and one that
      prints nothing gets no file -- a rendered model written to disk reads back as the
      concatenation of all they print. */
  lemma {:induction false} RenderedReadsBack(inp: Input, show: Section -> string, header: string, raw: string,
                                             banner: seq<string>, dir: string, disk: Disk)
    requires Render(inp).Ok? && NamesUnique(inp) && CleanDir(dir) && Recognisable(dir) && header != ""
    requires forall k | 0 <= k < |banner| :: CommentLine(banner[k])
    ensures var texts := AllTexts(EverySection(inp), show, header, raw);
      && LaysOut(dir, Laid(banner, dir, texts), WholeText(texts))
      && Read(dir, Written(disk, Laid(banner, dir, texts)))
         == Some(WholeText([TextSection("header", header)] + Printed(EverySection(inp), show) + [TextSection("raw", raw)]))
  {
    RenderedPaths(inp);
    TextsReadBack(EverySection(inp), show, header, raw, banner, dir, disk);
    SameWholeText([TextSection("header", header)] + Printed(EverySection(inp), show) + [TextSection("raw", raw)]);
  }
}
