# Birdy: a verified model

Birdy compiles a database of BGP peers and policies into BIRD filter code and applies it to a live
router under BIRD's armed auto-revert. This project models its seven hardest parts in Dafny and
proves what they are for. `dafny verify dfyconfig.toml` checks everything.

| part | files |
|---|---|
| Diff | `EditScript`, `Hunks`, `SectionDiff` |
| Streaming pages | `RouteLines` (what the lines of a reply say), `Replies`, `Paging` |
| Policy compiler | `Bird` (routes, filters and their evaluator), `Model`, `Compile`, `Sections`, `Writers`; meaning in `ImportMeaning`, `ImportChain`, `ExportMeaning`, `Provenance`, `RenderedRouter`, and on the fields of policies and peers in `PolicyFields`, `SessionFields`; names in `Scope`, `WellScopedOutput`, `SystemSets`, `Symbols`, `Namespace`; findings in `Lint`, `LintFields`, `LintTruth`, `ExportTruth` |
| Apply protocol | `IncludeLines`, `ConfigFiles`, `FileLayout`, `RenderedFiles`, `ApplyProtocol`, `ApplyGates`, `ApplySafety`, `Drift` |
| Peer templates | `PeerTemplates`, `TemplateFrames`, `Factoring` |
| Poller | `Poller`, `PollerTraces` |
| List editors | `RangeLists`, `ListInputs`, `ListRoundTrips` |

Code that changes things step by step is imperative here too: the writers append to a `Builder`, the
handlers of `Server` change a `ConfigDir`, a daemon and version rows, `Database` and `SetTable` rewrite
their tables, `Monitor` its memory, `Reader` and `Collector` their buffers, and the diff fills an array
table. Each method is proved against a function, and the theorems are about that function: `Render` and
the evaluator, `Next` and its runs, `Perform` and its runs, `Step` and its runs, `Script` and
`HunksFrom`. What these functions compute is then said a second time in terms that share nothing with
them: the fields of policies, peers, rows and forms, the lines of a reply or of a list, the state before
and after a step (`PolicyFields`, `SessionFields`, `RouteLines`, `ApplyGates`, `TemplateFrames`,
`LintFields`, `ListInputs`, and the exact conditions in `PollerTraces`, `Drift`, `Symbols`, `SystemSets`).

## What came out

Most promises hold as written. These do not, and the exact condition is proved instead:

- "If anything restarts BIRD, disk still matches" holds, but a restart inside the safety window leaves
  the version pending, and confirming it is recorded while BIRD keeps the old text
  (`RestartThenConfirm`). A lost reply to the arming command, or to a confirmation that took effect,
  breaks the promise too, and so does an undo BIRD refuses when the next apply arms it again before
  the old timer has fired (`RefusedUndoThenApply`). `SafeExactlyWhenBenign` lists every such step.
- A confirmation does not look at the files, so an edit made while a version is pending is lost
  (`ConfirmOverwritesEdit`); an apply does look, and after an edit none touches anything until an adoption
  (`RefusedUntilAdopted`). A confirmation whose write stops half-way puts
  nothing back: confirming again repairs the files, undoing does not (`StoppedConfirm`).
- birdy recognises its own includes exactly when bird.conf's directory is not the root and holds no
  backslash and no quote: `Files` writes include paths with backslashes turned into slashes, and the
  reader looks for the directory as it is (`EntryNamesItsFiles`, `LaidOutCarriesItsText`).
- "An empty result means the two texts are identical" is true up to the style of line ends and one
  final newline, one of the texts being empty only if the other is (`SameLinesExactly`).
- "Will reject every route it receives", said of a private peer AS, is true of a session that checks
  the first AS or the origin: exactly then does every path it lets in hold the peer's number
  (`PathsMeetPrivateExactly`). Without either the finding is raised about sessions that accept routes
  (`PrivateFindingCanBeWrong`).
- "This session announces no routes at all" is true exactly when no policy of the chain offers a
  prefix that none up to it vetoes (`AnnouncesNothingExactly`). The finding overlooks the community
  match and looks at one policy at a time, so one policy that offers anything makes it wrong
  (`PermitsNothingExactly`, `OneOfferIsEnough`).
- An AS-number note that ends in a comma loses it in the editor (`ASNRoundTrip`).
- The discard rule of RFC 7999 is in its section 3.3; a comment in the renderer says 3.2.

One promise holds only because two components agree. `checkBogonSets` looks at existence and
emptiness, not at `Disabled`, so by itself the renderer is well scoped exactly when no function names
a bogon set that is off (`ScopedExactlyWhenBogonSetsOn`). The store never switches a system set off,
over any run of edits, so a model loaded from it always renders well scoped
(`StoredModelIsWellScoped`).

"Blackholes aside", below, means: a host route that carries BLACKHOLE when it reaches a policy that
honours it, inside that policy's allow-list, is accepted to be discarded.

## Model

| member | source | states |
|---|---|---|
| EditScript.LcsIsUpperBound | internal/render/diff.go:61-75 | the recurrence that fills the table bounds every common subsequence of the two files |
| EditScript.LcsScript | internal/render/diff.go:61-101 | the table and its traceback produce the script the next two theorems are about |
| EditScript.ScriptIsShortest | internal/render/diff.go:61-101 | without '+' the script is the old file, without '-' the new one, both numbered from 1; its unchanged lines are a longest common subsequence; no script for the two files is shorter |
| EditScript.ScriptDeletesFirst | internal/render/diff.go:76-101 | in every run of changes the deletions come before the insertions |
| Hunks.MarkKept | internal/render/diff.go:105-126 | an edit is kept exactly when a change lies within the context width of it |
| Hunks.RunsAreMaximal | internal/render/diff.go:128-142 | the runs cut from the marks are maximal, never adjacent, and cover exactly the kept edits |
| Hunks.HunksAreRuns | internal/render/diff.go:128-162 | the k-th hunk is the k-th maximal run |
| Hunks.FirstLineNumber | internal/render/diff.go:144-162 | a hunk's starts are the positions of its first old and first new line in the two files |
| Hunks.HunksPatch | internal/render/diff.go:105-162 | for every context width, placing the hunks by old start, or by new start when they have no old line, patches the old lines into the new ones |
| Hunks.HunksUndo | internal/render/diff.go:105-162 | read in reverse, the same hunks patch the new lines back into the old ones |
| Hunks.HunksCount | internal/render/diff.go:105-162 | the hunks hold every inserted and every deleted line exactly once |
| Hunks.NoHunksIffEqual | internal/render/diff.go:31-50 | there is no hunk exactly when the two line lists are equal |
| SectionDiff.LinesOfConcat | internal/render/diff.go:43-50 | splitting a text that follows a terminated one splits each on its own, "\r\n" included |
| SectionDiff.Diff | internal/render/diff.go:31-50 | the whole-file diff patches forwards and backwards, groups the shortest script, and is empty exactly when the texts differ by no more than line-end style and one final newline |
| SectionDiff.SameLinesExactly | internal/render/diff.go:26-50 | two texts have the same lines exactly when they are equal once "\r\n" is "\n" and one final newline is gone, neither or both empty |
| SectionDiff.EmptyDiffOfDifferentTexts | internal/render/diff.go:26-33 | an empty diff does not mean identical texts: a final newline is not a line |
| SectionDiff.LineOwners | internal/render/diff.go:195-211 | every candidate line has one owner, owners are in section order, and a section owns exactly its body's lines |
| SectionDiff.Attribute | internal/render/diff.go:213-226 | the blocks laid end to end are the whole script, and each read without deletions is what its section owns |
| SectionDiff.PerSection | internal/render/diff.go:190-256 | blocks in section order are the script; a block without deletions is its section's lines; each entry's counts, status and hunks describe its block; the counts add up to the whole diff's |
| Replies.ReadFrame | internal/birdc/client.go:174-207 | the reply exists exactly when some line starts with four digits and a space; it is framed by the first such line, one block per dashed line, each with its own text and the plain lines up to the next, stray ones dropped |
| RouteLines.OneReading | internal/birdc/parser.go:194-259 | the lines of a reply have one reading: each route line read with the network the nearest route line above left, or none after a table line; under the nearest table line; with the detail lines that follow it, in order |
| Replies.ScanReads | internal/birdc/parser.go:194-259 | the line-by-line scan behind both readers yields that reading |
| Replies.ParseRoutes | internal/birdc/parser.go:194-259 | the tables hold, in order and under their names, the routes the lines read as, the table lines themselves in order, and every route some table |
| Paging.Collector.Visit | internal/birdc/stream.go:128-162 | after any number of visits the page is entries offset..offset+limit of those shown, and it stops at the first one past them |
| Paging.Reader.Read | internal/birdc/stream.go:27-121 | with one entry of lookahead the entries handed on are those no later line can change, under the reading above |
| Paging.StreamLines | internal/birdc/stream.go:27-121 | a reply that ends well has delivered its first offset+limit+1 routes, whether it was read to the end or not |
| Paging.Overrun | internal/birdc/stream.go:27-121 | entries complete when the page overruns are the first entries of the whole reply, whatever follows |
| Paging.Paginate | internal/birdc/stream.go:128-162 | for every well-formed reply the page is entries offset..offset+limit of what its lines read as: each table's routes in the order of the lines, tables in the order they are met, none twice, empty or missing, at most limit entries, hasMore exactly when more exist |
| Paging.SameUpToDefaultName | internal/birdc/parser.go:205-228 | the two readers differ only in the name of routes no table line precedes |
| Writers.WriteImportBody | internal/render/render.go:745-886 | the writer emits the body whose meaning ImportBodyMeaning gives, or the same error |
| Writers.WriteExportBody | internal/render/render.go:890-941 | the writer emits the body whose meaning ExportBodyMeaning gives, or the same error |
| Writers.WritePeer | internal/render/render.go:1089-1207 | a peer's filters and protocol block are the declarations the session theorems are about |
| Writers.FindUsed | internal/render/render.go:985-1000 | a template is kept exactly when some peer is linked to it, each where it was in the order |
| Writers.WritePolicyBody | internal/render/render.go:715-941 | the statements written for a policy decide every route, in any configuration that declares the model's objects, as the policy's own terms say |
| Writers.RenderSections | internal/render/render.go:167-291 | collecting section after section, stopping at the first failure and checking names last, gives the sections or the error; a router that runs them takes in and lets out on every session what the model's policies say |
| ImportMeaning.ImportBodyMeaning | internal/render/render.go:745-886 | a generated import function rejects, discards as a blackhole or marks a route exactly as the policy's own terms say |
| ImportMeaning.CoversAreSupernets | internal/render/render.go:762-778 | for a host route, matching "prefix+" patterns is lying inside one of the set's base prefixes |
| PolicyFields.InSetByModifier | internal/render/render.go:745-794 | a prefix is in a set exactly when some entry holds it: the prefix itself, what lies inside it, what it lies inside, or what agrees with it at a length in bounds, by modifier |
| PolicyFields.ImportByFields | internal/render/render.go:745-886 | on the policy's fields, the rows they name and the bits of the prefix, what a rendered import function does with every route: closed list, discard, default route, lengths of its family, bogons, path, lists, origins, RPKI, marks |
| PolicyFields.OutOfBoundsNeverPasses | internal/render/render.go:796-820 | no route shorter or longer than its own family's bounds passes, the default route where accepted excepted, nor any but the default route past an only-default policy |
| PolicyFields.OtherBoundsDoNotMatter | internal/render/render.go:796-820 | and the other family's bounds change nothing |
| PolicyFields.ShippedBogons | internal/store/bogons.go:46-58 | without a list of its own a model has the shipped bogon ranges, number by number |
| ImportChain.ImportFilterMeaning | internal/render/render.go:1219-1280 | a generated import filter gives every route the verdict the peer's model calls for: path checks, stripped and stamped tags, the chain, drain |
| ImportChain.FirstDecides | internal/render/render.go:1219-1280 | the first policy that rejects or accepts as a blackhole decides; with none the route goes on with every mark |
| ImportChain.AcceptedLocalPref | internal/render/render.go:862-886 | an accepted route has the last local preference set, or 0 when draining, unless a blackhole accept ended the filter first |
| ImportChain.ConjunctionOfVetoes | internal/render/render.go:745-886 | without blackholes and without a match on RPKI_INVALID a chain rejects exactly when some policy objects to the route as it came in |
| ImportChain.OrderDoesNotMatter | internal/render/render.go:1219-1280 | such a chain's verdict is the same in every order |
| ImportChain.BlackholeOrderMatters | internal/render/render.go:762-778 | with a blackhole policy two orders of the same chain accept and reject the same route |
| ImportChain.AllowListFailsClosed | internal/render/render.go:745-794 | what a policy built on an accept-only set does not reject is in the enabled set of its family, or is a tagged host route inside one of its base prefixes (RFC 7999, section 3.3) |
| ExportMeaning.ExportBodyMeaning | internal/render/render.go:890-941 | a generated export function vetoes a bogon, accepts what the policy permits, and otherwise has no opinion |
| PolicyFields.ExportByFields | internal/render/render.go:890-941 | on the policy's fields, what a rendered export function does with every route: bogon veto, ticked sources by tag, named sets that are on and of the family, community match |
| ExportMeaning.ExportFilterMeaning | internal/render/render.go:1282-1315 | an export filter announces exactly what some policy permits as transformed and no policy up to it vetoes (section 3 of RFC 8212) |
| Provenance.EdgeStampsRole | internal/render/render.go:1219-1245 | a route accepted from outside carries exactly its session's role tag, whatever large communities the neighbour sent |
| Provenance.ProvenanceSurvives | internal/render/render.go:1219-1315 | the tag is unchanged after any number of internal hops between rendered routers |
| Provenance.NoLeak | internal/render/render.go:925-933 | a session that announces one role's routes only announces a route from outside only if it entered on a session of that role |
| RenderedRouter.RenderedReceive | internal/render/render.go:167-280 | what a session of any model that renders takes in, in the model's terms, with nothing assumed of the file |
| RenderedRouter.RenderedAnnounce | internal/render/render.go:1193-1200 | what it lets out: nothing on an external session without export policies |
| RenderedRouter.AnnouncedRoute | internal/render/render.go:1282-1315 | an announced route has the prefix of the route held and its path behind exactly the configured copies of the router's own number, loses no community and gains none but the drain signal and the operator's; without export policies it is that route, prepending or not |
| RenderedRouter.RenderedNoLeak | internal/render/render.go:167-280 | no leak between any two routers whose models render |
| SessionFields.OptionsByFields | internal/render/render.go:1008-1161 | kind by kind, the option in force on a rendered session is what the peer's own fields ask for; the role of RFC 9234 is customer to an upstream, provider to a customer, peer at an exchange |
| SessionFields.LoadedOptionsByFields | internal/render/render.go:1008-1161 | so it is for every model loaded after any run of edits, template-built blocks included |
| SessionFields.ChannelByFields | internal/render/render.go:1163-1207 | a rendered session has one channel, of its family, with its filters or "all" or "none", and its import limit |
| SessionFields.IntakeByFields | internal/render/render.go:1219-1280 | what a rendered session takes in, on fields: the path checks, the tags stripped and put on, then policy after policy up to the first that does not let the route pass, local preference 0 while draining |
| SessionFields.OutputByFields | internal/render/render.go:1282-1315 | what it lets out, on fields: the route prepended and tagged, when a policy announces it as such and none before vetoes it; without policies all, or nothing |
| Scope.RenderedIsLoaded | internal/render/render.go:229-279 | every symbol of a rendered file resolves to what the model says: tags, bogon lists, sets, communities, functions, filters |
| WellScopedOutput.RenderedIsWellScoped | internal/render/render.go:229-279 | every set, table, function, filter and template referred to is declared earlier, as that kind, and every name once |
| WellScopedOutput.ScopedExactlyWhenBogonSetsOn | internal/render/render.go:1335-1361 | a file that renders is well scoped exactly when no function names a bogon set that is off |
| SystemSets.SetTable.CreatePrefixSet | internal/store/prefixsets.go:261-282 | a new set is never a system set and never off |
| SystemSets.SetTable.SavePrefixSet | internal/web/library.go:107-155 | saving a system set keeps its name, family and role, and an empty list or a taken name is refused |
| SystemSets.SetTable.SetPrefixSetDisabled | internal/store/prefixsets.go:314-320 | a system set is never switched off |
| SystemSets.SetTable.DeletePrefixSet | internal/store/prefixsets.go:395-416 | a system set, and a set in use, is never deleted |
| SystemSets.SetTable.RefreshPrefixSetEntries | internal/web/irr_refresh.go:60-95 | a refresh replaces the entries and nothing else, and never empties a set that had some |
| SystemSets.EditedByFields | internal/store/prefixsets.go:261-416 | every edit is accepted exactly when its row is there, the name free and the guards hold; it then stores its own fields in its own row, a system set's name, family and role excepted, and nothing else changes |
| SystemSets.AlwaysGuarded | internal/store/prefixsets.go:261-416 | over every run of creates, saves, toggles, deletes and refreshes the system sets are there, on, not empty, and named as generated filters name them |
| SystemSets.BogonCheckNeverFails | internal/render/render.go:1335-1361 | the renderer's check for bogon sets never refuses a model loaded from such a table |
| SystemSets.StoredModelIsWellScoped | internal/render/render.go:1335-1361 | and what it renders from such a model is well scoped, with nothing assumed about the off switch |
| Symbols.CheckSymbols | internal/render/symbols.go:23-41 | the scan over all sections returns the first declaration whose name is BIRD's own or declared before, and nothing exactly when there is none |
| Symbols.SymbolUses | internal/store/symbols.go:64-98 | the look-up lists built-in, table and derived uses of a name, in order |
| Symbols.UsesExactly | internal/store/symbols.go:25-98 | it finds exactly the built-in names, the names built from policies, peers and sets that exist, and the rows of that name |
| Namespace.OriginsApart | internal/store/symbols.go:25-62 | a name the look-up finds to be one object's alone belongs to one family of names only |
| Namespace.CheckNeverFails | internal/render/symbols.go:23-41 | when every object's name is found to be its own alone, the rendered sections declare no name twice |
| Namespace.NeverRefusedForNames | internal/render/render.go:167-280 | such a model is never refused for a name declared twice |
| Lint.LintPolicies | internal/render/lint.go:188-209 | walking the policies collects exactly the disabled allow-list findings, in order |
| Lint.LintPeers | internal/render/lint.go:211-315 | walking peers and chains collects exactly the findings the truth theorems are about, in order |
| Lint.LintAll | internal/render/lint.go:32-428 | the result is the policies' findings, then the peers', folded by template |
| Lint.NothingLost | internal/render/lint.go:370-428 | after folding by template every finding is still spoken for |
| Lint.NothingInvented | internal/render/lint.go:370-428 | every folded line is a finding, or names two or more peers each of which has it |
| LintFields.RaisedExactly | internal/render/lint.go:210-315 | every finding about a peer is raised exactly when the peer's fields, its policies' and the rows they name are as the finding says: private AS, default route, origins, no import policy, empty announcements |
| LintFields.FindingsExactly | internal/render/lint.go:188-315 | likewise all findings of a model, disabled allow-lists included |
| LintFields.FoldedFindings | internal/render/lint.go:370-428 | of these, a line about one peer is shown exactly where no other peer of its template has the finding; a group of two or more has one line naming exactly them; nothing is lost |
| LintTruth.DefaultFindingIsTrue | internal/render/lint.go:231-248 | whenever "accepts nothing at all" is raised, which RaisedExactly says when, it is true of the generated filter, blackholes aside: what is accepted is a host route carrying BLACKHOLE that a policy discards |
| LintTruth.DefaultNeverAccepted | internal/render/lint.go:217-248 | past a policy that rejects it, no order of policies accepts the default route |
| LintTruth.OriginFindingIsTrue | internal/render/lint.go:270-282 | whenever origin-peer-only meets an AS set that leaves the peer out, the session accepts nothing, blackholes aside |
| LintTruth.PathsMeetPrivateExactly | internal/render/lint.go:217-230 | every path a session with a private peer AS lets in holds a bogon number exactly when the session checks the first AS or the origin |
| LintTruth.PrivateFindingIsTrue | internal/render/lint.go:217-230 | so the finding about a private peer AS is true of such a session, blackholes aside |
| LintTruth.PrivateFindingCanBeWrong | internal/render/lint.go:217-230 | without either check the finding is raised, and every route without a bogon in its path that the chain has nothing else against is accepted |
| LintTruth.DisabledFindingIsTrue | internal/render/lint.go:188-201 | a policy with a disabled allow-list is reported, and its rendered v4 and v6 functions reject every route, tagged blackholes included |
| LintTruth.DisabledListShutsSession | internal/render/render.go:745-760 | a session whose chain starts with such a policy takes nothing in; one that has it later takes in at most what an earlier policy discards |
| LintTruth.SessionTakesNothingIn | internal/render/lint.go:217-282 | so a router running the rendered file takes in on that session only what a policy discards, and nothing when none honours blackholes |
| ExportTruth.PermitsNothingExactly | internal/render/lint.go:296-312 | a flagged export policy accepts exactly the non-bogon routes carrying the community it matches, none without a match |
| ExportTruth.AnnouncesNothingExactly | internal/render/lint.go:296-312 | a rendered external session announces no route at all exactly when no policy of its chain offers a prefix that none up to it vetoes |
| ExportTruth.AllEmptyAnnouncesNothing | internal/render/lint.go:296-312 | so the finding is true when it could be made of every policy of the chain and none matches a community |
| ExportTruth.OneOfferIsEnough | internal/render/lint.go:296-312 | and wrong, though raised, as soon as one policy of the chain offers an unvetoed prefix |
| ExportTruth.LiveSetOffers | internal/render/render.go:902-915 | an enabled set with an entry is such an offer |
| IncludeLines.EntryNamesItsFiles | internal/web/apply.go:63-73 | birdy finds in a bird.conf it wrote exactly the includes it listed, in order, when the directory is not the root and has no backslash or quote, and none of them otherwise |
| IncludeLines.RootIsForeign | internal/render/files.go:86-100 | an include path written for the root directory does not lie in birdy's own |
| IncludeLines.BackslashIsForeign | internal/render/files.go:86-100 | nor does one written for a directory with a backslash in it |
| ConfigFiles.ConfigDir.ReadLogicalConfig | internal/web/apply.go:81-107 | the text read is bird.conf, or its birdy includes in order, a missing one empty |
| ConfigFiles.ConfigDir.WriteFileSet | internal/web/apply.go:170-210 | a write that succeeds leaves exactly the set; one that fails anywhere leaves every other file alone |
| ConfigFiles.ConfigDir.SnapshotConfig | internal/web/apply.go:215-248 | the backup holds bird.conf and exactly the .conf files, or is empty when there is no bird.conf |
| ConfigFiles.ConfigDir.RestoreConfig | internal/web/apply.go:254-307 | the live files become what the backup holds -- a snapshot, an older single file, or no config -- other files untouched |
| ConfigFiles.WrittenHoldsExactly | internal/web/apply.go:170-210 | after a write birdy.d holds exactly the set's .conf files with their texts |
| ConfigFiles.ReadsBack | internal/web/apply.go:81-107 | written and read back, a set gives the text it carries |
| ConfigFiles.RestoreUndoes | internal/web/apply.go:254-307 | restoring a backup undoes whatever was written since, in full or in part; without a bird.conf it gives "no config" |
| ConfigFiles.OldBackupReadsBack | internal/web/apply.go:265-275 | a restored single-file backup is bird.conf alone, and reads back as its text unless that text includes files of birdy's |
| FileLayout.FileNamesInjective | internal/render/files.go:63-74 | different section paths get different files |
| FileLayout.SlashesCollide | internal/render/files.go:63-74 | a second slash in a path is enough to lose that |
| FileLayout.Files | internal/render/files.go:81-100 | section by section, an entry that includes each file once in order under the directory with its backslashes turned, and the files |
| FileLayout.LaidOutCarriesItsText | internal/render/files.go:33-39 | a laid-out configuration reads back as its sections end to end exactly when the directory is not the root and has no backslash or quote; otherwise what is read is the entry file alone |
| FileLayout.LayoutRoundTrip | internal/render/files.go:33-100 | in such a directory, birdy.d holds after the write exactly one .conf file per section and the text read is the whole configuration |
| RenderedFiles.RenderedPaths | internal/render/render.go:167-280 | the rendered sections have distinct paths with known groups |
| RenderedFiles.RenderedReadsBack | internal/render/files.go:81-100 | however its sections print, those that declare nothing included, a model that renders reads back from disk as all they print |
| ApplyProtocol.CanApplyWhenInSync | internal/web/apply.go:110-130 | birdy may write exactly when the disk is what it last recorded |
| ApplyGates.TouchesOnlyItsOwn | internal/web/apply.go:486-560 | whenever an apply, or the applying of a stored version, changes disk, backups, hash, BIRD or the versions, the files read as what birdy recorded, nothing is pending within its deadline, and the text is another one |
| ApplyGates.ArmsExactly | internal/web/apply.go:486-617 | BIRD is armed with the text exactly when besides preflight, write and BIRD's own check succeed |
| ApplyGates.RecordsExactly | internal/web/apply.go:560-617 | a version is recorded exactly when besides BIRD said so; its row carries text, files, backup and the deadline, time plus timeout |
| ApplyGates.ApplyPutsBack | internal/web/apply.go:560-617 | whatever an apply does, the files on disk are left as they were |
| ApplyGates.RefusedUntilAdopted | internal/web/apply.go:110-130 | over every run after the files were edited away from what birdy recorded, no apply touches anything until somebody adopts them |
| ApplyGates.AdoptionOwns | internal/web/apply.go:742-772 | an adoption backs up what is there and records it; BIRD and the files stay, and the next apply may go ahead |
| ApplyGates.ConfirmedExactly | internal/web/apply.go:619-681 | a version becomes confirmed exactly by a confirmation BIRD acknowledged before its deadline |
| ApplyGates.ConfirmationLeaves | internal/web/apply.go:619-681 | files, hash and record then hold its text, its row alone has changed, and BIRD keeps what it runs, disarmed |
| ApplyGates.RevertedExactly | internal/web/apply.go:380-400 | it becomes reverted exactly by an undo, or by the first handler that looks after the deadline |
| ApplyGates.UndoLeaves | internal/web/apply.go:683-722 | an undo changes no file and no hash, and one that takes effect has an armed BIRD run the text from before |
| ApplyGates.UnconfirmedChangesNoRecord | internal/web/apply.go:619-681 | a confirmation BIRD did not acknowledge leaves hash, versions and backups alone, but for catching up |
| ApplyGates.RevertsAfterTimeout | internal/web/apply.go:380-400 | over every run, a pending version was recorded by an apply of that run; a handler that looks finds it pending until one timeout after that apply, and records it as reverted from then on |
| ApplyProtocol.SoundStep | internal/store/configversions.go:59-121 | every step, edits included, keeps at most one version pending, every version's files carrying its text and its backup kept |
| ApplyProtocol.Server.HandleApply | internal/web/apply.go:442-617 | the handler, command by command and wherever a write stops, is one Apply step of the transition system, whose gates are TouchesOnlyItsOwn to RecordsExactly |
| ApplyProtocol.Server.HandleReapply | internal/web/history.go:85-103 | so is applying a stored version again |
| ApplyProtocol.Server.HandleApplyConfirm | internal/web/apply.go:619-681 | the handler is one Confirm step, taken back when BIRD does not confirm; when its write stops it has only left edited files behind, the version still pending |
| ApplyProtocol.Server.HandleApplyRollback | internal/web/apply.go:683-722 | the handler is one Rollback step, recorded whatever BIRD replies |
| ApplyProtocol.Server.HandleAdopt | internal/web/apply.go:742-772 | the handler is one Adopt step |
| ApplyProtocol.Server.ReconcilePending | internal/web/apply.go:380-400 | an expired pending version is recorded as reverted, and nothing else changes |
| ApplySafety.HistoryIsStable | internal/store/configversions.go:59-121 | over every run, edits included, at most one version is pending, each resolves at most once, and never changes after |
| ApplySafety.StepKeepsFiles | internal/web/apply.go:486-722 | without an edit the disk stays what birdy recorded, whatever BIRD replies |
| ApplySafety.OwnershipHolds | internal/web/apply.go:110-130 | an owned file is owned at every handler boundary of every run without edits |
| ApplySafety.SafeMeans | internal/web/apply.go:486-617 | safe means exactly: a timer firing leaves running equal to disk, and an undo that takes effect does; a restart always does |
| ApplySafety.SafeExactlyWhenBenign | internal/web/apply.go:486-722 | a step keeps the state safe exactly when it does not arm BIRD twice, records no confirmation of a disarmed BIRD and loses no reply of one that took effect |
| ApplySafety.BenignRunsAreSafe | internal/web/apply.go:486-722 | every run of such steps without edits is safe throughout |
| ApplySafety.AlwaysSafe | internal/web/apply.go:380-722 | from a fresh install, with a punctual timer, no lost reply to an arming or a confirmation and no apply into a window left open, every state between handlers is safe; refused undos included |
| ApplySafety.ConfirmAgrees | internal/web/apply.go:619-681 | after a confirmation disk and hash hold the pending text, and BIRD runs it exactly when it was still armed |
| ApplySafety.RestartThenConfirm | internal/web/apply.go:619-681 | after a restart inside the window a confirmation leaves the state unsafe |
| ApplySafety.RefusedUndoThenApply | internal/web/apply.go:683-722 | an undo BIRD refuses is recorded all the same, and an apply inside the window left open leaves the state unsafe |
| ApplySafety.OnlyConfirmWrites | internal/web/apply.go:486-617 | no other step changes what is read back from disk |
| ApplySafety.ConfirmOverwritesEdit | internal/web/apply.go:619-681 | an edit made while a version is pending is overwritten by its confirmation |
| ApplySafety.StoppedConfirm | internal/web/apply.go:645-653 | after a confirmation whose write stopped, confirming again puts the files right; an undo leaves them, and birdy may apply again exactly when they read as what it last recorded |
| Drift.Watcher.CheckDrift | internal/web/drift.go:45-87 | one check alerts and remembers as the run theorems assume |
| Drift.AlertsExactlyWhenNew | internal/web/drift.go:45-87 | over every run of checks, an alert is raised exactly when there is a hash, nothing is pending, the files can be read and differ from it, and no alert about what they hold stands already |
| Drift.ChecksTheState | internal/web/drift.go:45-87 | what a check compares are the files as read and the recorded text, with no version of the history pending |
| Drift.AlertsAreSeparated | internal/web/drift.go:45-87 | two alerts about the same state have a different alert, a return to sync or a spell without a hash between them |
| Drift.NoFalseAlarm | internal/web/drift.go:45-87 | without an edit no check of any run alerts |
| PeerTemplates.NormalPeerFollows | internal/store/peers.go:319-392 | normalising a peer that took its shape from a template changes no governed field |
| PeerTemplates.ChainRoundTrip | internal/store/policies.go:376-446 | chains that fit their directions are read back in the order they were written |
| PeerTemplates.Database.UpdatePeerTemplate | internal/store/peer_templates.go:246-301 | saving a template rewrites every linked peer's fields and chains in one transaction; what that leaves alone is PerformByFields |
| PeerTemplates.Database.AttachPeers | internal/store/peer_templates.go:318-370 | a selection is linked or detached as a whole, or, when a peer is gone, not at all |
| PeerTemplates.Database.SaveTemplate | internal/web/peer_templates.go:165-259 | the template form creates or rewrites a template, or changes nothing when its shape or a chain does not fit |
| PeerTemplates.Database.DeletePeerTemplate | internal/store/peer_templates.go:454-467 | a template in use is not deleted |
| PeerTemplates.Database.SavePeer | internal/web/peers.go:246-350 | a saved peer keeps its password when the form has none, and takes shape and chains from its template before anything is checked |
| TemplateFrames.PerformByFields | internal/store/peer_templates.go:209-370 | every operation on peers, templates and policies is accepted exactly when what it names is there, in range and of the right direction; it then stores the form's own fields, normalised, or the template's; a linked or attached peer keeps its name, switch, addresses, AS and password, and its drain unless it turns internal; every other row and chain is unchanged |
| TemplateFrames.IdentityIsItsOwn | internal/store/peers.go:498-530 | over every run that never names a peer, whatever its templates go through, it keeps name, switch, addresses, AS and password |
| PeerTemplates.OpKeeps | internal/store/peer_templates.go:246-370 | every operation keeps linked peers equal to their templates, except an overridden import limit |
| PeerTemplates.AlwaysInStep | internal/store/peer_templates.go:61-134 | so it is after every run of creates, saves, attaches, detaches and deletes from empty tables; an internal peer is never drained |
| PeerTemplates.DirectionNeverChanges | internal/web/policies.go:186-236 | no operation turns an import policy into an export policy |
| Factoring.FactoredIsFull | internal/render/render.go:1008-1161 | a template's options followed by a linked peer's own have the effect of the peer's full block |
| Factoring.SessionInForce | internal/render/render.go:1008-1161 | in a rendered file every session is in force with the options of its own block, which OptionsByFields takes field by field |
| Factoring.LoadedFollows | internal/store/peers.go:507-527 | after any run of operations a linked peer reaches the renderer with its template's shape and chains |
| Factoring.EverySessionInForce | internal/render/render.go:1008-1161 | so for every model loaded after any run of operations, a rendered file puts each session in force with exactly its own options |
| Poller.Monitor.PollOnce | internal/poller/poller.go:220-350 | one poll updates memory and timeline as the trace theorems assume |
| PollerTraces.PollOf | internal/poller/poller.go:220-328 | a failed poll leaves a session's state and timeline alone |
| PollerTraces.ReachabilityEdges | internal/poller/poller.go:220-260 | an unreachable or reachable event is on the timeline exactly when the answer changed from the poll before |
| PollerTraces.ReachabilityAlternates | internal/poller/poller.go:220-260 | between two unreachable events of the timeline lies a reachable one, and the other way round |
| PollerTraces.TransitionsAreChanges | internal/poller/poller.go:386-398 | the transitions on the timeline are exactly the observed changes, one each, flaps within 180 seconds of the last change, none for a session the model has switched off |
| PollerTraces.TransitionsAlternate | internal/poller/poller.go:386-398 | for a session never switched off, between two session-down events lies a session-up or flap event, and between two of those a session-down one |
| PollerTraces.OnlySessionsSpeak | internal/poller/poller.go:386-398 | a protocol that is not BGP gives rise to no event |
| PollerTraces.LimitAlertsAreSeparated | internal/poller/poller.go:406-426 | strictly between two limit alerts for one session and address family lies a fetch below the limit |
| PollerTraces.AlertMeansAtLimit | internal/poller/poller.go:406-426 | a fetch that alerts saw the session's channel at its limit |
| PollerTraces.LimitAlertsExactly | internal/poller/poller.go:406-426 | over every run, a limit alert is raised exactly when a fetch sees an address family at its limit and no alert stands, one standing from such a fetch until a fetch sees the family below |
| PollerTraces.DropsAreReal | internal/poller/poller.go:373-384 | a prefix drop compares two fetches that worked, the session up in between |
| PollerTraces.DropsExactly | internal/poller/poller.go:373-384 | over every run, a drop is reported exactly when drops are watched for and a fetch counts at most the ratio of what the last fetch counted, the session up since and the count at least 1000 |
| RangeLists.ParseASNRanges | internal/store/assets.go:60-98 | line by line, the entries in order and every problem under its line number |
| RangeLists.ParseBogonASNs | internal/store/bogons.go:67-110 | the same for bogons, an empty list being a problem |
| RangeLists.FormatASNRanges | internal/store/assets.go:100-107 | the loop prints the text the round trip is about |
| RangeLists.FormatBogonASNs | internal/store/bogons.go:113-120 | likewise for bogons |
| ListInputs.ReadsASNInput | internal/store/assets.go:56-98 | a line put together from an AS prefix in either case, a number, an upper number with blanks around the dash and an AS before it, and a comment is read as that range and note, or refused for the number or the order |
| ListInputs.MalformedASN | internal/store/assets.go:56-98 | a line is refused as malformed exactly when it is not put together so |
| ListInputs.ReadsBogonInput | internal/store/bogons.go:62-110 | likewise for bogons, with the word private |
| ListInputs.MalformedBogon | internal/store/bogons.go:62-110 | likewise |
| ListInputs.ASNLineMeans | internal/store/assets.go:64-71 | blank lines, lone commas and comment lines hold nothing; any other is read without the space around it and one comma at its end |
| ListInputs.ASNTextMeans | internal/store/assets.go:60-98 | the entries are those of the good lines in order, the problems those of the bad ones under their numbers |
| ListInputs.BogonTextMeans | internal/store/bogons.go:67-110 | likewise for bogons; a text that holds neither is refused |
| ListInputs.LinesMakeText | internal/store/assets.go:64-66 | the lines end to end are the text, each ending at its first line end |
| Text.TrimTakesSpace | internal/store/assets.go:66 | trimming takes the space at both ends, all of it, and nothing else |
| ListRoundTrips.ASNRoundTrip | internal/store/assets.go:40-107 | a list survives printing and parsing exactly when 1 <= low <= high <= 2^32-1 and every note is trimmed, on one line and not ending in a comma |
| ListRoundTrips.BogonRoundTrip | internal/store/bogons.go:28-120 | a bogon list survives exactly when it is not empty, 0 <= low <= high <= 2^32-1 and every note is trimmed and on one line |

## Left out

- Filters are nodes of a small language, one per emitted line; the text of the lines is not modelled.
- The bodies of the kernel, static and originator protocols, logging and timers; what a section prints
  besides its declarations is a parameter.
- The raw config block: birdy does not parse it, so a name it declares can still clash.
- Go's `sort` by name: the model's lists are in the order they are rendered in.
- Regular expressions are hand-written recognisers (include lines, list entries, derived names).
- `internal/birdc/parser.go:235-384`: how a route line and a detail line read is a parameter of both
  readers.
- Paging.Paginate: the offset is a natural number; the form never sends a negative one.
- SectionDiff.PerSection: the context width is a natural number; the only caller passes 3.
- The hash is kept as the text it stands for, so equal hashes mean equal texts.
- `filepath.Clean`: a bird.conf directory is taken clean and absolute, as `filepath.Dir` returns it;
  include paths an operator wrote by hand with "." or ".." in them are not resolved.
- ConfigFiles.ConfigDir.SnapshotConfig: backup names are fresh, and files copied for it or restored
  from it do not fail.
- ApplyProtocol.Server.constructor: a server starts without versions, so no pending version has a
  single-file backup.
- BIRD's replies are free; `configure undo` with nothing armed does nothing. Route reloads, e-mail,
  audit rows, read-only mode and the acknowledgement form change none of the modelled state.
- Handlers run under one lock, so each is one step; crashes inside a handler are not modelled.
- Drift.NoFalseAlarm: checks that cannot read the settings count as having no hash.
- PeerTemplates.Database.SavePeer: the row and its chains are stored in one step; the source uses two
  transactions, and a form whose chains fit never fails the second. Validation messages, address parsing and name rules are not modelled, nor is the
  source's row order of peers.
- SystemSets.SetTable.SavePrefixSet: of the form's checks only the empty list and the unique name are
  modelled; a refresh and a form save do not overlap.
- Poller: sampling, route-origin tables, route counts and the snapshot for the web pages.
- Lint.LintAll: the findings about live sessions, missing roles, limits, disabled announce sets and
  unused objects, which look at one field each.
- SQL, HTTP forms, pages, notification channels, federation, PeeringDB, bgpq4 and update checks.
