# Severino HQ, modelled and proved

Severino HQ is a Django host with a controller written in Go. These modules model
the parts of it whose correctness is a property of whole runs, and prove those
properties for every input, every sequence of failures and every interleaving.
`dafny verify dfyconfig.toml` checks all of them.

What runs as statements over changing state is modelled that way: the template
walker, the host a release changes, the fuse's shared budget, the crawl, the edge
receiver, root's side of a pass and the servers a reconciler writes to are classes
whose methods are proved against specifications over values. What runs beside
itself (the fuse, the sweep, the spool) is a state machine over its steps, and
what is said of it holds of every run. A command, a file operation or a request
is an oracle: it does what it is for, or fails, whichever the oracle likes.

| Module | What it models |
|---|---|
| `TemplateLanguage`, `TemplateTrails`, `TemplateReads`, `TemplateSoundness` | the analysis that records what a template reads, what that means position by position, an evaluator of the language, and that the record settles what is drawn |
| `HostUnits`, `HostRelease` | a release as one transaction over the tree, the units, the record and the database, with the install as a transaction within it |
| `ImageLayers`, `Totals` | one pass over an image's layers standing for the layered filesystem |
| `GitHubFuse`, `SweepSchedule` | the fuse a sweep spends GitHub's allowances through, and the sweep's schedule |
| `DemoCrawl` | the crawl that saves the demo |
| `Handoffs`, `Grants`, `FoldedOrder`, `HandoffTaking`, `Spool` | a token from its grant through an untrusted directory to its file, and the spool of dependency runs |
| `EdgeCertificate` | the edge's certificate and routes |
| `NpmHosts`, `AdguardRewrites`, `CloudflareRecords`, `CloudflareSpelling`, `Hostnames`, `TxtStrings` | the reconcilers and the spellings they compare by |
| `Paging`, `ConnectionsDocument` | lists read page by page, and the canonical connections document |
| `Basics`, `Texts`, `Sorting` | what the rest is written with: options, text, folding and order |

## What the proofs found

Where a property is false of the code as first put, the code is kept, an input that
shows it is a lemma, and what is proved instead says exactly when it holds.

- The record of a template does not settle what it draws: a `for` records the
  `forloop` around it as its loop's parent, which the analysis counts as bound. Any
  two contexts whose loops differ in that draw
  `TemplateSoundness.PARENT` differently for some host
  (`TemplateSoundness.ParentLoopInterferes`); `TemplateSoundness.NonInterference` asks
  for agreement on `forloop` as well, where anything the template reaches loops.
- The spend past the fuse's ceiling is bounded by the reads in flight and the writes
  noted from the answer that trips it on, that answer included
  (`GitHubFuse.TrippedByAWrite`).
- The size `read_layer` reports counts a path its archive repeats each time, though
  the layer holds the last one (`ImageLayers.ReadLayer`).
- A link that a later layer puts over a file leaves the file shown, since only regular
  members are read (`ImageLayers.LinkIsNotSeen`); what is shown is what unpacking
  makes exactly when every file shown stands (`ImageLayers.ReadAgrees`).
- The unit `run-severino\x2dhq\x2dsecrets.mount` is shipped, but no snapshot covers
  it. A release given up after its install has committed puts the units back exactly
  when every shipped unit outside the prefix was as it ships it before
  (`HostRelease.Host.Release`), and one that changes the mount is not one
  (`HostRelease.ChangedMountIsNotInPlace`).
- A drop-in, or a unit without the prefix, that a release no longer ships stays
  installed (`HostUnits.DroppedIsForgotten` says exactly when one release leaves
  nothing of another).
- A grant that names any capital passes the host's check and can never be placed: the
  controller mints only for the small letters its contract lets a run name
  (`HandoffTaking.MintedInSmallLetters`, `HandoffTaking.HandedOff`). Root's parse would
  refuse those that case their owner in two ways besides (`Grants.MintedIsSound`).
- A placed grant can refuse its own repositories cased otherwise: the two lists are
  sorted as spelled and only then compared folded (`Grants.AdmitsByOrder`). It admits
  them exactly when both spellings put every two repositories in the same order
  (`Grants.AdmitsExactly`, `Grants.AdmitsRecased`).
- An absent routes file is put back as an empty one after a reload that fails
  (`EdgeCertificate.Receiver.WriteRoutes`).
- `hostname` is not idempotent: dots are trimmed after spaces, so a space before them
  is left (`Hostnames.HostnameTwice` says exactly when). What is stored of a
  declaration so named is never current (`CloudflareRecords.StoredIsCurrent`), so a
  second reconcile changes it again (`CloudflareRecords.Zone.Settles`);
  `CloudflareSpelling.SettledWhen` says kind by kind which declarations settle.
- A list whose server holds pages smaller than asked for and says no total is cut at
  its first page (`Paging.CloudflareList`).

## Model

| member | source | states |
|---|---|---|
| TemplateReads.FreeNodes | hq_sdk/template_contract.py:272-333 | The free names of a tree, defined bottom-up with no scope, guards or order of visiting, over a chain of templates not followed again; defined for cyclic includes, and what is required is free. What it means is said by positions, in FreeIsShown |
| TemplateReads.OccursIsRead | hq_sdk/template_contract.py:224-251 | A name is among an expression's reads, with a default or without, exactly where it stands in it: the variable of a filter chain that holds a default has one, an argument never does |
| TemplateReads.FreeIsShown | hq_sdk/template_contract.py:265-333 | What is free of a tree, what is required of it and whether a template is missing, by positions: each exactly when some trail from the root shows it, the trail alone saying what binds the name, which conditions ask for it, which includes it goes through and whether a default stands there |
| TemplateReads.AskedIsNotNeeded | hq_sdk/template_contract.py:289-293 | An `if` needs no name that its condition asks for, whatever it draws |
| TemplateReads.NotedJoin | hq_sdk/template_contract.py:265-270 | Noting is commutative: the record depends on which free names are noted, never on the order |
| TemplateReads.NotedThen | hq_sdk/template_contract.py:272-279 | Walking a node and then the nodes after it with its bindings bound notes what the two are free of as one tree |
| TemplateReads.ScopedGuarded | hq_sdk/template_contract.py:289-293 | Walking a branch under a condition's names as guards is noting it with those names no longer required |
| TemplateReads.ScopedWithout | hq_sdk/template_contract.py:285-296 | Walking a body with names bound is noting it with those names no longer free |
| TemplateReads.Walker.Note | hq_sdk/template_contract.py:265-270 | The mutating loop leaves exactly the record that noting the expression's free names does, optional ones included, and a name once required stays so |
| TemplateReads.Walker.Walk | hq_sdk/template_contract.py:272-279 | After the loop, which binds as it goes, the record is the old one with the list's free names noted under its scope and guards; and it terminates on cyclic includes, the chain growing within the engine's templates |
| TemplateReads.Walker.Visit | hq_sdk/template_contract.py:281-304 | The same for one node of each kind: `for`, `if`, `with`, `include`, `block`, `extends` and any other tag |
| TemplateReads.Walker.VisitIf | hq_sdk/template_contract.py:289-293 | The same for every branch of an `if`, each under its own condition's guards |
| TemplateReads.Walker.VisitInclude | hq_sdk/template_contract.py:306-322 | The same for an include: the nested walker, the names passed, the cut at a template already being included, and what escapes to the outer record |
| TemplateReads.Walker.Escape | hq_sdk/template_contract.py:319-322 | What an included template requires and is not given is noted outside; what it reads only if present is not |
| TemplateReads.Walker.VisitTag | hq_sdk/template_contract.py:324-333 | The same for a generic tag: each attribute's expression and then each child list |
| TemplateReads.ReadsOf | hq_sdk/template_contract.py:254-343 | Exactness, by positions: a name is recorded exactly when some position reads it unbound, true exactly when at some such position no default and no condition stands in for it, followed through includes; and a template that cannot be found is an error exactly when some followed include names it |
| TemplateSoundness.ExpressionAgrees | hq_sdk/template_contract.py:224-251 | Two contexts that agree on the names the generators yield for an expression give it the same value |
| TemplateSoundness.BindingsAgree | hq_sdk/template_contract.py:294-296 | The same for the values of a `with` or an `include`, all read outside the scope they make |
| TemplateSoundness.SameDrawing | hq_sdk/template_contract.py:272-333 | Contexts that agree on every name a tree reaches, includes unrolled to any depth, draw it alike and leave contexts that still agree, on what the tree bound too; asked only of the templates it can come to |
| TemplateSoundness.SameNode | hq_sdk/template_contract.py:281-304 | The same for one node, with what it binds agreed on afterwards |
| TemplateSoundness.SameLoop | hq_sdk/template_contract.py:285-288 | The same for every pass of a loop, though a tag's binding can last from one pass to the next |
| TemplateSoundness.SameIncluded | hq_sdk/template_contract.py:306-322 | The same for an included template drawn in the scope an include gives it |
| TemplateSoundness.CoverNodes | hq_sdk/template_contract.py:304-322 | What a tree reaches is recorded, left out as an include's optional read, or reached by a template already being included: cutting cyclic includes loses nothing |
| TemplateSoundness.CoverTemplate | hq_sdk/template_contract.py:306-322 | A template included for the first time is covered whatever it includes in turn, itself among them |
| TemplateSoundness.NonInterference | hq_sdk/template_contract.py:265-333 | Two contexts that agree on the record, on the optional reads its includes leave out, on the ambient names and literals, and on `forloop` where anything within reach loops, draw the same text or both fail, to every depth of includes and for cyclic ones; nothing is asked of the templates out of reach |
| TemplateSoundness.IsolatedNonInterference | hq_sdk/template_contract.py:317-318 | Where every include of it is isolated, the record alone settles the text, whatever the included templates do |
| TemplateSoundness.ParentLoopInterferes | hq_sdk/template_contract.py:285-288 | Any two contexts whose loops record different parents draw one template differently for some host, though its record holds no `forloop`: why it has to be agreed on |
| HostUnits.CompareTrees | controller/host/verify.go:172-197 | Says exactly the files in one tree and not the other, or in both with other bytes, but for the two that say where the tree came from |
| HostUnits.TreesAgree | controller/host/verify.go:172-197 | Nothing is said exactly when the trees agree apart from those two files |
| HostUnits.UnitsAgree | controller/host/verify.go:52-72 | No unit finding exactly when every shipped unit is in place byte for byte and nothing of ours is left that is not shipped |
| HostUnits.Verify | controller/host/verify.go:24-74 | Every difference of the tree, its recorded origin, the units, the programs no release installs and the runner's rules, each said exactly when it is so; nothing said exactly when the host is what its release says |
| HostUnits.WithDropIns | controller/host/units.go:59-63 | Every drop-in of the shipped names and the named unit, nothing else |
| HostUnits.WhatShips | controller/host/units.go:19-57 | A unit and a drop-in ship, and an example of either does not |
| HostUnits.OnlyTheseShip | controller/host/units.go:19-57 | And nothing else does |
| HostUnits.SyncedAndInstalledIsClean | controller/host/sync.go:27-55 | A host just synced and installed verifies clean whatever units it held |
| HostUnits.DroppedIsForgotten | controller/host/units.go:65-81 | What retiring covers: one release over another leaves what the second alone would exactly when nothing the first wrote and the second drops is a drop-in or lacks the prefix |
| HostUnits.InstalledAgain | controller/host/install.go:24-110 | Installing what is installed changes nothing |
| HostUnits.ChangedUnitIsFound | controller/host/verify.go:52-72 | Losing or changing any one shipped unit is a finding |
| HostUnits.TheSecretsMountIsNotOurs | controller/host/install.go:182-219 | The name `run-severino\x2dhq\x2dsecrets.mount` is a unit's, so it is shipped, and lacks the prefix a snapshot and a retirement go by |
| HostRelease.PutBackWhenInPlace | controller/host/install.go:182-219 | Putting back the units of the prefix puts back all of them when the others were as shipped before, and once the others are as shipped only then |
| HostRelease.ChangedMountIsNotInPlace | controller/host/install.go:182-219 | A release that brings or changes that mount is one whose rollback cannot, once its install has committed |
| HostRelease.PlainIsNotDeployed | controller/host/outcomes.go:56-65 | A failure whose error carries no outcome, however it is wrapped and joined, and only such a one, is not deployed |
| HostRelease.Host.Boot | hq/platform/core/management/commands/boot.py:46-53 | A boot that migrates a schema that exists keeps the database first, whole, and never replaces a copy kept; one on a schema it reads changes neither; each by a step that is taken, in order; a failing one leaves nothing running and the schema as it was or kept |
| HostRelease.Host.Record | controller/host/install.go:144-152 | The record is a pinned image written whole, or what it was |
| HostRelease.Host.InstallUnits | controller/host/units.go:122-132 | Every unit of the list put, one after another, and in place as the tree has it, or a failure that touched only names in it |
| HostRelease.Host.RestoreUnits | controller/host/install.go:157-179 | Every unit of ours as it was saved and none added since, each by a step that worked, or an honest failure after every one was tried; units outside the prefix untouched |
| HostRelease.Host.Install | controller/host/install.go:24-110 | A committed install leaves exactly the installed units; a failed one puts every unit of ours back unless it says it could not; nothing failing, it commits |
| HostRelease.Host.Installing | controller/host/install.go:55-110 | Between the snapshot and the commit: the units placed, the web unit seen to and the shipped units enabled, in that order |
| HostRelease.Host.Placing | controller/host/install.go:55-93 | The renderer's units put, then the checks passed, then the rest put, the retired ones removed and systemd told: the units are exactly those |
| HostRelease.Host.TakeOver | controller/host/install.go:117-141 | A web unit that is up is left alone; otherwise what runs is asked and recorded, and the unit started on what is recorded; the record only ever changes to the image that is running |
| HostRelease.Host.Sync | controller/host/sync.go:27-139 | The tree is the image's, the old one, or gone: one set aside and not replaced is moved back, and only a move back that fails leaves none |
| HostRelease.Host.RestoreTree | controller/host/deploy.go:363-379 | The backup is where the tree was, or it says it is not, and the last step taken says what is there |
| HostRelease.Host.Hold | controller/host/deploy.go:316-343 | Each active timer and path unit the tree ships, once; all of them stopped, by the step that stops them, or none |
| HostRelease.WhatIsHeld | controller/host/deploy.go:316-343 | What could start work is a timer or a path unit, and nothing else is |
| HostRelease.Host.Resume | controller/host/deploy.go:345-349 | Each held unit is asked to start once, in order, and only those that did are active |
| HostRelease.Host.RestoreSchema | controller/host/deploy.go:292-311 | Success is the very database a boot of this release kept, or the one there was when none was kept; failure still has it kept or back |
| HostRelease.Host.PutBack | controller/host/deploy.go:273-287 | Success is record, tree, units, database and a running previous image, the database being the copy put back where that image reads it; a failure of any is a failure; the previous image starts only on the restored schema |
| HostRelease.Host.Prepare | controller/host/deploy.go:177-197 | Before anything is replaced the tree is backed up and no copy of the database from an earlier release remains |
| HostRelease.Host.Replace | controller/host/deploy.go:209-241 | A release that stands is the image's record and tree and verifies clean, its kept copy dropped, its held units started and then its check tried: whether it passed is its last event; one that does not stand has only restarted the web unit |
| HostRelease.Host.Switch | controller/host/deploy.go:209-230 | A healthy switch is the image recorded, running and its tree in place, after one restart on the schema found |
| HostRelease.Host.Settle | controller/host/deploy.go:231-233 | The rest is installed as its own transaction; once that commits every shipped unit outside the prefix is as shipped, whatever is answered, and an install answered as such verifies clean |
| HostRelease.Host.Attempt | controller/host/deploy.go:198-242 | Live exactly when the release stood and its last event is a check that passed, live-check-failed exactly when that check failed, each after every step in order; not deployed means record, tree, units of the prefix, the running image and the database it reads are what they were, every step of the rollback taken; anything else is a rollback that failed, each part of it tried all the same |
| HostRelease.Host.Release | controller/host/deploy.go:158-242 | All or nothing under every sequence of failures; a release given up after its install committed puts the units back exactly when every shipped one outside the prefix was in place before; the rollback fails only if one of its own commands did or no record may hold the previous image; every held unit asked to start exactly once; only this release's own copy put back, whole and before any restart; the copy dropped only after the last step that can roll back; live exactly when it stood and its last step, the check, passed, and live but for the check exactly when that failed; every step in order after the rehearsal, before which nothing is touched; live when nothing fails |
| HostRelease.SyncedFromIsClean | controller/host/verify.go:32-74 | A tree synced from an image and its units installed verify clean against that image |
| ImageLayers.ReadLayer | tools/audit_image.py:84-97 | A layer's files, whiteouts and opaque folders from its archive; the size it reports counts every copy of a repeated path and is the files' own exactly when nothing replaced had bytes |
| ImageLayers.WhiteoutErases | tools/audit_image.py:91-93 | A whiteout member removes the path of the name after its prefix, in its folder, and whatever is under it: every folder, name and rest |
| ImageLayers.OpaqueErases | tools/audit_image.py:88-90 | An opaque marker in a folder below the root removes every path strictly under that folder |
| ImageLayers.ReadErases | tools/audit_image.py:84-97 | A layer that was read removes a path exactly when one of its archive's members does, by one of those two |
| ImageLayers.CopiesAreFiles | tools/audit_image.py:84-97 | The size reported is the bytes of every file member, which are the files' own and those of the copies replaced |
| ImageLayers.SlidUnder | tools/audit_image.py:106-130 | A layer slid under others adds what it shows through them and changes nothing they show, though only visible paths are remembered |
| ImageLayers.CoveredIsHidden | tools/audit_image.py:120-125 | The pass's test over accumulated sets is being seen above or removed by a layer above |
| ImageLayers.Sift | tools/audit_image.py:118-127 | One layer against those above: what is seen grows by exactly what shows through, and the bytes lost are those hidden, by bucket |
| ImageLayers.Shown | tools/audit_image.py:106-130 | One top-down pass sees exactly what laying every layer bottom-up with whiteouts and opaque folders leaves, and tallies exactly what each layer hides |
| ImageLayers.ReadIsUnpacked | tools/audit_image.py:84-130 | Reading archives and showing their layers is unpacking them over one another, each by the members of its archive that mark something removed and the last word on every path, links, folders and repeated members included, restricted to the files whose last word stands |
| ImageLayers.ReplacesOnly | tools/audit_image.py:84-97 | Unpacking an archive takes the place of a file only by a member at its path, or by one that is no folder at a folder above it |
| ImageLayers.ReadAgrees | tools/audit_image.py:106-110 | So the two agree exactly when every file shown stands: its last archive says last that it is a file, and none above puts anything in its place |
| ImageLayers.LinkIsNotSeen | tools/audit_image.py:94-96 | A link a later layer puts over a file leaves the file shown, which is not there |
| ImageLayers.LayerConserves | tools/audit_image.py:106-130 | Each layer's bytes are those seen through it and those hidden |
| ImageLayers.ImageConserves | tools/audit_image.py:106-130 | The image's bytes are those a container sees and those hidden, summed over layers and buckets |
| GitHubFuse.SharedBudget.Admit | controller/providers/github_limit.go:139-143 | A read is admitted exactly while the fuse has not tripped |
| GitHubFuse.SharedBudget.Note | controller/providers/github_limit.go:148-163 | An answer GitHub counts is spent once, one that names no allowance included, and a 304 or another allowance is not |
| GitHubFuse.SharedBudget.Left | controller/providers/github_limit.go:169-177 | The first account of the hour is put back to before the sweep's own requests; later ones only what is left |
| GitHubFuse.SharedBudget.Check | controller/providers/github_limit.go:179-189 | A budget that has not tripped is under the ceiling and at or over the floor; one that has stays so |
| GitHubFuse.StartIsBeforeTheSweep | controller/providers/github_limit.go:169-177 | On an hour only this sweep spends of, the start reported is that hour as it was |
| GitHubFuse.NextIsSafe | controller/providers/github_limit.go:85-189 | Every step of mint, send, answer and rate-limit read keeps both bounds and the count |
| GitHubFuse.EverySweepIsSafe | controller/providers/github_limit.go:85-189 | Every interleaving: an untripped fuse is within both bounds, what was last told included, and each counted answer is in exactly one installation's budget |
| GitHubFuse.FinalSpendIsBounded | controller/providers/github_limit.go:139-189 | With every read back, at most ceiling and one less than the most reads in flight, plus the writes counted from the answer that tripped on |
| GitHubFuse.Allowances | controller/providers/github_limit.go:280-304 | One record for each installation a token was minted for and that was asked after, in order of installation, with its start and what was spent of it |
| GitHubFuse.ListsOnce | controller/providers/github_limit.go:280-304 | There is one such list |
| GitHubFuse.StartIsFirstAsked | controller/providers/github_limit.go:165-177 | An hour's start is known exactly when the sweep asked after it, and is what the first answer said with the spend until then put back |
| GitHubFuse.LedgerIsHistory | controller/providers/github_limit.go:139-189 | A ledger is what its events say: an installation is minted for, spent of and asked after by the answers of its own tokens, and the last account of it is what the latest one told, an answer or a read of the limit |
| GitHubFuse.LateIsHistory | controller/providers/github_limit.go:139-189 | The writes the bound leaves room for are those counted from the answer that tripped the fuse on, by the events alone |
| GitHubFuse.UntrippedIsToldEnough | controller/providers/github_limit.go:179-189 | After every run an untripped budget knows what is left exactly when something told it, holds that number, and so at least the floor |
| GitHubFuse.ToldTooLittleAdmitsNothing | controller/providers/github_limit.go:165-189 | An account under the floor trips the fuse, and no read of that installation enters flight for the rest of the sweep |
| GitHubFuse.StartIsPutBack | controller/providers/github_limit.go:169-177 | The start is the first account told, with what had been spent before it put back |
| GitHubFuse.TrippedAdmitsNothing | controller/providers/github_limit.go:139-143 | Once tripped, the fuse stays as it tripped and the reads in flight are only ones that already were, for the rest of the sweep |
| GitHubFuse.TrippedByAWrite | controller/providers/github_limit.go:245-260 | A run where a write trips the fuse and the bound without that write is passed by one: why it has to be counted |
| SweepSchedule.Prepare | controller/providers/controller.go:319-362 | The groups hold exactly the wanted kinds that can be read, each in its group once with tallies last; the rest of the wanted are reported unconnected |
| SweepSchedule.OrderedIsSorted | controller/providers/controller.go:338-348 | The stable sort keeps every kind once, puts no kind after a tally that is none, and leaves the rest in key order |
| SweepSchedule.NextIsGood | controller/providers/controller.go:363-376 | Every step of every group keeps each group in turn, each report single and each ledger a run of the fuse with nothing in flight between reads |
| SweepSchedule.EveryRunIsGood | controller/providers/controller.go:363-376 | Every interleaving of the groups, to any point of the sweep |
| SweepSchedule.SweepEnds | controller/providers/controller.go:319-379 | Exactly the wanted kinds have a report: every kind when none is asked for, and otherwise those asked for and the tallies that share a group with one; no two of a group overlapped, each group's spending was a safe run of the fuse, and a tally holds exactly the installations its group asked after, each with what was spent of it in the end, within the fuse's bound |
| SweepSchedule.NothingWaits | controller/providers/controller.go:363-376 | A group that is not done can always begin its next read, end the one it is at, or get an answer that leaves it fewer to wait for, whatever the others do |
| SweepSchedule.TallyComesAlong | controller/providers/controller.go:328-336 | A tally is read whenever any kind of its group is asked for, in that group and after all of it that is no tally |
| DemoCrawl.Crawl.Read | demo/build.py:306-323 | Every worthwhile address a text offers is known, at the least depth it was ever offered at, and nothing else moves |
| DemoCrawl.Crawl.SaveAnswer | demo/build.py:436-452 | An answer is kept under its address and part once, with who asked for it, and not offered again |
| DemoCrawl.Crawl.ReadRegions | demo/build.py:419-434 | Each partial load not kept yet is kept and read once, in order, its offers and what its scripts read known at this depth; all that answer are kept |
| DemoCrawl.Crawl.Visit | demo/build.py:387-417 | A page's own addresses are one copy from a page, and every link of its partial loads and then of it is returned |
| DemoCrawl.VisitFollows | demo/build.py:380-385 | A visited path leaves the queue and its links join it: nothing linked is lost |
| DemoCrawl.Crawl.Walk | demo/build.py:377-385 | Terminates at the most pages; short of it every page linked from a saved one, from one of its partial loads, or from the queue, is saved; every saved page's partial loads are kept |
| DemoCrawl.Crawl.UnsavedCopies | demo/build.py:326-338 | Exactly the addresses within reach and nearer than when last asked for, each once, nearest first and by their text where as near |
| DemoCrawl.Crawl.ReadAgain | demo/build.py:520-522 | Re-reading a saved copy nears what it offers and adds nothing |
| DemoCrawl.Crawl.SaveNew | demo/build.py:524-538 | A copy saved settles nothing wrongly: its offers and its partial loads' are known one further, and its list's pages are left to be asked for |
| DemoCrawl.Crawl.SaveCopies | demo/build.py:506-539 | Terminates though the list grows under the loop; every address asked for, and every page of a list that was copied, ends saved, its offers one further, refused with what it answered, or past the most kept |
| DemoCrawl.Crawl.Palette | demo/build.py:499-504 | The command center's answers, kept and read as a copy's worth from a page |
| DemoCrawl.SavedIsGood | demo/build.py:515-538 | A copy saved under a key leaves no address tried under it before unsettled |
| DemoCrawl.AskingFalls | demo/build.py:471-474 | Asking for what is due leaves less to ask for: why the rounds end |
| DemoCrawl.Crawl.Round | demo/build.py:471-481 | One round keeps all of it, the first asking the command center too, and while a later one saves no page and no copy it leaves less to ask for |
| DemoCrawl.Crawl.ReadScripts | demo/build.py:479-497 | Every answer a script reads is kept, and its links followed |
| DemoCrawl.Crawl.SaveVariants | demo/build.py:454-488 | Terminates with nothing due, every script's answer kept, the command center's once anything was asked for, and, short of the most pages, every link of a page, a copy or a partial load followed |
| DemoCrawl.NearIsSaved | demo/build.py:454-488 | The fixpoint: with room for more copies, every address within the depth by text links has been asked for at its final, smallest depth and is saved or was refused |
| DemoCrawl.Crawled | demo/build.py:364-375 | The whole crawl: that fixpoint, depth for depth; each copy what HQ answered and each refusal its status; every partial load of a saved page or copy and, once there is anything to ask for, of the command center kept, its offers known as far as its asker says unless a script asked first; every list's pages saved or refused; and every page that any of these links saved short of the most pages |
| Handoffs.ParseRun | controller/host/handoff.go:107-138 | A run exactly when it says one and it is sound |
| Handoffs.ParseHandoff | controller/host/handoff.go:76-105 | A hand-off exactly when the value says one, key for key, and it is sound: each owner once however cased |
| Handoffs.EachOnce | controller/host/handoff.go:132-134 | Whether nothing is named twice |
| Handoffs.WordsAreOwner | controller/host/handoff.go:64-72 | Words of letters and digits with one hyphen between each two are an account |
| Handoffs.OwnerIsWords | controller/host/handoff.go:64-72 | And every account is such |
| Handoffs.SaysOfEncoded | controller/host/handoff.go:304-313 | What is written says what it was written from and nothing else |
| Handoffs.SaysOne | controller/host/handoff.go:76-105 | A value says at most one hand-off |
| Handoffs.Reparsed | controller/host/handoff.go:304-313 | The round trip: what is written is parsed as what it was exactly when it is sound, so root's re-encoding is claimed as it was |
| Grants.CheckRepositories | controller/host/grant.go:134-152 | One owner's repositories however they case it, each once, exactly |
| Grants.CheckGrants | controller/host/grant.go:108-132 | Passes exactly when every grant is sound with a name and a placeable path of its own |
| Grants.PlaceableIs | controller/host/grant.go:154-165 | Where a token may go: three parts or more from `run`, none of HQ's directories second and no hidden name last |
| Grants.TheSpoolIsReserved | controller/host/grant.go:154-165 | HQ's own spool is no path a grant may have |
| Grants.Owners | controller/providers/github_grant.go:63-76 | Groups exactly each account's repositories in order, each account once by its first spelling |
| Grants.OneOwnersScope | controller/providers/github_grant.go:63-76 | A checked grant's repositories are one scope, all of them |
| Grants.CoversLast | controller/providers/github_grant.go:91-96 | An account is covered exactly when an installation names it, and by the last that does |
| Grants.MintedByLast | controller/providers/github_grant.go:121-144 | An owner's token is asked of the last installation on it, by the names after the slash |
| Grants.MintEach | controller/providers/github_grant.go:82-117 | One run per owner GitHub minted for, in order, of the installation on that account and for exactly its repositories; nothing when the installations cannot be listed, every one was refused or the file cannot be written |
| Grants.RunIsThere | controller/providers/github_grant.go:97-117 | Each scope a token was minted for has its run, whole |
| Grants.RunIsMinted | controller/providers/github_grant.go:97-117 | Each run is of a scope a token was minted for, in the order of the scopes |
| Grants.MintedIsSound | controller/providers/github_grant.go:121-144 | What is minted for a grant the host's check passes is sound exactly when its token is one line and its repositories spell the owner alike |
| FoldedOrder.SortedFoldsAlike | controller/host/grant.go:86-90 | Two lists sorted as spelled agree folded exactly when they are the same texts but for case and put every two in the same order, spellings of one text paired in order |
| Grants.AdmitsExactly | controller/host/grant.go:79-92 | Exactly what a placed grant admits: one run of its repositories, up to case, spelled so that both lists order them alike, and so its own as it spells them in any order |
| Grants.AdmitsRecased | controller/host/grant.go:79-92 | And where none is named twice however cased, that every two repositories are in the same order in both spellings, which a caller can check |
| Grants.AdmitsByOrder | controller/host/grant.go:86-90 | A sound grant, and a sound and fresh hand-off of its repositories cased otherwise that it refuses: the lists are sorted as spelled and compared folded |
| HandoffTaking.Root.GrantFor | controller/host/handoff.go:262-269 | The grant whose file it is, or none is |
| HandoffTaking.Root.Deliver | controller/host/handoff.go:273-292 | The grant's path holds what a hand-off it takes says, or what it held; no other path is touched |
| HandoffTaking.Root.TakeHandoffs | controller/host/handoff.go:235-259 | Every grant's entry placed and nothing else written, whatever the pass left, and the directory emptied of all that can be removed |
| HandoffTaking.HostsAreApart | controller/host/grant.go:205-207 | HQ's grant and the configured ones share no name and no path |
| HandoffTaking.OnlyWhatGrantsSay | controller/host/handoff.go:235-301 | Any file that changes is a declared grant's own path, the spool or one outside HQ's directories; what was read for it is a regular file of one name and at most 65536 bytes that says a hand-off, every token of it fresh; and it holds the one token for the grant's repositories and no other up to case, or for HQ's own the hand-off encoded |
| HandoffTaking.CheckRunRepositories | controller/providers/github_dependency_run.go:136-149 | Passes exactly an account and repositories in the small letters a report may name, every one under the account |
| HandoffTaking.PrefixIsOwner | controller/providers/github_dependency_run.go:143-147 | Starting with the owner and a slash is being that owner's as spelled |
| HandoffTaking.CheckGrantRequest | controller/providers/github_grant.go:224-235 | Refuses HQ's own name, a name that is none, two accounts, or repositories a run may not name, and nothing else |
| HandoffTaking.MintedInSmallLetters | controller/api/hq-controller.openapi.json:3103-3117 | Of the grants the host's check passes, the controller mints for exactly those that name no capital |
| HandoffTaking.HandedOff | controller/providers/github_grant.go:82-235 | From the grant to the file through every check on the way: its token, of the last installation on the account for the names after the slash, at that grant's path exactly when its repositories hold no capital, its permissions are known, the mint answers with a fresh one-line token and nothing fails; nothing anywhere else, and nothing left that could be removed |
| HandoffTaking.NeverExpires | controller/host/grant.go:69-75 | A placed token is never past its life, for passes no further apart than the life left once it is due allows, and so many in a row failing |
| HandoffTaking.PlacedBy | controller/host/grant.go:69-75 | The token there is the last one placed: by a pass that minted when none was there or half a life after, and none such since |
| HandoffTaking.MissedAre | controller/host/grant.go:69-75 | The passes missed are exactly the last in a row that came due and could not mint |
| Spool.NextClaimsOnce | controller/host/renovate.go:123-144 | Every step keeps each hand-off claimed at most once, and what is in the spool never claimed |
| Spool.NextStartsOnce | controller/host/renovate.go:83-118 | Every step keeps one container at most for each owner of a hand-off |
| Spool.NextStartsInTime | controller/host/renovate.go:148-177 | No container is started for an expired token, and its deadline is the earlier of its expiry and the owner's bound |
| Spool.NextTokensGone | controller/host/renovate.go:123-134 | While a run is at work, any other directory with a token is one whose removal failed |
| Spool.EveryRunIsGood | controller/host/renovate.go:83-193 | All of these over every interleaving of passes, runs, time and crashes |
| Spool.NoTokenSurvives | controller/host/renovate.go:127-134 | While no removal has failed, no directory but the run's own is left: no token an earlier run claimed survives |
| Spool.ArrivalWaits | controller/host/renovate.go:120-144 | A hand-off that arrives during a run outlasts that run, its cleanup or its crash |
| Spool.WaitingIsClaimed | controller/host/renovate.go:134-144 | And the next run claims it as it was spooled |
| Spool.Undisturbed | controller/host/renovate.go:83-193 | A run of which nothing fails, from any state with a hand-off in the spool: one container for each owner whose token lives, in order, with its deadline the earlier of its expiry and the bound, and no directory left |
| Spool.TurnsInOrder | controller/host/renovate.go:108-114 | In every run whose turn it is is how many turns have ended: none is passed over or taken twice |
| Spool.EveryEnvIsGone | controller/host/renovate.go:160-168 | In every run the environment files left of a hand-off are of owners whose turn was, or is about to run or runs; where every removal works, of that one only |
| EdgeCertificate.ReadBundle | controller/edge/bundle.go:59-99 | Accepts exactly the two names, once each, regular, in either order; incomplete exactly when both are there and one is not regular |
| EdgeCertificate.HoldsOne | controller/edge/bundle.go:59-99 | A bundle says one chain and one key |
| EdgeCertificate.Rebundled | controller/edge/bundle.go:22-26 | Reading inverts bundling |
| EdgeCertificate.Receiver.Deploy | controller/edge/edge.go:379-409 | A clean exit is the new, matching, unexpired pair on disk and served; a failing one leaves the previous pair unless putting it back failed; Caddy reloads only a matched pair; and what was done is the previous pair read, each file put and Caddy told, in order to the first that failed, and what was put put back |
| EdgeCertificate.Receiver.Replace | controller/edge/edge.go:396-409 | The two files put and Caddy told in turn, or what was put put back |
| EdgeCertificate.Receiver.RestorePair | controller/edge/edge.go:418-437 | The previous pair back and Caddy told of it, each file in turn, or a put-back said to have failed with no reload |
| EdgeCertificate.Receiver.WriteRoutes | controller/edge/edge.go:339-365 | The new routes, checked alone first, put and told of, or the previous file put back and told of; one that was absent is put back as an empty one exactly when Caddy was told to reload |
| NpmHosts.Npm.Reconcile | controller/providers/npm.go:272-331 | A plan says what the apply would and writes nothing; an applied change makes the one host match, its certificate and NPM's own parts kept, every other untouched |
| NpmHosts.Npm.Settles | controller/providers/npm.go:272-331 | One applied reconcile and another, under any observed names: the second changes nothing and does not fail |
| NpmHosts.Npm.Delete | controller/providers/npm.go:333-361 | The one host of the names gone and no other touched; what is refused or has nothing to remove is said the same of a plan, before anything is written |
| NpmHosts.Removal | controller/providers/npm.go:342-354 | Refused as duplicate exactly when two hosts have the names, and nothing to remove exactly when none has |
| NpmHosts.DiffersWhenNotAs | controller/providers/npm.go:239-268 | The comparison differs exactly when the host is not as declared |
| NpmHosts.OntoIsAs | controller/providers/npm.go:293-312 | What is sent makes the host as declared, keeping its certificate when the spec has none, and its locations and meta where it has any |
| NpmHosts.TakenIsAs | controller/providers/npm.go:272-331 | After a change exactly one host has the names, and it is as declared: renamed ones too |
| NpmHosts.SoleIsCurrent | controller/providers/npm.go:272-331 | Such a host is current whatever was observed |
| NpmHosts.MatchingIs | controller/providers/npm.go:205-213 | Finds exactly the hosts of the set of names, however listed |
| NpmHosts.AboutIsThere | controller/providers/npm.go:277-291 | The hosts a spec is about: those of its own names whenever there are any, and only otherwise those of the names it was observed under |
| AdguardRewrites.Adguard.Reconcile | controller/providers/adguard.go:101-139 | A plan says what the apply would and writes nothing; an applied change moves the one rewrite, its switch left alone, or adds one |
| AdguardRewrites.Adguard.Settles | controller/providers/adguard.go:101-139 | The second reconcile changes nothing and finds the switch as it was |
| AdguardRewrites.AboutIs | controller/providers/adguard.go:106-111 | The rewrites a declaration is about: its domain's own whenever it has any, and only otherwise those of the domain it was observed under |
| AdguardRewrites.Adguard.Delete | controller/providers/adguard.go:151-169 | One request for each rewrite of the domain, until one fails: every one gone and the rest in order, or a failure exactly when one did; no other domain is touched |
| AdguardRewrites.TakenIsCurrent | controller/providers/adguard.go:101-149 | After a change the domain has one rewrite, the declared one, found by an old name too |
| CloudflareRecords.FirstMatch | controller/providers/cloudflare.go:206-219 | The first record of the name, kind and content, or none is |
| CloudflareRecords.Sent | controller/providers/cloudflare.go:157-185 | A malformed CAA value and a missing MX priority are refused and nothing else is; a CAA value goes as data and everything else as content, a priority only for MX and the proxy switch only for the kinds that carry one |
| CloudflareRecords.CurrentIsAsDeclared | controller/providers/cloudflare.go:276-291 | The comparison with what is sent is the record being as declared, part by part: kind, name, lifetime with none being automatic, value or CAA parts, an MX priority, and the proxy switch of the kinds that carry one |
| CloudflareRecords.StoredIs | controller/providers/cloudflare.go:157-185 | What the server stores of a declaration, part by part |
| CloudflareRecords.FoundIs | controller/providers/cloudflare.go:206-219 | The record of the recorded id, or else the first of the kind whose name and content are spelled alike |
| CloudflareRecords.StoredIsCurrent | controller/providers/cloudflare.go:276-291 | What the server stores is current exactly when its name, and a content sent as such, are spelled the same once more; and of a settled one found again |
| CloudflareRecords.TakenIsCurrent | controller/providers/cloudflare.go:247-273 | After a change the record owned is found again, by what was recorded or by its id, and is current |
| CloudflareRecords.TakenIsKnown | controller/providers/cloudflare.go:206-219 | After a change the record owned is found by its id, settled or not, and is current exactly when it is spelled the same once more |
| CloudflareRecords.Zone.Reconcile | controller/providers/cloudflare.go:247-273 | A plan says what the apply would and writes nothing; nothing is to change exactly when the record found is as declared; an applied change makes the one record match under its own id, or adds one |
| CloudflareRecords.Zone.Settles | controller/providers/cloudflare.go:247-273 | Two reconciles of any declaration: after one that changes nothing the second is the same; after a change the second changes nothing exactly when the declaration is spelled the same once more, where an id finds the record, and of a settled one however it is found |
| Hostnames.HostnameTwice | controller/providers/provider.go:373-375 | A hostname spelled again is the same exactly when trimming its dots left no space at the end |
| Hostnames.HostnameIs | controller/providers/provider.go:373-375 | What a spelling is of: the part between the blanks before and, after it, dots and then blanks, in small letters |
| Hostnames.DotAfterSpace | controller/providers/provider.go:373-375 | A value whose spelling is not settled at once |
| CloudflareSpelling.SettledWhen | controller/providers/cloudflare.go:92-109 | Kind by kind for the real spellings: a declaration is settled exactly when its name, and a CNAME's or MX's target, keep no space before their dots, and a CAA value comes back as one that compares alike; TXT and the rest always |
| CloudflareSpelling.CaaSettledWhen | controller/providers/cloudflare.go:82-109 | A CAA value is settled exactly when what Cloudflare writes of its parts is taken apart into them again |
| TxtStrings.CutIsValid | controller/providers/cloudflare.go:130-133 | Text cut where a character starts is text on both sides |
| TxtStrings.StartIsNear | controller/providers/cloudflare.go:131-133 | At most three bytes in a row start no character, so the step back ends |
| TxtStrings.PiecesHold | controller/providers/cloudflare.go:114-137 | Every string is text of at most 255 bytes, together they are the value, each but the last is at least 252 bytes, and none is empty but of the empty value |
| TxtStrings.JoinIs | controller/providers/cloudflare.go:134-137 | One string is between quotes, and each after it follows a space |
| TxtStrings.FirstOfScalar | controller/providers/cloudflare.go:130-133 | A character is there exactly when its bytes are: every scalar value's |
| TxtStrings.ScalarOfFirst | controller/providers/cloudflare.go:130-133 | And what is taken for a character is some scalar value's bytes |
| TxtStrings.Back | controller/providers/cloudflare.go:130-133 | The inner loop ends at most three steps back, at the last boundary |
| TxtStrings.Split | controller/providers/cloudflare.go:128-137 | The loop terminates with exactly those strings |
| TxtStrings.TxtStrings | controller/providers/cloudflare.go:118-137 | The value as stored: kept when already several strings, else cut and quoted |
| TxtStrings.StoredAgain | controller/providers/cloudflare.go:118-137 | Storing what is stored changes nothing, for quoted, half-quoted, unquoted and multi-string values |
| TxtStrings.NormalisedAgain | controller/providers/cloudflare.go:95-109 | Normalising a TXT value twice is normalising it once |
| Paging.CloudflareList | controller/providers/cloudflare_api.go:279-301 | The whole list or an error, with a total or full pages; given exactly when every page that is asked for comes and the last allowed ends it; with a smaller page and no total, exactly the first page |
| Paging.GithubPaged | controller/providers/github_app.go:409-422 | The whole list or an error; the list exactly when it is short of a hundred full pages and every page the full ones lead to comes |
| Paging.PagesHold | controller/providers/cloudflare_api.go:292-298 | A list has at most so many pages exactly when they hold it all |
| ConnectionsDocument.Validate | controller/connections/document.go:207-222 | Passes exactly the documents neither side could misread, each ref once |
| ConnectionsDocument.SortByRef | controller/connections/document.go:230-231 | Some order with the refs in order: no more is promised of it |
| ConnectionsDocument.OneSorting | controller/connections/document.go:226-243 | With a ref each there is one such order, though the sort is not stable |
| ConnectionsDocument.Encode | controller/connections/document.go:226-243 | The one serialization of the connections sorted, or a refusal of an invalid or oversized document |
| ConnectionsDocument.Decode | controller/connections/document.go:247-266 | Reads exactly what is small enough, in shape, with its list, and valid |
| ConnectionsDocument.EncodedAlike | controller/connections/document.go:224-243 | The same connections in any order are the same bytes or the same refusal |
| ConnectionsDocument.Decoded | controller/connections/document.go:226-266 | What is encoded is decoded as the document sorted by ref: nothing written is refused, and only an invalid or oversized document is not written |

## Left out

- TemplateSoundness.NonInterference: covers a template when it and those it includes on its own context name their includes in the text with no filter and extend no other; the walker reads only a child's own nodes, and the inherited drawing is not modelled.
- TemplateReads.ReadsOf: does not model the `blocks` record of the names bound at each block.
- The evaluator takes a tag that is not one of the language's own as a function of its arguments, its children's text and the ambient names; tags that keep state between draws or read the context by themselves are outside it.
- Includes are drawn to any depth the interpreter allows, as a parameter; Django's own recursion limit is not a number here.
- HostRelease.Host.Release: unit snapshots hold the files' contents, not their enablement, ownership or modes, and are compared by contents.
- HostRelease.Host.Release: what HQ writes to its database is a number of rows, which changes only while it runs; waits and deadlines are steps that may fail.
- HostRelease.Host.Sync: assumes no directory set aside by an earlier swap outlives its removal.
- HostUnits.Verify: what is to be said of the runner's rules is given to it; how it is found out is left out, as are the firewall and the account checks.
- Deployer.Deploy before the release (pull, signature, composition, rehearsal) is one step that may fail.
- ImageLayers.Shown: an opaque marker at the archive's root is outside the model, as it is outside the pass; the bucket of a path is a parameter.
- ImageLayers.ReadIsUnpacked: a link is something that is no regular file; a file unpacked through one is at the path it is named by.
- GitHubFuse.EverySweepIsSafe: the wording of refusals and the time the allowance resets are left out.
- SweepSchedule.SweepEnds: what one read of a kind answers, its slow-read log and its failures are left out; every group has a ledger of its own, a read is over once its requests have come back, and the connection and account a record names are left out.
- DemoCrawl.Crawled: HQ answers every spelling of one query alike and the same throughout, and a page's partial loads are a finite list; what the files hold besides what links and offers is left out, as are the words searched for, which are a parameter.
- DemoCrawl.NearIsSaved: counts links in what pages and copies say; what only a partial load or a list's page numbers offer is not offered again on a re-read.
- Handoffs.ParseHandoff: JSON is a value, its objects maps; a decoder's duplicate keys, number forms and trailing data are left out.
- Grants.CheckGrants: folding case is ASCII, which is all the shapes allow.
- HandoffTaking.Root.TakeHandoffs: links, modes and a file swapped while it is read are entries that are not read.
- HandoffTaking.HandedOff: the App's connection is there, and its errors are one answer; the request for a token is a function of the installation and the names.
- HandoffTaking.NeverExpires: a token's life is counted from when it is placed; what a mint and a pass take is not.
- Spool.EveryRunIsGood: the clock does not go back; the log, the egress network and the container itself are left out.
- EdgeCertificate.Receiver.Deploy: a write that errs left its file as it was; PEM and X.509 are one function of a chain and a key.
- NpmHosts.Npm.Settles, AdguardRewrites.Adguard.Settles and CloudflareRecords.Zone.Settles are against a server that stores what it is sent; AdGuard's delete takes every entry of a pair, its update leaves the switch alone, and Cloudflare writes a CAA value back as one that reads the same.
- CloudflareRecords.Zone.Reconcile: record types are compared as one spelling, and zones, their lookup and deletion are left out.
- TxtStrings.NormalisedAgain: trimming spaces is a function that leaves text text and a value in quotes alone.
- Hostnames.HostnameTwice: spaces and letters are ASCII ones.
- CloudflareSpelling.SettledWhen: a CAA value's pattern, its joined form and what Cloudflare writes of one are functions.
- Paging.CloudflareList: the cursor-paged list, the credential breaker and the decoding of a page are left out.
- ConnectionsDocument.Decoded: JSON is a pair of functions that read back what they write, which text that is not UTF-8 would break.
- Provider records, glance and weather panels, analytics tables, the SDK's re-exports, screenshots, browser scripts, credential minting and the Django application are not part of this model.
