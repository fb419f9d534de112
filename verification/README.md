# memem, modelled and proved in Dafny

memem keeps a vault of memories as Markdown files, together with stores derived from it: a parsed
cache, a table of contents, an embedding table, a graph of typed edges and two kinds of profile
files. Detached miners, an MCP server and a "dream" pass change them concurrently, steered by
replies of a language model. This project models the parts in which those stores have to agree, and
proves what holds in every interleaving, for every reply and over every run of operations. Where the
program does not keep a promise for all inputs, the exact condition is proved instead, and a lemma
exhibits the failing input.

`dafny verify dfyconfig.toml` checks everything.

## The modules

| file | what it models |
|---|---|
| `JsonRepair.dfy` | the stack scanner that completes truncated JSON, and the extraction by bracket depth |
| `TranscriptPairs.dfy` | pairing a transcript into exchanges |
| `MiningRun.dfy` | mining processes on one transcript: offset, lock, empty-streak backoff |
| `StoredText.dfy` | what the vault gives back of a text written to it: generated sections of links, line ends, white space |
| `Reconcile.dfy` | the interpreter of the reconciler's reply, its caps and guards, and the fallback |
| `ProfileText.dfy`, `ProfileProtocol.dfy`, `ProfileStore.dfy` | profile parser and printer; the two-phase locked append; the append on real profile texts |
| `EmbeddingTable.dfy` | locked upserts of the two embedding files with lock-free readers |
| `VaultCache.dfy` | the mtime cache under refreshes, evictions, in-place changes, sweeps and flushes |
| `IndexLine.dfy` | the index line of a memory, and the sanitising that its fields undergo when it is written |
| `VaultIndex.dfy`, `GeneratedIndex.dfy` | the incrementally kept `_index.md`; the generated one it has to agree with |
| `GraphEdges.dfy` | the edge table, refreshes committed edge by edge, rebuilds, the audit |
| `GraphExpansion.dfy` | the two capped breadth-first searches of recall and the choice between them |
| `RankFusion.dfy`, `Diversify.dfy` | rank fusion, normalisation, greedy diversification |
| `DreamClusters.dfy`, `DreamPass.dfy` | the two clustering loops; building and applying a dream diff |
| `Memories.dfy`, `PyStrings.dfy`, `Wrappers.dfy` | memories, Python's line boundaries and white space, an option type |

Code that changes state step by step is a class or a method with loops, proved equal to a function
of its inputs or of the old state; the theorems are about those functions. Protocols between
processes are state machines whose steps are the atomic file operations and commits of the program.
Replies of the language model, fuzzy scores, embeddings, the security scan, random ids and times are
arbitrary parameters.

## Where code and promise part

* `_repair_json` does not close a text that stops right after a backslash in a string literal:
  its closers become part of the literal (`JsonRepair.RepairCloses`, `JsonRepair.DanglingEscapeExample`).
* The mining offset is read before the lock and can move back (`MiningRun.OffsetCanMoveBack`); no byte
  is skipped all the same. A line that is being written while it is read is lost, even with one process
  (`MiningRun.LinesReadWhole`, `MiningRun.CutLineExample`).
* `append_fact` replaces line feeds and carriage returns, but `str.splitlines` also breaks at eight
  other characters, so such a bullet is stored cut short (`ProfileText.SeparatorSurvives`). A final
  empty bullet disappears (`ProfileText.FinalEmptyBulletLost`).
* A change made in place in the cache whose write then fails stays in the cache through every later
  sweep (`VaultCache.FailedWriteStays`).
* The index files a saved memory under the project it was given, while its file holds the sanitised one:
  a bracket, a comma or a line end in project or tags, a bracketed title prefix that differs from the
  project, a parenthesis in a project name or an inactive memory make index and vault disagree, and a
  title that cites another id in parentheses makes its own line disappear when that other memory changes
  (`VaultIndex.StepFollows`, `VaultIndex.CommaProjectIsLost`, `VaultIndex.CitingMemoryIsLost`).
* A refresh commits the two halves of an edge separately; what is committed in between may leave it
  unmatched (`GraphEdges.InterferenceExactly`, `GraphEdges.RemovalBetweenHalves`).
* `related` links longer than eight characters escape the duplicate check of the front-matter search
  (`GraphExpansion.NoMemoryTwice`, `GraphExpansion.LongLinkDuplicates`). The docstring of
  `_linked_memories` promises a strict superset; a second hop may add nothing
  (`GraphExpansion.NearerFirst`, `GraphExpansion.TwoHopsCanAddNothing`).
* A non-string target or merged text in the reply lets an exception escape, and the fallback then
  saves again what the pass has already saved (`Reconcile.RaisesExactly`, `Reconcile.StoredTwiceExactly`).
  A merged text to which the security scan objects drops its candidate
  (`Reconcile.HostileMergeDropsCandidate`). The truncation guards, here and in the dream pass, measure a
  text before generated sections of links are stripped from it (`Reconcile.LinksDefeatTheGuard`,
  `DreamPass.StoredRewriteIsShorter`). Invalidating a memory writes its file anew, so that an essence
  ending in such a section loses it then (`DreamPass.MergeMeaning`).
* A contradiction judgment may name one memory as winner and loser; that memory is then invalidated in
  favour of itself (`DreamPass.SelfReplacedExactly`).
* A weak memory whose file says `layer: -1` is demoted into the protected layer 0
  (`DreamPass.ProtectionChangesExactly`).
* The docstring of `_rrf_fusion` gives absent ids one penalty rank for all channels and speaks of the
  full-text term as one for ids in that channel; the code uses each channel's own size plus one, and
  adds the full-text term for every id as soon as that channel is not empty. The model follows the code.

## Model

| member | source | states |
|---|---|---|
| `JsonRepair.RepairJson` | memem/mining.py:69-103 | the one-pass loop returns the text followed by the closers the scanner still owes |
| `JsonRepair.RepairCloses` | memem/mining.py:69-103 | repair only appends, and rescanning ends outside strings with an empty stack if and only if no escape dangles |
| `JsonRepair.RepairIdempotent` | memem/mining.py:69-103 | repairing twice equals repairing once exactly when no escape dangles; after two repairs the scanner is always home |
| `JsonRepair.RepairIsUniqueShortest` | memem/mining.py:69-103 | no completion that empties the scanner is shorter, and one of the same length is the same |
| `JsonRepair.RepairKeepsBalanced` | memem/mining.py:69-103 | text derived from the grammar of matching brackets and string literals is left alone |
| `JsonRepair.RepairBalances` | memem/mining.py:69-103 | the repaired text is balanced for exactly the prefixes of balanced texts that do not stop inside an escape |
| `JsonRepair.DanglingEscapeExample` | memem/mining.py:80-93 | a truncated array with a dangling escape stays unbalanced |
| `JsonRepair.ExtractByDepth` | memem/mining.py:48-66 | the fallback returns the shortest piece from the first opener in which openers and closers are equally many, arrays before objects, and nothing exactly when there is none |
| `JsonRepair.DepthCounts` | memem/mining.py:56-62 | the depth is the number of openers less that of closers |
| `TranscriptPairs.ParsePairs` | memem/transcripts.py:329-421 | the two-buffer loop emits exactly the exchanges of the decomposition into maximal runs |
| `TranscriptPairs.TurnsInOrder` | memem/transcripts.py:389-418 | a line adds a message exactly when it is one with a text, in its place |
| `TranscriptPairs.JoinConcat` | memem/transcripts.py:345-350 | the messages of a run are joined by line feeds |
| `TranscriptPairs.RunsFlatten` | memem/transcripts.py:329-421 | the decomposition spells out every non-empty message once and in order |
| `TranscriptPairs.RunsUnique` | memem/transcripts.py:329-421 | a leading assistant run, alternating non-empty runs and a trailing user run are determined by the messages |
| `MiningRun.SessionFiles.MineLocked` | memem/mine_delta.py:1353-1366 | a lock-holding run extracts unless it backs off, updates the streak accordingly and stores the end of its delta |
| `MiningRun.StreakMeans` | memem/mine_delta.py:1353-1415 | the count in the streak file is the number of empty extractions since the last productive one; extraction is skipped exactly when it is at least three and fewer than five invocations were skipped since the last extraction |
| `MiningRun.ProductiveResets` | memem/mine_delta.py:1415 | a productive extraction resets both numbers to zero |
| `MiningRun.TicksSane` | memem/mine_delta.py:50-51 | from a reset on, a positive skip count implies a streak of at least three and is at most five |
| `MiningRun.AtMostFiveSkips` | memem/mine_delta.py:1353-1366 | no six invocations in a row skip extraction |
| `MiningRun.BarrenCost` | memem/mine_delta.py:1409-1415 | n barren invocations from the reset state make exactly 3 + (n - 3) / 6 extraction calls |
| `MiningRun.NothingSkipped` | memem/mine_delta.py:1319-1366 | in every interleaving with crashes, every byte below the stored offset was in a delta some run finished, one process at a time holds the lock, and the streak file is the history of the lock holders |
| `MiningRun.OffsetCanMoveBack` | memem/mine_delta.py:157-180 | two processes can store a smaller offset after a larger one |
| `MiningRun.OffsetMovesBackExactly` | memem/mine_delta.py:1319-1366 | a step lowers the offset if and only if it stores a delta that ends below it, and one process alone never does |
| `MiningRun.LinesReadWhole` | memem/mine_delta.py:157-180 | in every interleaving a line below the offset that no stored end cuts was read whole by a finished run; with one process a line was read whole if and only if no stored end cuts it |
| `MiningRun.CutLineExample` | memem/mine_delta.py:157-180 | one process loses a line that was half written when it read |
| `MiningRun.SoloRun` | memem/mine_delta.py:1319-1436 | a run that nobody disturbs finishes with all bytes from the stored offset on, stores their end, updates the streak in plain numbers and gives the lock back |
| `MiningRun.EntersAlone` | memem/mine_delta.py:1319-1352 | a run that finds the lock taken leaves everything as it was |
| `MiningRun.CrashIsHarmless` | memem/mine_delta.py:1319-1436 | a process that dies with the lock frees it and leaves offset and streak, so the next run takes the same bytes again |
| `Reconcile.Reconciler.FindUnambiguous` | memem/obsidian_store.py:826-848 | a full id wins; a prefix of eight or more characters counts only if it fits one memory |
| `Reconcile.PointsOnce` | memem/obsidian_store.py:826-848 | a target names at most one memory |
| `Reconcile.Reconciler.ReconcileOne` | memem/mine_delta.py:923-1260 | one candidate goes through the profile stage, target, protection and truncation guards and the cap, and leaves state and outcome as specified, or lets an exception escape |
| `Reconcile.Reconciler.Reconcile` | memem/mine_delta.py:910-1263 | the loop over the candidates is the fold of that step and stops where an exception escapes |
| `Reconcile.Reconciler.Write` | memem/mine_delta.py:1417-1436 | near-exact candidates are set aside, and an escaping exception leads to the fallback on the vault as the pass left it |
| `Reconcile.PassIsSafe` | memem/mine_delta.py:740-741 | for every vault and reply: protected memories unchanged, no memory lost or newly protected, at most five old memories changed, at most three calls of append_fact |
| `StoredText.StoredAsGiven` | memem/obsidian_store.py:588-610 | a text without a generated section is given back trimmed and with its line ends translated, whatever links are appended to it |
| `StoredText.KeptInFullExactly` | memem/obsidian_store.py:408-415 | storing a text keeps its trimmed length, whatever the links, if and only if it holds no generated section, as given or with its line ends translated, and no CR LF pair |
| `Reconcile.GuardHoldsExactly` | memem/mine_delta.py:1112-1125 | the truncation guard protects every target it admits a text for, whatever the links, if and only if the text is kept in full |
| `Reconcile.EssenceBound` | memem/mine_delta.py:1112-1125 | no pass takes a settled essence below 0.3^5 of its starting length when the merged texts of its updates are kept in full |
| `Reconcile.LinksEmptied` | memem/obsidian_store.py:408-415 | a text that is only a generated section of links is stored as nothing |
| `Reconcile.LinksDefeatTheGuard` | memem/mine_delta.py:1112-1125 | the merged text "## Related" with one link passes the guard and leaves the target empty |
| `Reconcile.StepMeaning` | memem/mine_delta.py:923-1260 | every candidate has exactly one outcome that tells what happened to the vault; when an exception escapes, and when a candidate is blocked, is characterised both ways |
| `Reconcile.ChangesExactly` | memem/mine_delta.py:1104-1239 | a candidate supersedes a memory exactly when its usable decision says so, names the memory, the memory is there and not protected, fewer than five memories were changed and the candidate can be made; it updates one exactly when moreover the text has ten characters and three tenths of the old essence and passes the scan |
| `Reconcile.OthersExactly` | memem/mine_delta.py:923-1260 | when a candidate is added, known, declined, blocked or taken by a profile, both ways |
| `Reconcile.CountersExactly` | memem/mine_delta.py:1104-1239 | every change asked for with a usable target counts towards the cap, carried out or not; profile calls, writes and repeats are counted exactly |
| `Reconcile.FirstFiveChanges` | memem/mine_delta.py:1104-1127 | of the changes a reply asks for, the first five are not turned into additions and all later ones are |
| `Reconcile.MakeableExactly` | memem/obsidian_store.py:422-478 | a candidate can be made exactly when the scan objects to neither text nor title and some stretch of at least ten characters of the trimmed text begins and ends without a dot |
| `Reconcile.ItemForExactly` | memem/mine_delta.py:910-923 | the item of a candidate is the last one of the reply with its index, and without one it is an addition |
| `Reconcile.SurvivingExactly` | memem/mine_delta.py:780-806 | exactly the near-exact candidates are set aside |
| `Reconcile.WriteExactly` | memem/mine_delta.py:1417-1436 | the pass runs when a candidate survives and there is a reply; without a reply all candidates go to the fallback, and without survivors nothing happens |
| `Reconcile.NoCandidateDropped` | memem/mine_delta.py:1104-1260 | each candidate that the pass reaches is at its end in the vault under its stable id, merged into or superseding its target, taken by a profile, declined by the reply, or refused by scan or junk check; it reaches all of them unless an exception escapes |
| `Reconcile.RaisesExactly` | memem/mine_delta.py:910-1263 | an exception escapes if and only if some candidate is reached whose target is no string, or whose merged text is none while its target can be changed |
| `Reconcile.StringsNeverRaise` | memem/mine_delta.py:910-1263 | a reply whose targets and merged texts are strings or absent never lets one escape |
| `Reconcile.RerunChangesNothing` | memem/mine_delta.py:1137-1187 | a batch whose decisions all resolved to additions changes nothing the second time and reports zero writes, for every second reply none of whose decisions changes a memory |
| `Reconcile.RerunReportsKnown` | memem/mine_delta.py:1137-1187 | when the second reply resolves to additions too, every candidate that can be made is reported as known |
| `Reconcile.WriteIsSafe` | memem/mine_delta.py:1266-1311 | the same promises hold with the fallback, after which every candidate that can be made is in the vault |
| `Reconcile.StoredTwiceExactly` | memem/mine_delta.py:1266-1311 | the fallback stores a candidate a second time if and only if an exception escaped, it can be made and its stable id was in the vault by then |
| `Reconcile.FallbackDuplicates` | memem/mine_delta.py:1266-1311 | after an escaping exception a candidate is in the vault twice, under its stable and a fresh id |
| `Reconcile.HostileMergeDropsCandidate` | memem/mine_delta.py:1189-1210 | a clean candidate is lost when the scan objects to the merged text |
| `ProfileText.ParseProfile` | memem/profiles.py:173-189 | the line loop with its current section computes the specified sections |
| `ProfileText.HeadingDecides` | memem/profiles.py:181-188 | a bullet goes to the section that the heading before it names, letter case and outer white space aside, and under any other heading it is dropped |
| `ProfileText.RenderProfile` | memem/profiles.py:192-200 | the printer's line buffer, joined and trimmed, is the specified text |
| `ProfileText.RoundTrip` | memem/profiles.py:173-200 | parsing a rendered profile gives the sections back if and only if all bullets are trimmed single lines and the text does not end in an empty bullet |
| `ProfileText.FinalEmptyBulletLost` | memem/profiles.py:200 | in that last case exactly the final empty bullet is missing |
| `ProfileText.ParsedIsClean` | memem/profiles.py:173-189 | any text at all parses to trimmed single-line bullets under exactly the schema's sections |
| `ProfileText.RenderedIsFixed` | memem/profiles.py:173-200 | rendering after parsing is the identity on rendered text |
| `ProfileText.SeparatorSurvives` | memem/profiles.py:256 | a line separator passes the sanitiser although the parser splits at it |
| `ProfileText.SanitizedMeaning` | memem/profiles.py:256 | the sanitised line is the given one without outer white space and with blanks for line feeds and carriage returns |
| `ProfileText.UserSchemaWellFormed` | memem/profiles.py:65-68 | the sections of the user profile meet the assumptions of the round trip |
| `ProfileText.ProjectSchemaWellFormed` | memem/profiles.py:65-68 | so do those of project profiles |
| `ProfileProtocol.AppendsAreSerial` | memem/profiles.py:247-342 | every interleaving of appends, with any or no compaction and with crashes, is a serial history: each version is the previous one plus a bullet or the compaction of exactly that text, each answer fits the version it saw, and a call is rejected only for a missing or too long reply or when its second attempt overflows a file that has changed |
| `ProfileProtocol.CapHolds` | memem/profiles.py:332-342 | a file that starts within 2500 characters never exceeds them |
| `ProfileProtocol.NoCommitUnseen` | memem/profiles.py:279-304 | every later version was computed from the committed version before it |
| `ProfileProtocol.FirstVersionIsAppend` | memem/profiles.py:279-304 | the first version of a missing file is never a compaction |
| `ProfileProtocol.SoloCall` | memem/profiles.py:247-342 | a call that runs alone reports a duplicate, appends within 2500 characters or commits a reply within them, and is rejected only for want of such a reply or of a file |
| `ProfileProtocol.CrashIsHarmless` | memem/profiles.py:152-168 | a process that dies with the lock frees it and leaves the file, so the next call is answered as if it ran alone |
| `ProfileStore.Admit` | memem/profiles.py:247-271 | the calls that get past the checks carry the canonical section and the line without outer white space and with blanks for line ends, of 1 to 200 characters |
| `ProfileStore.ProfileFile.AppendLocked` | memem/profiles.py:307-342 | one attempt under the lock reports a duplicate, appends within the cap or asks for a compaction of exactly the new text |
| `ProfileStore.StoreCoherent` | memem/profiles.py:307-320 | a missing file and its template are treated alike |
| `ProfileStore.CommitsAddOneBullet` | memem/profiles.py:322-336 | a plain new version has one bullet more at the end of the section and all other bullets as they were, if and only if the line is a single line and the text does not end in an empty bullet |
| `EmbeddingTable.TableFiles.Upsert` | memem/embedding_index.py:227-328 | the files become the loaded table with the row replaced or appended |
| `EmbeddingTable.TableHolds` | memem/embedding_index.py:271-328 | after any sequence of upserts ids are unique and rows are the last ones committed for them |
| `EmbeddingTable.IdsGrow` | memem/embedding_index.py:271-328 | ids only grow by appending |
| `EmbeddingTable.NoLostUpdate` | memem/embedding_index.py:201-224 | in every interleaving of writers and lock-free readers, whenever the lock is free the files are the table of all committed upserts |
| `EmbeddingTable.ReadersPairCorrectly` | memem/retrieve.py:300-317 | every reader pairs each of its rows with the id it was committed for, also when it reads the two files around a write |
| `EmbeddingTable.StatIsFresh` | memem/retrieve.py:300-311 | with both files there a reader reads them anew unless its cache is as new as they are, and such a cache holds the rows on disk |
| `EmbeddingTable.UndisturbedRead` | memem/retrieve.py:311-317 | a reader that nobody disturbs keeps both files and their mtime |
| `EmbeddingTable.UndisturbedUpsert` | memem/embedding_index.py:227-328 | a writer that nobody disturbs leaves both files as the loaded table with its row put in |
| `EmbeddingTable.UpsertIsSeen` | memem/embedding_index.py:227-328 | after any history that leaves the lock free such an upsert makes its row the one on disk for its id and leaves that of every other id |
| `EmbeddingTable.CrashIsHarmless` | memem/embedding_index.py:227-328 | a writer that dies before it writes frees the lock and leaves both files |
| `EmbeddingTable.CrashBetweenWrites` | memem/embedding_index.py:201-224 | a crash between the two writes is harmless for an old id and starts the table afresh for a new one |
| `VaultCache.CacheIsCoherent` | memem/obsidian_store.py:342-391 | in every interleaving an entry with its file's mtime holds that file's parse, unless it was changed in place and not written back |
| `VaultCache.RefreshReads` | memem/obsidian_store.py:342-378 | a refresh that nobody disturbs puts the file's parse and mtime into the cache and touches nothing else |
| `VaultCache.WritesAreNoticed` | memem/obsidian_store.py:297-315 | after a write no cache, not even a flushed one, passes the mtime test for the file, so a sweep reads it again |
| `VaultCache.DeletesAreNoticed` | memem/obsidian_store.py:292-296 | a deletion leaves an entry that a sweep drops |
| `VaultCache.EvictionDrops` | memem/obsidian_store.py:381-391 | an eviction takes the memory and its entry out of the cache, and nothing else |
| `VaultCache.RestartRestores` | memem/obsidian_store.py:174-270 | what a cold start loads is the cache that was flushed |
| `VaultCache.VaultStore.Sweep` | memem/obsidian_store.py:273-320 | a sweep drops entries of deleted files, parses the files whose mtime differs and keeps the rest; it asks for a flush exactly when one was pending or something had to change |
| `VaultCache.SweepRestores` | memem/obsidian_store.py:174-320 | after a sweep of any coherent cache, flushed or not, the cache is the full parse of the vault if and only if all files parse and no unwritten in-place change hides behind an unchanged mtime |
| `VaultCache.FailedWriteStays` | memem/obsidian_store.py:1277-1310 | a change in place whose write fails survives every sweep |
| `IndexLine.OwnLine` | memem/obsidian_store.py:1470-1480 | a memory's line carries its own id in parentheses |
| `IndexLine.TitleInLine` | memem/obsidian_store.py:1470-1480 | what stands in a plain title stands in the line |
| `IndexLine.TagsInOrder` | memem/obsidian_store.py:1476-1479 | every tag that is not empty stands in the list after a number sign, in the order given |
| `IndexLine.TagInLine` | memem/obsidian_store.py:1476-1480 | every such tag stands in the line |
| `IndexLine.SafeTagExactly` | memem/obsidian_store.py:516-524 | the sanitiser is the identity exactly on trimmed values without bracket, comma or line end, and returns nothing that holds one |
| `IndexLine.StoredAsWritten` | memem/obsidian_store.py:510-552 | a memory without title prefix whose project and tags the sanitiser leaves alone is read back as written |
| `GeneratedIndex.GenerateIndex` | memem/obsidian_store.py:1490-1519 | the generated lines are the sections of the sorted projects with their memories sorted by date |
| `GeneratedIndex.SortedProjectsFacts` | memem/obsidian_store.py:1497-1499 | every project has one heading, in ascending order, "general" last |
| `GeneratedIndex.GeneratedInOrder` | memem/obsidian_store.py:1507-1514 | a section holds exactly the memories of its project, newest first, and those of one date in the order of the vault |
| `GeneratedIndex.GeneratedFrame` | memem/obsidian_store.py:1501-1516 | the generated lines begin with the title and the total and end with a blank line |
| `GeneratedIndex.GeneratedIndexes` | memem/obsidian_store.py:1490-1519 | the generated lines list the active memories once each under their projects with exact numbers, and are read back as such if and only if no line or project of theirs holds a line end |
| `VaultIndex.IndexFile.AppendOrUpdate` | memem/obsidian_store.py:1563-1586 | old lines naming the id go, the new one is filed under the first heading of its project or a new one, then all is recounted |
| `VaultIndex.IndexFile.Remove` | memem/obsidian_store.py:1590-1599 | the lines naming the id go and all is recounted |
| `VaultIndex.FiledOnTop` | memem/obsidian_store.py:1574-1584 | a saved memory's line stands right below the first heading of its project, or below a new heading at the end |
| `VaultIndex.WithoutInOrder` | memem/obsidian_store.py:1572 | a line stays among the others, in its place, exactly when it is no bullet that names the id |
| `VaultIndex.IndexFile.Recount` | memem/obsidian_store.py:1522-1543 | headings and date line of the edited file get the counts of the lines as they now are |
| `VaultIndex.RecountExact` | memem/obsidian_store.py:1522-1543 | a recount makes every number exact and apart from that only renames headings |
| `VaultIndex.PlainMeans` | memem/obsidian_store.py:1525-1526 | a project name survives a recount if and only if it is not empty, has no parenthesis and no surrounding white space |
| `GeneratedIndex.NumbersAreExact` | memem/obsidian_store.py:1508-1512 | in an index every heading's number is the number of active memories of that project, and the total that of all |
| `VaultIndex.RelabelledProjectIsLost` | memem/obsidian_store.py:1522-1533 | after a recount no memory of a project with another name is filed under it |
| `VaultIndex.StepFollows` | memem/obsidian_store.py:1563-1599 | one save, delete or deprecation keeps the index right if and only if no other line names its id, a recount changes no other project and makes no two headings equal, and a saved memory is active, shown as its file stores it and free of line ends |
| `VaultIndex.IncrementalRefines` | memem/obsidian_store.py:1200-1203 | along any run of operations the incremental index lists, up to order and empty sections, what generation would write if and only if every operation meets that condition, which vault and headings decide |
| `GeneratedIndex.RefinesGenerated` | memem/obsidian_store.py:1490-1599 | the same for runs from a generated index on |
| `VaultIndex.SafeMemoryIsShown` | memem/obsidian_store.py:516-552 | a memory that the sanitiser leaves alone is shown as stored if and only if a recount leaves its project alone |
| `VaultIndex.UnsafeProjectIsLost` | memem/obsidian_store.py:516-552 | a project with a bracket, a comma or a line end never meets the condition |
| `VaultIndex.CommaProjectIsLost` | memem/obsidian_store.py:1563-1586 | the first memory of the project "a, b" leaves an index that regeneration contradicts |
| `VaultIndex.CitingMemoryIsLost` | memem/obsidian_store.py:1569-1572 | with two memories, the second titled "see (id)", deleting the first takes the line of the second out of the index |
| `GraphEdges.CandidateEdges` | memem/graph_index.py:493-529 | the candidates are the first of the admitted edges, sorted by score and relation |
| `GraphEdges.AdmittedFacts` | memem/graph_index.py:505-528 | before the cut they are exactly the admitted pairs |
| `GraphEdges.SortedFacts` | memem/graph_index.py:529 | the sort keeps the edges, puts the highest score first, then the last relation name, and leaves ties in their order |
| `GraphEdges.BelowMeans` | memem/graph_index.py:529 | the sort compares scores and, when they are equal, the names of the relations letter by letter |
| `GraphEdges.BestAreKept` | memem/graph_index.py:529-530 | no edge that the limit cuts off goes before one that is kept |
| `GraphEdges.AdmitMeaning` | memem/graph_index.py:508-520 | when a pair is admitted and with which edge, both ways and with the thresholds in numbers |
| `GraphEdges.GraphDb.Refresh` | memem/graph_index.py:544-562 | a refresh removes the memory's edges and writes the candidates, counts what it writes, and keeps a sound graph sound |
| `GraphEdges.GraphDb.Rebuild` | memem/graph_index.py:565-605 | a rebuild yields a sound graph whatever was there before |
| `GraphEdges.GraphDb.RemoveFor` | memem/graph_index.py:147-160 | exactly the edges touching the memory go, by full id or prefix |
| `GraphEdges.RemovedExactly` | memem/graph_index.py:147-160 | an edge goes exactly if one of its ends is the id or shares its first eight characters |
| `GraphEdges.PutAllMeaning` | memem/graph_index.py:118-144 | after a batch a key holds the score of the last edge that writes to it: the score itself within 0 and 1, else the nearer bound |
| `GraphEdges.PutAllLeaves` | memem/graph_index.py:118-144 | a key that no edge writes to holds what it held |
| `GraphEdges.RefreshExactly` | memem/graph_index.py:544-562 | after a refresh the edges that the candidates do not write are those that were there and do not touch the memory |
| `GraphEdges.AuditIsClean` | memem/graph_index.py:658-676 | in a sound graph the audit lists neither one-way nor low-confidence edges, and every score is within 0.18 and 1 |
| `GraphEdges.RunKeeps` | memem/graph_index.py:544-605 | in every interleaving of refreshes, removals and rebuilds, committed statement by statement, scores and end points are right, and a symmetric edge that is not half written is unmatched if and only if its pair is stray |
| `GraphEdges.SettledRun` | memem/graph_index.py:544-605 | once no reverse edge is outstanding the graph is sound if and only if no pair is stray |
| `GraphEdges.InterferenceExactly` | memem/graph_index.py:556-561 | any number of deletions and rebuilds between the two halves of an edge leave a sound graph sound if and only if the first half is in place after them |
| `GraphEdges.OneWriterIsSound` | memem/graph_index.py:544-605 | with one writer no pair is ever stray, and the graph is sound whenever no reverse edge is outstanding |
| `GraphEdges.RefreshInSteps` | memem/graph_index.py:544-562 | the statements of a refresh, committed one by one with nothing in between, make the graph of the refresh in one piece |
| `GraphEdges.RebuildInSteps` | memem/graph_index.py:565-605 | the deletion and the batch of a rebuild make the graph of the rebuild in one piece |
| `GraphEdges.RemovalBetweenHalves` | memem/graph_index.py:556-561 | a removal between the two commits leaves a one-way edge |
| `GraphExpansion.ExpandRelated` | memem/recall.py:237-268 | the nested loops with early exits compute the capped level-by-level search |
| `GraphExpansion.ExpandIndex` | memem/recall.py:191-234 | so do those over the edge table, which look up full ids and compare prefixes |
| `GraphExpansion.LevelsDistinct` | memem/recall.py:237-268 | no two of the found keys pass for the same in the duplicate check, no seed and nothing inactive is found |
| `GraphExpansion.ExpansionIsReachability` | memem/recall.py:191-268 | something is found within the hop bound if and only if a path of active memories outside the seeds leads to it |
| `GraphExpansion.NetsNarrow` | memem/recall.py:204-216 | rising thresholds only withhold links, so that theorem applies to both searches; to the one over the edge table exactly when no two active memories share a prefix |
| `GraphExpansion.IndexLinksExactly` | memem/recall.py:204-216 | over the edge table the links of a memory are the first rows, up to the limit, with a score of at least 0.18, and on later hops 0.30 |
| `GraphExpansion.ExpandIsMonotone` | memem/recall.py:237-268 | seeds come first; a smaller cap and fewer hops give prefixes |
| `GraphExpansion.OneHopIsPrefix` | memem/recall.py:178-188 | with the fallback choice included, one hop is a prefix of two |
| `GraphExpansion.SecondHopAdds` | memem/recall.py:237-268 | the second hop appends what it finds up to the cap, and nothing if and only if the cap is reached or it finds nothing |
| `GraphExpansion.NearerFirst` | memem/recall.py:414-425 | the linked memories two hops away are those one hop away followed by what the second hop adds that is not primary, so they are more if and only if there is such a memory |
| `GraphExpansion.LinkedExactly` | memem/recall.py:414-425 | the linked memories are exactly those of the expansion that share no prefix with a primary one, in its order and as often |
| `GraphExpansion.OneLinkIsFound` | memem/recall.py:414-425 | a primary memory whose only link leads to another active one has exactly that one linked |
| `GraphExpansion.OneRowIsFound` | memem/recall.py:178-188 | a primary memory with one row in the edge table has exactly that memory linked, whatever its front matter says |
| `GraphExpansion.TwoHopsCanAddNothing` | memem/recall.py:414-425 | two memories that link only to each other |
| `GraphExpansion.NoMemoryTwice` | memem/recall.py:245-264 | the front-matter search never returns a memory twice, nor a seed again, for all seeds and hops, if and only if no link to an active memory is longer than eight characters |
| `GraphExpansion.IndexNothingTwice` | memem/recall.py:211-231 | the search over the edge table never does |
| `GraphExpansion.LongLinkDuplicates` | memem/recall.py:255-262 | a memory linked by prefix and by full id is returned twice |
| `RankFusion.RrfFusion` | memem/retrieve.py:512-546 | the accumulating loop gives every id of some channel the sum of its shares |
| `RankFusion.RanksAreBijection` | memem/retrieve.py:525-532 | the ranks of a channel are a bijection onto 1..n |
| `RankFusion.RankMeaning` | memem/retrieve.py:525-532 | one rank is better than another exactly when the score is higher, or equal and earlier in the dictionary |
| `RankFusion.AbsentRanksLast` | memem/retrieve.py:534-536 | an absent id ranks below every present one |
| `RankFusion.FusionRespectsDominance` | memem/retrieve.py:512-546 | no worse in every channel and better in one means a strictly higher fused score |
| `RankFusion.FusedScoresAreBounded` | memem/retrieve.py:512-546 | fused scores are positive and at most 3/61, or 2/61 without full text |
| `RankFusion.FusedExactly` | memem/retrieve.py:512-546 | exactly the ids of some channel are fused, each as the sum of 1 / (60 + rank), and the score is the highest possible exactly for an id before all others in every channel that has items |
| `RankFusion.Normalize` | memem/retrieve.py:855-865 | the in-place loops normalise every score by minimum and maximum of the pool |
| `RankFusion.NormalizedFacts` | memem/retrieve.py:855-865 | results lie in [0, 1], the strict order is kept both ways, top is 1 and bottom 0 unless all are equal |
| `RankFusion.DominanceSurvives` | memem/retrieve.py:830-865 | dominance survives fusion and normalisation of any pool |
| `Diversify.MmrRerank` | memem/retrieve.py:462-509 | the selection loop picks, k times, the first candidate of largest margin |
| `Diversify.RerankIsGreedy` | memem/retrieve.py:462-509 | more than k candidates give exactly k of them, each with the largest 0.7 times score less 0.3 times the largest inner product with an earlier pick, among all then left |
| `Diversify.SimilarityMeaning` | memem/retrieve.py:485-498 | the redundancy bounds every inner product with an earlier pick and equals one of them, or is zero when there is none |
| `Diversify.FirstIsMostRelevant` | memem/retrieve.py:483-502 | the first pick has the largest score |
| `Diversify.DistinctStay` | memem/retrieve.py:503-509 | distinct candidates stay distinct |
| `Diversify.SmallerRequestIsPrefix` | memem/retrieve.py:462-509 | asking for one more only adds one |
| `Diversify.ShortListKeepsItsOrder` | memem/retrieve.py:478-479 | the candidates come back as they are if and only if there are at most k of them |
| `Diversify.ShortListIsNotSorted` | memem/retrieve.py:478-509 | so a short list is not sorted by score |
| `DreamClusters.MergeClusters` | memem/dreamer.py:657-675 | the loop over assigned flags computes the greedy clusters |
| `DreamClusters.SummaryClusters` | memem/dreamer.py:382-400 | the loop over tried flags computes the same greedy clusters |
| `DreamClusters.GreedyMeaning` | memem/dreamer.py:657-675 | a cluster is its seed and exactly the later free indices similar to it, in ascending order |
| `DreamClusters.LeftOver` | memem/dreamer.py:657-675 | an index in no cluster had too few free indices like it after the clusters with smaller seeds |
| `DreamClusters.ClustersAreDisjoint` | memem/dreamer.py:657-675 | no index is in two clusters |
| `DreamPass.FindDemotions` | memem/dreamer.py:252-274 | exactly the unprotected, weak, uncited memories above layer 3 are proposed, one layer down |
| `DreamPass.FindContradictions` | memem/dreamer.py:277-304 | exactly the pairs of unprotected, valid memories of which one contradicts the other |
| `DreamPass.ClustersDisjoint` | memem/dreamer.py:307-489 | the clusters of all projects together are pairwise disjoint and hold unprotected memories |
| `DreamPass.ProjectClusterMeaning` | memem/dreamer.py:307-489 | a cluster has at least five memories, two for merges, and consists of its first one and of exactly the later eligible ones of the project that are like it and in no earlier cluster |
| `DreamPass.UnclusteredIsLonely` | memem/dreamer.py:577-734 | an eligible memory in no cluster would have started one that is too small |
| `DreamPass.ClusterInOrder` | memem/dreamer.py:307-489 | the memories of a cluster are in the order of the snapshot |
| `DreamPass.SummariesExactly` | memem/dreamer.py:400-489 | a summary is proposed exactly for the clusters for which a pattern came back |
| `DreamPass.MergesExactly` | memem/dreamer.py:676-734 | a merge is proposed exactly for the clusters for which one came back |
| `DreamPass.RewritesExactly` | memem/dreamer.py:891-1056 | a rewrite is proposed exactly for a reply that names a candidate by its number with a text of at least half the length |
| `DreamPass.CandidatesExactly` | memem/dreamer.py:891-1056 | asked about are the first ten of the unprotected, valid memories that may be rewritten |
| `DreamPass.Dreamer.ApplyDiff` | memem/dreamer.py:1127-1370 | the six loops in their modes change the vault as specified |
| `DreamPass.DreamIsSafe` | memem/dreamer.py:158-165 | whatever the replies, in every mode protected memories are unchanged, none is lost, nothing new is protected, and layers move only by the listed demotions |
| `DreamPass.FullPassExactly` | memem/dreamer.py:1127-1370 | after a full pass a memory is invalid exactly if it was, lost a judgment or was absorbed by a merge, belongs to a summary exactly if it did or is a member of one that came about, and has the layer of its demotion |
| `DreamPass.ResolvedMeaning` | memem/dreamer.py:1187-1201 | one pair: the loser of a usable judgment is invalidated in favour of the winner, and nothing else changes |
| `DreamPass.WinnersStay` | memem/dreamer.py:1187-1201 | after all pairs a memory that lost no judgment is as it was |
| `DreamPass.LastLossDecides` | memem/dreamer.py:1187-1201 | a memory that lost one points to the winner of the last one it lost |
| `DreamPass.SelfReplacedExactly` | memem/dreamer.py:1107-1118 | a memory is invalidated in favour of itself exactly when the last judgment it lost names it as winner too |
| `DreamPass.SummaryMeaning` | memem/dreamer.py:1203-1232 | one summary: a new memory holds the pattern and exactly the members point to it |
| `DreamPass.InsightMeaning` | memem/dreamer.py:1289-1317 | one insight: a new memory holds it, and nothing else changes |
| `DreamPass.RewriteMeaning` | memem/dreamer.py:1319-1370 | one rewrite: when it is carried out, both ways |
| `DreamPass.ProtectionChangesExactly` | memem/dreamer.py:1165-1185 | a full pass changes which memories are protected if and only if it demotes one from layer -1 |
| `DreamPass.SafeModeIsAdditive` | memem/dreamer.py:1136-1139 | a dry run changes nothing; safe mode changes only essences of unprotected memories |
| `DreamPass.SafeRewrite` | memem/dreamer.py:1319-1370 | safe mode rewrites a memory exactly when a rewrite of the diff fits it, with the first that does if no later one names it |
| `DreamPass.SafeInsight` | memem/dreamer.py:1289-1317 | safe mode stores every usable insight as a memory of its own |
| `DreamPass.SafeModeKeepsHalf` | memem/dreamer.py:1320-1356 | safe mode keeps half of every essence whose new texts are kept in full |
| `DreamPass.RewriteGuardExactly` | memem/dreamer.py:1343-1356 | the rewrite guard keeps half of every essence it admits a text for, whatever the links, if and only if the text is kept in full |
| `DreamPass.StoredRewriteIsShorter` | memem/dreamer.py:1343-1356 | a rewrite that ends in a generated section is stored without it |
| `DreamPass.MergeMeaning` | memem/dreamer.py:1234-1287 | once the canonical memory is saved, exactly the supported unprotected members are invalidated and point to it; if it is not saved, nothing changes |
| `DreamPass.MergesInvalidateSupported` | memem/dreamer.py:1234-1287 | every memory that the merges of a pass invalidate was a supported member and points to a saved canonical memory |
| `DreamPass.MergesAreDisjoint` | memem/dreamer.py:577-734 | no memory belongs to two merges of a pass |

## Left out

- Reconcile.EssenceBound: the condition is exact for one text against every target it may replace (GuardHoldsExactly); a text that fails it may still meet only targets that are short enough.
- Reconcile.Reconciler.ReconcileOne: tags, keys, paths, titles of updated memories and telemetry are not modelled, and the schema's spelling of profile sections is a parameter.
- Reconcile.RerunChangesNothing: speaks of batches whose decisions all resolved to additions; updates are not idempotent.
- StoredText.StoredAsGiven: bytes that are not UTF-8 and the YAML round trip of front-matter strings are not modelled; the section of links is modelled character by character.
- DreamPass.SafeModeKeepsHalf: the condition is exact for one text against every essence it may replace (RewriteGuardExactly); digests of different texts are assumed to differ.
- DreamPass.Dreamer.ApplyDiff: returns no counts and no error list, and resolves the full ids of a diff exactly, since they come from the same vault.
- EmbeddingTable.NoLostUpdate: crashes are allowed everywhere except between the two writes of an id that had no row; CrashBetweenWrites says what happens there. A concurrent rebuild of the table is not modelled.
- VaultCache.CacheIsCoherent: every path keeps one id, ids are unique, and every write takes a fresh mtime; a memory does not move to another path.
- GeneratedIndex.GenerateIndex: the date of the day, the scope filter and the dates that cannot be parsed are not modelled; the eight-character ids are distinct.
- GraphEdges.InterferenceExactly: the commits in between are deletions and rebuilds; what other refreshes leave is decided by SettledRun.
- GraphExpansion.ExpandIndex: the rows of a memory are a parameter, selected by threshold and limit.
- ProfileText.RoundTrip: case folding of section names is a parameter that tells the names of a schema apart; non-ASCII folding is not modelled.
- TranscriptPairs.ParsePairs: decoding a JSON line and extracting its text are abstract, and so is the session metadata.
- JsonRepair.RepairBalances: balance of brackets and string literals only; whether the completed text is valid JSON is not modelled.
- Floating point: scores are reals, and the rounding of sums and products is not modelled.
- Subprocess calls, the sentence-transformers model, rapidfuzz, BM25 and FTS5 ranking are arbitrary functions.
- YAML front matter, msgpack, SQLite and numpy internals; each atomic replacement of a file is one step.
- Strength and decay scoring, rerank signals, temporal and path bonuses: the latter never reorder and would only add easy members.
- The selection of episodes for reflection insights, the age and tense tests of rewrites and the prompts: arbitrary predicates.
- CLI, MCP server, status, logging, playbooks, cross-vault search, migrations and evaluation scripts.
- Security, credential and PII scans: pattern lists; the scan is an arbitrary predicate.
