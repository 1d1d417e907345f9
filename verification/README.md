# Verified model of Knobyte's code-graph core

Knobyte answers questions about a code base from a graph of its declarations. This project models
the parts of it where an answer can go quietly wrong, and proves what they promise, for all inputs,
all interleavings and all runs:

- **The `graph scope` source planner** (`SourceRanges`, `LaneOrder`, `Admissions`, `FilePlans`,
  `PutForward`, `FilePlanning`, `Prioritize`, `EmissionOrder`, `PlannedIds`, `Entries`, `Grouping`,
  `Merging`, `RangeCuts`, `Crediting`, `KeptPieces`, `Accounting`, `Coalesce`, `LostDeclaration`,
  `SendOrder`, `ScopePlan`, `DroppedDeclaration`, `Estimate`, `JsonForm`, `Budget`, `Rooms`, `PassRuns`,
  `Emission`, `ScopeRun`). Planned line ranges become prioritised admissions, admissions are cut so that
  no source line goes out twice, with the node ids each excerpt is credited with and the order they go
  out in told exactly, and records are fitted into a token budget by binary search. The end of the chain
  is `ScopeRun.ScopeSource`: every record shows its file's text, no line is in two records, nothing
  unplanned goes out, answers go first, the ledger holds, what is missing did not fit, and the result says
  it is truncated exactly when a planned line or a flow is missing. `Shrinking` fits one record into what
  room is left.
- **The Sled transaction overlay** (`ByteOrder`, `SortedEntries`, `Overlays`, `SledStore`,
  `SledRuns`). A two-cursor merging iterator refines a plain map overlay; what a run of interleaved
  transactions leaves is told from its steps and made on the engine's objects.
- **Parallel preparation and the extraction cache** (`PrepareFiles`, `ExtractionCache`,
  `CacheLaws`). Every
  schedule of the workers gives the sequential result on a prefix of the corpus; over any sequence of
  builds the cache changes nothing, and a refresh is a rebuild unless it recovers a file that can no
  longer be read.
- **Edge writing** (`EdgeWriter`). Each fact once, with a key that says exactly what a fact is.
- **The Cozo mirror** (`CozoStore`, `SqliteTables`, `CozoMirror`, `EmbeddingRuns`). Schema upkeep,
  re-embedding, incremental sync and search as one state machine: a search that is not refused compares
  vectors of one space only, and which text each vector embeds is known after any run of syncs.
- **Fingerprints** (`Lexer`, `TokenLaws`, `MinHash`, `BodyText`). Lexing, sketches as pointwise minima, the banding
  guarantee, and whitespace normalisation.
- **The managed-block editor** (`ManagedBlock`, `EditLaws`). User bytes survive, editing settles, and what
  a file holds decides what is done to it.
- **Skill ownership** (`Skills`, `SkillRuns`). Syncs against a user who edits in between, and when a sync
  must install.
- **Source windows** (`Chunks`).

`Prelude`, `Text` and `Sorting` hold shared vocabulary. A range's numbered content is a sequence of
lines; `Text.SplitJoin` and `Text.JoinSplit` say that nothing is lost by that. Hashes, embeddings,
extraction, JSON and Unicode classes are parameters; where a property needs more of them (no
collisions, a reversible serialization, honest time stamps) its lemma says so in a `requires`.

## Where the code does not do what it says

- `total_scan` (src/cozo/sled_store.rs:228-236) scans from the empty key to the one-byte key 255. Keys
  that begin with byte 255 are stored but never listed: `SledStore.TotalScanMisses`. It lists
  everything exactly when no visible key begins with that byte (`SledStore.SledTx.TotalScan`).
- Editing a managed block is not idempotent on an LF file that ends in a bare CR: the CR and the
  separator become a CRLF, and the next edit renders the block with CRLF
  (`ManagedBlock.BareCrIsRewritten`). These are the only such files, and a third edit never changes
  anything (`ManagedBlock.ReplanSettles`).
- The fingerprint promises that a renamed identifier keeps the sketch (src/graph/fingerprint.rs:62-63).
  An identifier with a `$` right behind a number is absorbed by the number when it is renamed to one
  without: `Lexer.DollarBehindNumber`. Tokens and sketch are kept exactly when every identifier right
  behind a number keeps a `$` (`Lexer.RespellingKeepsTokens`, `MinHash.RespellingKeepsSketch`), and the
  bodies without such an identifier are the only ones that every renaming keeps
  (`Lexer.EveryRespellingKeepsTokens`).
- The incremental graph sync keeps a stored embedding when seven columns are unchanged; docstring and
  signature feed the embedding but are not among them, so a vector can stay that of an older text:
  `EmbeddingRuns.EditedTextStaysStale`. The rows equal a full reload exactly when every node has the
  text it had at the sync that embedded it (`EmbeddingRuns.SyncIsReload`).
- A file that was indexed and then cannot be read is kept by a refresh as long as its time stamp and
  size are unchanged, and dropped by a rebuild: `ExtractionCache.UnreadableFileStays`. In all other
  cases a refresh is a rebuild (`ExtractionCache.RefreshIsRebuild`).
- Coalescing is to keep covered node ids for accounting (src/graph/agent.rs:736-737). A declaration
  that two earlier excerpts have between them can be credited to nobody:
  `LostDeclaration.SplitDeclarationIsLost`. `Accounting.CreditedNowhere` and `Accounting.LosesWhen` say
  exactly when coalescing loses an id. Prioritising loses ids in the same way before it, since an excerpt
  put forward as a declaration's header or whole text carries that one alone: `DroppedDeclaration.DroppedDeclarationIsLost`,
  and exactly when `PlannedIds.DroppedIds` says.
- Coalescing sorts what it keeps by the place it was asked for at (src/graph/agent.rs:847-852), but an
  excerpt merged with an earlier one takes that one's place, so a line of a late, less important admission
  can go out before an earlier admission of its phase: `SendOrder.LineMovesAhead`. It precedes exactly the
  lines whose requests hold later places (`SendOrder.PlaceDecides`), never without such a merge
  (`SendOrder.LaterNeverFirst`).
- Shrinking a record (src/graph/agent.rs:154-160) splits its text into lines once more. The text was
  made of lines in the first place, so nothing changes for LF and CRLF files; but a line that ends in
  CR CR LF has a carriage return left, and that one is dropped from a shrunk record:
  `Shrinking.DoubledReturnIsLost`. `Shrinking.ShrunkShows` says exactly which records are safe.
- The early exit at the head of the window loop (src/graph/chunks.rs:119-121) is never taken
  (`Chunks.ChunkSource`).

## Model

| member | source | states |
|---|---|---|
| Text.SplitJoin | src/graph/agent.rs:421-458 | splitting content at line breaks gives back the lines that were joined, so content and line sequence carry the same information |
| Text.JoinSplit | src/graph/agent.rs:421-458 | joining the split lines gives the content back, for every content |
| Sorting.SortSorts | src/graph/agent.rs:347-376 | sorting brings every key behind the smaller ones, whichever of the three parts decides |
| Sorting.SortIsStable | src/graph/agent.rs:347-376 | elements with equal keys keep their order |
| SourceRanges.StripUndoesNumbering | src/graph/agent.rs:410-434 | stripping a line number undoes numbering for every number, column width and text, even text that looks numbered itself |
| SourceRanges.NumberIsAligned | src/graph/agent.rs:430-434 | a numbered line is its number at the right of the column behind blanks, a colon, a blank and the text |
| Text.DigitsValue | src/graph/agent.rs:430-434 | a rendered number reads back as itself and has no leading zero |
| SourceRanges.SliceShows | src/graph/agent.rs:296-308 | a slice inside a range still shows its file's text under the right line numbers |
| SourceRanges.DeclarationAnchorIsHeader | src/graph/agent.rs:310-321 | an anchor exists iff range and declaration share a line; it is the first shared lines, as many as the limit allows, credited with the declaration alone; it is called complete iff it reaches the declaration's end, and truncated iff it does not or the range is |
| SourceRanges.CompleteDeclarationIsExact | src/graph/agent.rs:323-332 | a complete declaration is offered iff the range has all of its lines and it is short enough, and then shows exactly those lines, untruncated, credited with the declaration alone; of a declaration that ends before it starts it shows none |
| SourceRanges.ClipIntervals | src/graph/agent.rs:347-360 | clipping keeps exactly the cut lines inside the range |
| SourceRanges.MergeIntervals | src/graph/agent.rs:347-360 | merged intervals ascend with gaps and cut the same lines |
| SourceRanges.SubtractIntervals | src/graph/agent.rs:334-376 | a line survives iff it is in the range and in no interval; pieces ascend apart, show the file's text and keep the ids whose declarations they meet; nothing cut leaves the range itself |
| SourceRanges.MergeAdmissionConserves | src/graph/agent.rs:378-389 | merging an excerpt into a list loses and adds no line and keeps the file's text |
| SourceRanges.MergeAdmissionCredits | src/graph/agent.rs:378-389 | the incoming bounds gain exactly the incoming ids, other bounds none, and bounds are never repeated |
| LaneOrder.MergeKeepsPlaces | src/graph/agent.rs:378-389 | merging leaves every excerpt of a list in its place, and an excerpt with new bounds comes last |
| LaneOrder.ListingIs | src/graph/agent.rs:378-389 | a list made by merging has each span once, where it first came up, in the form it first had, and its first element is the first one merged |
| SourceRanges.BestDeclarationRangeIndex | src/graph/agent.rs:391-404 | none iff no range carries the declaration line; else the best carrier: starting on it, then smallest, then earliest |
| SourceRanges.BestIsFirstChoice | src/graph/agent.rs:391-404 | no carrier is preferred to the one chosen: one that starts on the declaration line beats one that does not, then the shorter, then the earlier |
| SourceRanges.CombinedTextIsFileText | src/graph/agent.rs:421-434 | every line of a combination is re-numbered from the file's own text, whichever side it comes from |
| SourceRanges.CombineShows | src/graph/agent.rs:421-458 | combining overlapping ranges covers exactly both and shows the file's text |
| SourceRanges.CombinedLine | src/graph/agent.rs:421-434 | every line of a combination is the file's, its number in a column as wide as the last one |
| SourceRanges.CombineKeepsCredits | src/graph/agent.rs:435-457 | ids of both sides and no others; a side that holds the other decides reason and truncation, else truncation of either side counts |
| SourceRanges.SourceRangesCover | src/graph/agent.rs:460-477 | the sorted sweep answers yes iff every wanted line is in some emitted range, in any number and order |
| FilePlanning.PlanWholeFile | src/graph/agent.rs:507-534 | conserves the planned lines; the first file and reserved files answer whole, flow files are direct answers, any other file puts forward one anchor: the header of the strongest declaration it carries, else of its first one, else all of it; of the range's ids it asks for exactly those of that excerpt and those that a run beside it stands for; what is optional is what is left of the range, in order |
| FilePlans.StrongestIsFirst | src/graph/agent.rs:511-517 | the strongest declaration is the first of the primary order that is the file's and that the range carries |
| FilePlans.SelectIds | src/graph/agent.rs:535-557 | the declarations selected are, in primary order, the file's reserved ones, its first three flow declarations and its first three others; the flow ones are exactly those |
| FilePlans.DirectAnswerIds | src/graph/agent.rs:558-570 | exactly the reserved declarations that can be answered whole, and the first other selected one that can stand in |
| FilePlans.PlaceDeclaration | src/graph/agent.rs:575-614 | one that no range carries changes nothing; of any other the lanes gain exactly its excerpts, lines and credited ids: a reserved one among the answers, whole when possible; a flow or fallback one that can be shown whole among the direct answers (the answers of the first file); any other among the anchors |
| FilePlans.PlaceExcerpts | src/graph/agent.rs:586-613 | each excerpt lands in its lane and no other, each lane gains exactly the lines and credits of its excerpts, and the excerpt put forward is cut from its range |
| FilePlans.PlaceFallback | src/graph/agent.rs:615-634 | a file without a placed declaration puts forward one excerpt: in the first file its first known declaration whole when possible, else that declaration's header, else the whole range |
| FilePlanning.Remainders | src/graph/agent.rs:635-639 | placed lines and optional lines together are exactly the planned lines; the optional excerpts are, range by range and in order, the runs left, and carry an id iff one of these stands for it |
| FilePlanning.PlanRanges | src/graph/agent.rs:535-646 | conservation: the lanes of a file together ask for exactly its planned lines; each lane lists exactly the excerpts put there, in primary order, each span once, so the first anchor is that of the first declaration placed among the anchors; the optional excerpts are what is left of the ranges, in order; the line of every reserved declaration is in an answer; the ids asked for are exactly those of the excerpts put forward and those that what is left of a range stands for |
| FilePlanning.PlanFiles | src/graph/agent.rs:501-647 | one conserving plan for each file with ranges, in record order, its lanes in primary order |
| PutForward.FirstPutIsStrongest | src/graph/agent.rs:571-614 | the first excerpt put into a lane is that of the first selected declaration that goes there |
| Prioritize.ReserveAll | src/graph/agent.rs:656-668 | every reserved answer is listed and the list goes by priority, file and place |
| Prioritize.EmitReserved | src/graph/agent.rs:668-676 | exactly the reserved answers are emitted, each once, best priority first |
| Prioritize.EmitFirstFile | src/graph/agent.rs:677-688 | adds exactly the strongest file's answers not yet emitted, answers before direct answers |
| Prioritize.EmitWaves | src/graph/agent.rs:689-722 | a round-robin lane adds exactly its slots not yet emitted, wave by wave and file by file |
| Prioritize.EmitFairness | src/graph/agent.rs:709-714 | adds exactly the first anchor of every file that has one |
| Prioritize.EmitOptional | src/graph/agent.rs:723-732 | adds exactly one optional admission for each file that has one |
| Prioritize.EmitAll | src/graph/agent.rs:649-734 | everything asked for is emitted exactly once: reservations by priority, then the rest in the order of stages, waves and files |
| Prioritize.StagedPhases | src/graph/agent.rs:649-734 | the stages come in the order answer, fairness, secondary, optional |
| Prioritize.ReservedPrefix | src/graph/agent.rs:669-676 | reservations are ahead of everything that is not reserved |
| EmissionOrder.SlotShapes | src/graph/agent.rs:649-734 | what is emitted for each kind of excerpt: answers and direct answers whole, the first anchor as fairness, whole only when it is a short whole file, further anchors and optional bodies divisible |
| EmissionOrder.ReservationsFollow | src/graph/agent.rs:649-676 | reserved answers come first, by the best priority of their ids, then by file, then answers before direct answers, then by place |
| EmissionOrder.StagesFollow | src/graph/agent.rs:677-734 | of the rest the strongest file's answers and direct answers come first, then the other files' answers, their direct answers, the first anchors, the further anchors, the optional bodies |
| EmissionOrder.WavesFollow | src/graph/agent.rs:677-734 | the other files take turns: the first answer, direct answer or further anchor of each file before the second of any; first anchors and optional bodies go by file |
| Grouping.Flatten | src/graph/agent.rs:744-754 | one entry for each range of each admission and no other, in order, sending the same lines in the same phases |
| Grouping.GroupEntries | src/graph/agent.rs:755-762 | one group for each file and phase asked for, with exactly its entries, each once, in the order they were asked for |
| Merging.MergeGroup | src/graph/agent.rs:763-784 | merged entries of a group are disjoint, ascend, and carry the same lines in the same phase; each request is absorbed whole by one of them, with its ids; the place, the ids, the atomic mark and every joint of a merged entry come from requests inside it |
| RangeCuts.CutOne | src/graph/agent.rs:800-829 | what remains of a range is what the earlier one lacks, each piece with the ids whose declarations it meets; the earlier one is credited with an id iff it carries the whole range or the id's whole declaration |
| RangeCuts.CutByPrior | src/graph/agent.rs:795-830 | the same for all pending pieces at once |
| Coalesce.CutByPriors | src/graph/agent.rs:793-834 | what remains of an entry is exactly what no earlier entry of its file carries; an earlier entry gains exactly the ids of those runs still uncovered at its turn that it carries whole, or that it meets while having the whole declaration |
| Accounting.HolderIsCredited | src/graph/agent.rs:807-829 | a piece that has the whole declaration of an id is credited with it whenever a request of its file asks for the id at a declared line |
| LostDeclaration.SplitDeclarationIsLost | src/graph/agent.rs:738-859 | a run of coalescing on three admissions: two answers have the declaration between them, a later body asks for it; all its lines go out and no excerpt of the file is credited with it |
| Coalesce.KeepFirst | src/graph/agent.rs:791-846 | lines are kept once, where they were first asked for; the entries kept are exactly the pieces of the requests, and each is credited with exactly the ids its piece stands for and those that later requests of its file credit it with |
| Coalesce.SettledCoalesces | src/graph/agent.rs:847-858 | the kept entries, sorted back and written out one range each, meet the contract of coalescing |
| Coalesce.CoalesceSourceAdmissions | src/graph/agent.rs:738-859 | no line of a file is in two admissions; the lines sent are exactly those asked for, with their file text, each in the first phase that asks for it; phases stay sorted; the excerpts are exactly the pieces of the merged requests, with exactly the ids, the atomic mark, the reason and the truncation mark these give them, in the order of the requests, which is that of the earliest excerpt merged into each, and those of one request from its first line on; so an id is credited wherever a declared line of it is sent in the phase it was asked for in or its whole declaration is sent |
| SendOrder.PlaceDecides | src/graph/agent.rs:763-859 | of two lines sent in one phase by different admissions, one precedes the other iff its request holds the earlier place, or it is the earlier line of the same request |
| SendOrder.LaterNeverFirst | src/graph/agent.rs:763-859 | no line precedes one that an admission of its phase asked for, unless that admission or an earlier one asked for part of the request that holds the line |
| SendOrder.LineMovesAhead | src/graph/agent.rs:763-859 | a run on three answers: a line that only the last asks for is merged into the first one and goes out before the file of the second |
| Accounting.CreditedNowhere | src/graph/agent.rs:791-846 | an id is credited nowhere in a file iff every merged request that asks for it does so in vain: no piece of it stands for the id and no earlier piece earns it |
| Accounting.LosesWhen | src/graph/agent.rs:791-846 | a request asks in vain iff something of it had gone out already, every declared line of it had, and no piece that had gone out has the whole declaration or the whole of a run that still stood for the id |
| ScopePlan.PrioritizeSourceAdmissions | src/graph/agent.rs:492-734 | the admissions send exactly the planned lines, show file text and are sorted by phase; they emit exactly the lanes of the file plans, whose excerpts come in primary order, reservations first and then stage by stage |
| PlannedIds.AskedIds | src/graph/agent.rs:492-734 | an admission made from a file's plan asks for an id iff an excerpt put forward carries it or a run that is left of a range stands for it |
| PlannedIds.LanesInOrder | src/graph/agent.rs:571-734 | each answer, direct answer and anchor sends the excerpt at its place in the lane's listing; a file's fairness excerpt is the first one put among its anchors |
| PlannedIds.DroppedIds | src/graph/agent.rs:492-734 | prioritising drops an id iff no excerpt put forward carries it and of every range that does, something was put forward and so was every declared line of the id |
| PlannedIds.RequestsMeet | src/graph/agent.rs:492-790 | when planned ranges have a line of every id they carry, so do the admissions and the requests merged from them |
| ScopePlan.EmittedIsPlanned | src/graph/agent.rs:492-734 | a line is sent iff it is planned, through reservations and waves |
| ScopePlan.FirstAnchorsFirst | src/graph/agent.rs:709-722 | every file's first anchor precedes any file's second |
| ScopePlan.ReservedIsAnswered | src/graph/agent.rs:588-600 | the line of a reserved declaration that a range carries is asked for as an answer |
| ScopePlan.SentAsAnswer | src/graph/agent.rs:736-859 | coalescing never moves a line asked for as an answer to a later phase |
| ScopePlan.PlanAdmissions | src/graph/agent.rs:1376-1380 | prioritising and coalescing together: every planned line once, with its text, phase-sorted and in each phase by priority, reserved declarations among the answers, ids asked for and ids credited told exactly |
| DroppedDeclaration.DroppedDeclarationIsLost | src/graph/agent.rs:492-859 | a run of both stages on one planned range: two reserved declarations answered whole have all lines of a third between them; its lines go out and no excerpt is credited with it |
| Estimate.EstimateTokens | src/graph/protocol.rs:154-157 | the smallest number of tokens whose four-character capacity holds the serialized record |
| JsonForm.EstimateCountsJson | src/graph/protocol.rs:154-157 | the characters counted for a record are those of its compact JSON, string escapes included, and the estimate is a quarter of them, rounded up |
| Estimate.NestedWindowChars | src/graph/protocol.rs:154-157 | a window inside a larger one serializes to at least two characters fewer for each line it lacks |
| Budget.BudgetLedger.Available | src/graph/protocol.rs:186-206 | the room left decides what fits: a non-empty record fits iff it is no larger |
| Budget.BudgetLedger.TryAdd | src/graph/protocol.rs:191-198 | adds the tokens iff they fit, else only marks the ledger |
| Budget.WindowsNest | src/graph/agent.rs:862-890 | windows of growing size are nested in each other and in the range, and end early iff they drop lines |
| Budget.WindowIsPlaced | src/graph/agent.rs:862-890 | a window has exactly the lines asked for, from the middle of a query, call or text hit (one more line dropped behind than in front at most), else from the start; its ids and reason are the range's |
| Budget.WindowShows | src/graph/agent.rs:862-890 | a window keeps the file's text and numbers |
| Budget.WindowCostMonotone | src/graph/agent.rs:862-890 | a larger window never costs less, although its start number may have fewer digits |
| Budget.FitSourceRange | src/graph/agent.rs:862-890 | the binary search returns the largest window that fits share and ledger, and none iff no single line fits |
| Budget.FateWithinRoom | src/graph/agent.rs:916-946 | one range never costs more than its room, and a trimmed one is the largest window that fits |
| Budget.FateIs | src/graph/agent.rs:916-946 | a range goes whole iff it fits; a complete, untruncated declaration of at most 160 lines is never cut, and any other waits only when no window of it fits |
| Budget.AdmitOne | src/graph/agent.rs:916-946 | one range ends whole, trimmed or deferred as specified, and the ledger counts what was sent |
| Budget.AdmitOneByOne | src/graph/agent.rs:914-947 | the loop over mutable room and ledger computes the one-by-one specification |
| Budget.AdmitSourceWithinShare | src/graph/agent.rs:902-948 | together if they fit, all or nothing when atomic, else one by one; ledger and dropped mark accordingly |
| Budget.OneByOneGuarantees | src/graph/agent.rs:914-947 | tokens are those of the records and within the room; no line is invented and, unless trimmed is set, none is lost |
| Budget.AdmitGuarantees | src/graph/agent.rs:902-948 | the same for every admission, and an atomic one is all or nothing |
| Shrinking.PrefixFitsDown | src/graph/agent.rs:128-180 | a longer whole-line prefix of a record never costs less |
| Shrinking.LongestPrefix | src/graph/agent.rs:155-179 | the search finds the longest whole-line prefix that fits |
| Shrinking.FitSource | src/graph/agent.rs:128-180 | the whole record, else the most leading ranges that fit, else the longest fitting prefix of the first, else nothing |
| Shrinking.PrefixShows | src/graph/agent.rs:153-178 | a kept prefix shows the file's text iff none of its lines, the excerpt's last one aside, ends in a carriage return |
| Shrinking.ShrunkShows | src/graph/agent.rs:128-180 | whatever is left of a record shows its file's text, in every room, iff no line of its first excerpt but the last ends in a carriage return |
| Shrinking.DoubledReturnIsLost | src/graph/agent.rs:153-178 | an excerpt whose first line ends in CR CR LF, in a room that takes just that line: the line comes out with a carriage return less |
| Emission.OneRangeAttempted | src/graph/agent.rs:902-948 | an attempt on a one-range admission sends one record of it, with file text and within the room, or leaves it untouched; it is marked trimmed iff a line is left out |
| Rooms.AttemptTells | src/graph/agent.rs:902-948 | an attempt sends the whole admission when it fits; else, when it may be cut, the largest window that fits; and nothing only when not even one line does |
| Emission.TryNow | src/graph/agent.rs:1385-1408 | first try within the share; a complete answer gets a second one that leaves the flow reserve alone; together they send what one try in the larger room would |
| Emission.FirstPass | src/graph/agent.rs:1381-1416 | in its turn every admission is sent as large as share and ledger allow, held back because an answer waits, or missed for want of room; while an answer waits nothing of a lower phase has been sent; the flow reserve is intact; when everything fits whole nothing waits |
| Emission.AnswerPass | src/graph/agent.rs:1417-1429 | waiting complete answers are sent whole, in order, when they fit above the flow reserve, or given up with the truncated mark; the others are kept in order; the flow reserve stays intact |
| Emission.ReserveFlows | src/graph/agent.rs:1367-1375 | the reserve is that of the longest run of leading flows within the share, and of the first one in any case |
| Emission.FlowPass | src/graph/agent.rs:1430-1439 | each flow is taken iff it fits what the ledger and the flows before it leave, and a missing one marks truncation |
| Emission.OrdinaryPass | src/graph/agent.rs:1440-1447 | what still waits is sent, in order, as large as the ledger allows, or marks truncation when nothing of it fits |
| Emission.OnceRecorded | src/graph/agent.rs:1381-1447 | over all passes no line is in two records, every record shows its file's text, and only admitted lines go out |
| Emission.AllRecorded | src/graph/agent.rs:1381-1447 | when every admission was sent whole, every admitted line is in a record |
| PassRuns.MissingIsTooLarge | src/graph/agent.rs:1440-1447 | an admission that is no complete answer and has no record costs more, whole, than what is left in the end, and so does a single line of one that may be cut |
| PassRuns.MissingAnswer | src/graph/agent.rs:1381-1429 | a complete answer without a record costs more than was left above the flow reserve at its last try, with only answers out |
| Emission.MissingLine | src/graph/agent.rs:1381-1447 | an admission without a record leaves out a line that no other record has |
| Emission.EmitSource | src/graph/agent.rs:1358-1447 | all passes: lines once, tokens exactly accounted and within the limit, answers ahead of lower phases; every record is whole or the largest window its room allows; an admission without a record costs more than the ledger has left at the end, a complete answer more than was left above the flow reserve when it was last tried and only answers were out; the result is truncated iff an admitted line or a flow is missing, and it is not when the whole admissions fit the share and, with the flows, the ledger |
| ScopeRun.ScopeSource | src/graph/agent.rs:1358-1447 | planning and emission together: records carry planned lines only, each once, with file text; the result is truncated iff a planned line or a flow is missing, and it is not when the pieces planned, sent whole, fit the share and, with the flows, the ledger; lines asked for as answers, reserved declarations among them, are in records ahead of all other lines; every piece has a record as large as its room allows, or costs more than was left; each record carries exactly the ids its whole piece of the merged requests is credited with |
| ScopeRun.UnshownIds | src/graph/agent.rs:862-890 | when requests have a line of what they ask for, as they do when planned ranges have, a record carries an id without a declared line iff its piece is credited with the id and the record was trimmed of every declared line of it |
| Accounting.CreditMeets | src/graph/agent.rs:791-846 | when requests have a line of what they ask for, a piece meets the declaration of every id it is credited with |
| ByteOrder.LessTotal | src/cozo/sled_store.rs:193-219 | byte order is total |
| ByteOrder.LessTransitive | src/cozo/sled_store.rs:193-219 | byte order is transitive |
| ByteOrder.LessIsLexicographic | src/cozo/sled_store.rs:193-219 | one key is less than another iff it is a proper prefix of it, or smaller at the first byte in which they differ |
| SortedEntries.RangeIsHalfOpen | src/cozo/sled_store.rs:193-219 | a range takes its lower bound and leaves its upper one out |
| SortedEntries.Range | src/cozo/sled_store.rs:193-219 | a range of a map as its ascending listing |
| SortedEntries.ListingUnique | src/cozo/sled_store.rs:193-219 | a map has one ascending listing of a range |
| Overlays.MergeAscends | src/cozo/sled_store.rs:258-287 | merging two ascending cursors ascends strictly, so nothing comes twice |
| Overlays.MergeIsVisible | src/cozo/sled_store.rs:258-287 | the merge yields an entry iff it is a buffered put, or persisted and untouched |
| Overlays.MergeListsOverlay | src/cozo/sled_store.rs:193-287 | merging the listings of changes and data lists exactly the overlay in range |
| SledStore.SledDb.ScrubEmptyTombstones | src/cozo/sled_store.rs:45-62 | removes exactly the empty values, and only the first time |
| SledStore.MergedIter.FillCache | src/cozo/sled_store.rs:246-256 | filling a cache consumes nothing, and an empty cache means an exhausted cursor |
| SledStore.MergedIter.Next | src/cozo/sled_store.rs:258-295 | yields the first of what is left and leaves the rest; ends for good; terminates by unconsumed and cached entries |
| SledStore.Collect | src/cozo/sled_store.rs:238-295 | draining the iterator yields what it had left |
| SledStore.SledTx.Get | src/cozo/sled_store.rs:110-116 | reads the overlay |
| SledStore.SledTx.Exists | src/cozo/sled_store.rs:145-151 | says whether the overlay has the key |
| SledStore.SledTx.Put | src/cozo/sled_store.rs:118-121 | sets one key of the view, and nothing persisted |
| SledStore.SledTx.Del | src/cozo/sled_store.rs:127-131 | removes one key of the view, and nothing persisted |
| SledStore.SledTx.Commit | src/cozo/sled_store.rs:153-166 | the persisted data becomes the view; no read of the transaction changes |
| SledStore.SledTx.RangeScan | src/cozo/sled_store.rs:193-219 | exactly the visible entries in range, strictly ascending |
| SledStore.SledTx.RangeCount | src/cozo/sled_store.rs:221-226 | the number of visible keys in range |
| SledStore.ListingCounts | src/cozo/sled_store.rs:221-226 | a listing is as long as the range has keys |
| SledStore.SledTx.TotalScan | src/cozo/sled_store.rs:228-236 | lists every visible key iff none begins with byte 255 |
| SledStore.TotalScanMisses | src/cozo/sled_store.rs:228-236 | a stored key that the total scan never lists |
| SledStore.SledTx.DelRangeFromPersisted | src/cozo/sled_store.rs:133-143 | in range the view becomes exactly the buffered puts, outside it is unchanged |
| SledStore.BatchPut | src/cozo/sled_store.rs:88-99 | all rows with later ones winning, or none |
| SledRuns.Replay | src/cozo/sled_store.rs:88-166 | any run of interleaved transactions and bulk loads, made on the engine's own objects, leaves the data and the buffers that are told from the steps alone |
| SledRuns.BufferedIsLastTouch | src/cozo/sled_store.rs:110-131 | a transaction has buffered, key by key, its last put or deletion since it began or last committed, and nothing else |
| SledRuns.PersistedIsLastWrite | src/cozo/sled_store.rs:88-166 | after any run a key holds what the last commit, range deletion or load that wrote it left there, or what it held at first |
| SledRuns.CommittedIsPersisted | src/cozo/sled_store.rs:110-166 | a put or deletion that stands when its transaction commits is persisted until another step writes the key |
| SledRuns.ReadsOwnElsePersisted | src/cozo/sled_store.rs:102-166 | after any run a transaction reads its own standing write of a key, or else what the last step that wrote the key persisted |
| SledRuns.BufferingLeavesNoTrace | src/cozo/sled_store.rs:102-131 | a transaction that neither commits nor deletes a range leaves the data and every other buffer as if it had never been |
| SledRuns.CommitPublishes | src/cozo/sled_store.rs:153-166 | at the end of any run, committing changes nothing the transaction sees, makes that the data, and shows it to every other transaction save for keys that one has standing writes of |
| SledRuns.DelRangeLeavesPuts | src/cozo/sled_store.rs:133-143 | after a range deletion at the end of any run its transaction sees in the range its own standing puts only, and outside it what it saw before; every other one loses just the keys of the range that the deleting one saw and it has no standing writes of |
| PrepareFiles.StepKeeps | src/graph/build.rs:256-288 | every atomic step of every worker keeps it that each claimed index is held by exactly one worker or stored exactly once |
| PrepareFiles.RunKeeps | src/graph/build.rs:256-288 | so does every interleaving; without cancellation nobody stops before the corpus is exhausted |
| PrepareFiles.StepProgress | src/graph/build.rs:262-286 | every step of a running worker makes progress, so every schedule ends |
| PrepareFiles.Assemble | src/graph/build.rs:289-292 | storing by index restores corpus order |
| PrepareFiles.FilterMapKeepsOrder | src/graph/build.rs:289-292 | what is kept is the prepared form of every file that could be read, each once, in corpus order |
| PrepareFiles.PrepareAll | src/graph/build.rs:242-293 | any schedule gives the sequential filter-map over a prefix of the corpus, the whole corpus when not cancelled |
| ExtractionCache.CachedDataIsExtraction | src/graph/build.rs:191-195 | a valid cache hit is the extraction of the content asked about |
| ExtractionCache.StampShortcutExact | src/graph/build.rs:196-210 | a file taken by time stamp and size is fresh iff its recorded hash is that of its content |
| CacheLaws.CacheIsUsed | src/graph/build.rs:185-237 | a file is prepared iff its stamp is known or it can be read; its extraction is the cached one iff the stamp is known or this version extracted the same content before |
| CacheLaws.NothingToDo | src/graph/maintenance.rs:801-863 | a refresh of readable files finds nothing to do iff the graph has each of them as it is now, extracted by this version, and no other file |
| ExtractionCache.PreparedIsFresh | src/graph/build.rs:185-237 | with honest stamps every prepared file carries the hash and extraction of a fresh read |
| ExtractionCache.GraphDb.WriteGraph | src/graph/build.rs:528-604 | stores payload, file record and index of each file; payloads are those from before router mounts rewrite the extraction |
| ExtractionCache.WrittenOk | src/graph/build.rs:557-604 | a graph written from fresh files has an honest cache and honest file records |
| ExtractionCache.RunKeeps | src/graph/maintenance.rs:795-900 | the cache and the records stay honest over any sequence of full, incremental and cancelled builds |
| ExtractionCache.CacheIsTransparent | src/graph/build.rs:185-237 | over any sequence of builds what is prepared is what fresh reads would give |
| ExtractionCache.RunConsistent | src/graph/build.rs:578-604 | the live index is always what the live cache's extractions index to, mounts included |
| ExtractionCache.SamePrepared | src/graph/build.rs:185-237 | two honest graphs that recover the same unreadable files prepare a corpus alike, up to where the data came from |
| ExtractionCache.UnchangedIsWritten | src/graph/maintenance.rs:801-863 | a refresh that finds nothing to do leaves what writing again would leave |
| ExtractionCache.RefreshIsRebuild | src/graph/maintenance.rs:795-900 | after any sequence of builds, a refresh leaves the same index and cache as a rebuild from scratch, whether or not it found work to do, iff it recovers no unreadable file of the corpus by its time stamp (or is itself full or cancelled) |
| ExtractionCache.UnreadableFileStays | src/graph/build.rs:196-210 | one file indexed, then unreadable: the refresh keeps it and a rebuild drops it |
| EdgeWriter.KeyIsIdentity | src/graph/build.rs:440-450 | two edges share a key iff they are the same fact: per call site for call edges, per pair otherwise, for every kind name and position |
| EdgeWriter.RecursionIsWritten | src/graph/build.rs:426-466 | a call of a declaration to itself is written, any other self reference is not |
| EdgeWriter.CallsCountBySite | src/graph/build.rs:440-450 | two calls between the same declarations are two facts iff their call sites differ |
| EdgeWriter.RowsAreDistinct | src/graph/build.rs:426-466 | no two rows say the same fact, and the only self loops are calls |
| EdgeWriter.EveryFactIsWritten | src/graph/build.rs:426-466 | when the database takes every row the facts written are exactly the facts offered |
| EdgeWriter.Writer.Insert | src/graph/build.rs:426-466 | the seen keys, the rows, the total and the count per kind follow the offers made so far |
| CozoStore.PutRowsBatched | src/cozo/engine.rs:577-585 | batches of at most 2000 concatenate to the rows, and writing them is writing the rows in order |
| CozoStore.RemoveBatched | src/cozo/engine.rs:577-585 | removal in batches of at most 2000 removes exactly the keys |
| CozoMirror.CozoEngine.constructor | src/cozo/engine.rs:260-269 | opening any valid database with any embedder completes the schema and keeps the rows of current relations |
| CozoMirror.CozoEngine.EnsureRelation | src/cozo/engine.rs:414-435 | an existing relation keeps rows and space, one without a record is recorded as hashed 128-dim, a new one gets the active space |
| CozoMirror.CozoEngine.EnsureSchema | src/cozo/engine.rs:394-438 | completes the schema, drops only old layouts, and keeps every relation in its recorded space |
| CozoMirror.CozoEngine.EnsureVectorSpace | src/cozo/engine.rs:443-462 | afterwards the space is the active one; recreated iff it was not, and then empty; other relations untouched |
| CozoMirror.SyncNodes | src/cozo/engine.rs:599-783 | the node rows mirror the table, unchanged rows keep their embedding, changed ones are embedded afresh; nothing is written iff they mirrored it already; the count is that of the ids |
| SqliteTables.JoinedFileIs | src/cozo/engine.rs:790-792 | with distinct node ids the file joined to an edge is that of the node with its source id, and empty when there is none |
| CozoMirror.SyncEdges | src/cozo/engine.rs:784-841 | the edge rows mirror the table, each with the file of the node with its source id, or none when there is no such node; nothing is written iff they did already; the count is that of the edge keys |
| CozoMirror.CozoEngine.WriteGraphRows | src/cozo/engine.rs:599-841 | both diffs in a relation of the active space, with both counts |
| CozoMirror.CozoEngine.SyncFromGraph | src/cozo/engine.rs:593-841 | node keys, compared columns and edges equal the projection, each edge with the file of its source node, and the counts are theirs; after a change of embedder everything is embedded again; a graph never built changes no row of the active space and counts nothing |
| CozoMirror.SyncEntities | src/cozo/engine.rs:846-905 | the wiki rows are exactly the listed entities, first entry of an id winning, with their columns and their text embedded in the active space, and counted |
| CozoMirror.CozoEngine.SyncFromWiki | src/cozo/engine.rs:846-905 | the same for the relation, leaving the code relation alone; a wiki never built keeps the rows of the active space and counts nothing |
| CozoMirror.CozoEngine.VectorSearch | src/cozo/engine.rs:929-945 | refused iff the recorded space is not the active one; else every compared vector is of the active space |
| CozoMirror.Replay | src/cozo/engine.rs:255-485 | over any sequence of openings with any embedders, schema upgrades, syncs and searches, no search ever compares vectors of two spaces |
| CozoMirror.SyncTwice | src/cozo/engine.rs:587-841 | an immediate second sync writes and removes nothing, and a search then is not refused |
| EmbeddingRuns.SyncIsReload | src/cozo/engine.rs:587-783 | after any run of syncs, with any embedders, the node rows are those of a full reload iff every node has the text it had at the last sync that embedded it |
| EmbeddingRuns.RowsEmbed | src/cozo/engine.rs:587-783 | after any run of syncs a row is the node as the sync that embedded it saw it, told from the graphs and embedders alone |
| EmbeddingRuns.EmbeddedByMeans | src/cozo/engine.rs:587-783 | every sync after the one that embedded a row kept the node: same embedder, same compared columns |
| EmbeddingRuns.SecondSyncIsReload | src/cozo/engine.rs:587-783 | for two syncs in one space: iff every node of both graphs with the same columns has the same text |
| EmbeddingRuns.EditedTextStaysStale | src/cozo/engine.rs:587-783 | two graphs that differ in one docstring: the incremental sync keeps the old vector |
| EmbeddingRuns.ReplaySyncs | src/cozo/engine.rs:260-783 | the run made with engines on a real database leaves exactly those rows |
| Lexer.NormalizedTokens | src/graph/fingerprint.rs:64-131 | the index loop computes the token stream |
| Lexer.NextLexeme | src/graph/fingerprint.rs:64-131 | one turn of the loop reads one lexeme, whatever the position |
| TokenLaws.StringIsOneToken | src/graph/fingerprint.rs:94-106 | a quoted string is one and the same token, whatever it holds |
| TokenLaws.NumberIsOneToken | src/graph/fingerprint.rs:107-113 | a number is one and the same token, whatever its digits |
| TokenLaws.WordIsOneToken | src/graph/fingerprint.rs:114-126 | a keyword is its own token, and any other word the one token for identifiers |
| TokenLaws.LineCommentIsNothing | src/graph/fingerprint.rs:74-79 | a line comment leaves no token |
| TokenLaws.BlockCommentIsNothing | src/graph/fingerprint.rs:80-87 | a block comment leaves no token |
| TokenLaws.HashCommentIsNothing | src/graph/fingerprint.rs:88-93 | a hash comment leaves no token, unless it opens an attribute or an interpreter line |
| TokenLaws.SignIsItself | src/graph/fingerprint.rs:127-128 | any other character is its own token |
| Lexer.RespellingKeepsTokens | src/graph/fingerprint.rs:62-131 | respelling the non-keyword identifiers of any body, strings and comments copied, keeps the token stream iff every identifier right behind a number keeps a `$`; otherwise there are fewer tokens, never more |
| Lexer.EveryRespellingKeepsTokens | src/graph/fingerprint.rs:62-131 | a body keeps its tokens under every respelling iff no identifier with a `$` stands right behind a number |
| Lexer.DollarBehindNumber | src/graph/fingerprint.rs:62-131 | the body `1$` and a renaming of identifiers to identifiers that turns its number and identifier into one number |
| MinHash.TrigramsAreWindows | src/graph/fingerprint.rs:161-169 | the key set is that of all windows of three neighbouring tokens, and empty for fewer than three |
| MinHash.TrigramKeyTells | src/graph/fingerprint.rs:161-176 | the key of a window of three tokens without null characters tells all three, in order |
| MinHash.SketchUnique | src/graph/fingerprint.rs:161-183 | a set of keys has one sketch |
| MinHash.OfTokens | src/graph/fingerprint.rs:161-183 | the de-duplicating loop computes the pointwise minimum over the key set |
| MinHash.SketchOfUnion | src/graph/fingerprint.rs:161-183 | the sketch of a union is the pointwise minimum of the sketches |
| MinHash.RespellingKeepsSketch | src/graph/fingerprint.rs:157-207 | a respelled body has the same sketch, token count included, iff every identifier right behind a number keeps a `$`; then it has the same buckets |
| MinHash.OneRowPerBand | src/graph/fingerprint.rs:41-44 | pigeonhole: without an agreeing band at most one row of each band is equal |
| MinHash.BandBytesTell | src/graph/fingerprint.rs:194-207 | the bytes hashed for a band tell the band and each of its rows |
| MinHash.BucketsTellBands | src/graph/fingerprint.rs:194-207 | two sketches share a bucket of a band iff they agree in all its rows, as long as hashes do not collide |
| MinHash.CloseSketchesShareABucket | src/graph/fingerprint.rs:186-207 | two full sketches of similarity above one half share a bucket of some band |
| MinHash.HalfIsNotEnough | src/graph/fingerprint.rs:186-207 | at exactly one half they need not: two sketches that agree in no band |
| MinHash.BlobRoundTrip | src/graph/fingerprint.rs:209-221 | a stored sketch reads back as itself |
| MinHash.BlobPrefix | src/graph/fingerprint.rs:209-221 | reading drops at most the bytes behind the last whole word |
| BodyText.NormalizeBody | src/graph/fingerprint.rs:10-25 | the whitespace loop and the trim give the body's words with single blanks between them |
| BodyText.WordsOfJoin | src/graph/fingerprint.rs:10-25 | normalising again changes nothing: the words of the normalised text are the words |
| BodyText.SameTextIffSameWords | src/graph/fingerprint.rs:10-25 | two bodies normalise alike iff they have the same words |
| ManagedBlock.FoundOccur | src/managed_block.rs:101-103 | the greedy search finds occurrences, from the left, without overlap |
| ManagedBlock.OccursIsFound | src/managed_block.rs:101-103 | every occurrence is found or begins inside one that is |
| ManagedBlock.FoundAloneIsOnly | src/managed_block.rs:101-114 | a single greedy match of a newline-free marker alone on its line is its only occurrence, overlapping ones included |
| ManagedBlock.DetectEol | src/managed_block.rs:92-99 | CRLF iff the text has one anywhere |
| ManagedBlock.BlockIsReplaced | src/managed_block.rs:160-181 | only the bytes between the markers are replaced, a no-op iff they are already right, a conflict iff too large |
| ManagedBlock.UnmarkedIsAppended | src/managed_block.rs:133-158 | without markers: known legacy files are replaced, pointing files left alone, all others kept whole in front of the block |
| ManagedBlock.ConflictsExactly | src/managed_block.rs:126-171 | an edit is refused iff the file is no text, or has markers but not exactly one well-formed block of allowed size |
| EditLaws.FileDecidesAction | src/managed_block.rs:116-182 | what a file holds decides the action: created iff there is none, migrated iff it is a known old body without markers, left alone iff it needs no block or has the right one, refused iff it is no text or has markers that are not one small well-formed block |
| EditLaws.FileDecidesReason | src/managed_block.rs:116-186 | and the reason: no text, markers that make up no block, or a block that is too large; a refused or settled file stays as it is |
| EditLaws.AbsentIsCreated | src/managed_block.rs:116-125 | a file that is not there becomes the block alone, on lines of its own |
| ManagedBlock.PlantedIsOneBlock | src/managed_block.rs:150-173 | a block put between unmarked texts on lines of its own is the one block of the result |
| ManagedBlock.ReplanSettles | src/managed_block.rs:116-182 | planning again on the written file is a no-op iff the file was not LF text ending in a bare CR that got a block appended; a third planning always is |
| ManagedBlock.BareCrIsRewritten | src/managed_block.rs:147-158 | the shortest file that is edited twice |
| ManagedBlock.OutsideSurvives | src/managed_block.rs:116-182 | over any run of edits by any versions of the block, every byte before and after it survives |
| ManagedBlock.JoinedLinesSettle | src/skills.rs:101-119 | blocks of plain lines between their markers, as the callers render them, meet the assumptions of the two results above |
| Skills.WritesOnlyOwned | src/skills.rs:208-288 | a plan that writes over a directory takes away every file there and only files that carry the recorded hash or a known old body |
| Skills.FreshIsUnchanged | src/skills.rs:208-314 | a directory as a release installs it is unchanged for that release, and an update for one with other files |
| Skills.PlaceDecidesPlan | src/skills.rs:208-288 | what stands in a place decides its plan: created iff nothing does; unchanged iff the record is intact and the files are those packaged; updated iff the record is intact or there is a lone known old body; and each conflict code under its own condition |
| Skills.SyncInstalls | src/skills.rs:408-450 | a sync leaves the skill as the release installs it iff nothing of the user's is in the way, or it may be moved aside and is a file or directory; and reports what it found |
| Skills.ReportsTell | src/skills.rs:408-559 | each chosen client's skills and instruction file are reported, and each report tells what stood there |
| Skills.Project.WriteSkill | src/skills.rs:290-314 | the removed files are gone, the packaged ones and the ownership record are there, everything else stays |
| Skills.Project.SyncOne | src/skills.rs:425-450 | writes a fresh install unless unchanged, in conflict or a dry run; a backed-up directory goes to the backups whole; a missing or owned skill ends as installed, and the report tells which it was |
| Skills.Project.SyncClient | src/skills.rs:408-450 | the same for every skill of a client, and no other place |
| Skills.Project.SyncAgentAssets | src/skills.rs:400-559 | a dry run changes nothing and reports the same; every chosen client's missing or owned skill ends as this release installs it; a directory changes only if nothing in it is the user's or it is in the backups; instruction files change as the block editor plans; each skill and file is reported with what stood there |
| Skills.SyncedKeepsUserFiles | src/skills.rs:416-450 | a sync changes a directory only if all of it is owned, or it is moved aside |
| SkillRuns.StepKeeps | src/skills.rs:208-314 | every hash in a record stays the hash of something a sync wrote, under user edits and syncs of any release |
| SkillRuns.UserFilesSurvive | src/skills.rs:208-450 | in any run a sync overwrites or deletes only bytes an earlier sync wrote to that path or an old version shipped, or the directory is in the backups |
| SkillRuns.SyncSettles | src/skills.rs:273-288 | a second sync of the same release changes nothing, and after a write it reports unchanged |
| Chunks.ChunkSource | src/graph/chunks.rs:111-137 | max(1, ceil((n-20)/60)) windows of the right lines, each indexing its own lines and comments; the early exit is dead |
| Chunks.CommentsAreComments | src/graph/chunks.rs:111-137 | the comment text of a window is made of its comment lines, all of them and no others, in order |
| Chunks.WindowsAscendAndMeet | src/graph/chunks.rs:111-137 | windows ascend without gaps from line 1 to the last line |
| Chunks.ShortSpansAreWhole | src/graph/chunks.rs:9-10 | any 21 consecutive lines lie inside one window |
| Chunks.LongerSpansAreCut | src/graph/chunks.rs:9-10 | 22 lines need not |
| Chunks.AtMostTwice | src/graph/chunks.rs:111-137 | no line is in more than two windows |

## Left out

- Storage engines and query languages: Sled, Cozo (vector index, PageRank, paths) and SQLite appear as maps and relations with the operations used; nothing is said about approximate search recall.
- Crashes in the middle of an operation, file-system races, symlinks inside a walk, permissions and I/O errors: each file write and each store operation is one atomic step.
- Machine integers: line numbers, token counts and sizes are unbounded; sketch words are 32-bit.
- Hash functions, embeddings, tree-sitter extraction, symbol resolution and JSON text are parameters; absence of collisions and reversible serialization are assumed only where a `requires` says so.
- How candidates are selected and scored, how `plan_file_source` picks ranges, and the records that are not source (facts, status, summary): the planner starts from the planned ranges.
- JSON text: the compact form of a source record is modelled for its length (`JsonForm`); parsing it back is not.
- Lazy iteration: a scan takes its two cursors from the data at the moment it starts, and nothing writes while it runs.
- Progress bars, timing and the abort-after-N-files hook of `prepare_files`.
- Publishing a candidate graph: the swap of the finished graph is one step; deltas between graphs are not modelled.
- Identifier and term splitting in src/graph/chunks.rs: windows are indexed by a given term function, since the splitting would only add easier members.
- The text of reports, warnings and resolutions in src/skills.rs, and the check for ignored paths.
- Drift scores, timeline filters, configuration merging, hooks, command line, terminal and network front ends.
- Emission.EmitSource: expects admissions of one range each, which is what coalescing hands it (Coalesce.CoalesceSourceAdmissions); more ranges in one admission are covered by Budget.AdmitSourceWithinShare alone.
- SkillRuns.UserFilesSurvive: the user does not forge ownership records; one who writes a matching record over own bytes has declared them Knobyte's, and a sync treats them so.
- ExtractionCache.CacheIsTransparent: router mounts are a function from the extractions of the whole build, so their own composition is not modelled.
- ManagedBlock.ReplanSettles: markers are non-empty and free of line breaks and the rendered block is within its size limit, as for every caller; other specifications get ManagedBlock.BlockIsReplaced and ManagedBlock.UnmarkedIsAppended only.
- BodyText.NormalizeBody: the SHA-256 of the normalised text is not computed.
