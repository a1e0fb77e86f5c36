# Verified model of the Qwertycoin explorer core

A Dafny model of the parts of the explorer whose correctness is hardest to see by reading: the
reorganisation-aware supply index, the Mustache renderer, the RandomX cache and dataset locking, anchored
pagination, the anchored EPoSE snapshot and its browser side, and the exact-amount arithmetic. Every method is
proved equal to a function or to the property the source promises; the theorems are lemmas about those functions.
`dafny verify dfyconfig.toml` checks the whole project.

| file | models |
|---|---|
| `Basics.dfy`, `Text.dfy`, `Decimal.dfy` | machine integers, splitting into fields and lines, decimal text |
| `Chain.dfy` | the block database as a schedule: the chain each successive read sees |
| `SupplyMath.dfy`, `SupplyPass.dfy`, `SupplyIndex.dfy` | records with 128-bit totals, one pass as a function of what it reads, the object that runs it |
| `Checkpoint.dfy` | checkpoint text, and how it reaches the disk |
| `SupplyTheorems.dfy`, `SupplyCompleteness.dfy`, `SupplyCrash.dfy` | what every run publishes; when `complete` is right and how soon it comes; what a crash resumes from |
| `MustacheNodes.dfy`, `Mustache.dfy`, `MustacheRenderer.dfy` | name lookup, the streaming section machine against a tree semantics, the mutable renderer |
| `MustacheTemplate.dfy`, `MustacheStrip.dfy` | tokenizing, standalone lines, the path from text to output |
| `MustacheText.dfy`, `MustacheForms.dfy` | tokenizing what is printed, what the tags of a template text print |
| `RandomX.dfy`, `RandomXDataset.dfy`, `RandomXProof.dfy`, `RandomXTheorems.dfy` | the locking protocol as interleaved steps, its invariant, safety and progress |
| `Pagination.dfy` | page bounds and anchored block pages |
| `Epose.dfy`, `EposeBrowser.dfy` | anchor capture, the cached snapshot, the verdicts of the browser script |
| `RewardView.dfy`, `ExactAmount.dfy`, `WalletGateway.dfy` | reward decomposition, decimal formatting, gateway admission and retry |

## Assumptions

- A block id determines the block (parent, coinbase total, fees), no two instants disagree about that, and every
  canonical chain is hash-linked. Ids are non-empty and hold no tab or newline, as hex text does.
- `get_block_id_by_height` answers with the all-zero hash above the tip; a short text stands for it.
- A world gives, for every read in turn, the chain at that instant and whether the read fails. All results are for
  every world, so the chain may be replaced between any two reads.
- `rename()` replaces the directory entry at once; a crash may undo it until the directory is synced, and may
  leave anything in a file that was not synced.
- What RandomX code reads without a lock is an arbitrary value, except that an allocated pointer is never seen
  before it is set. `me_rx_set_miner_thread` is called only once a main seed exists.

## What turned out not to hold as stated

- `complete` compares tips read at two moments. `SupplyCompleteness.AbaDefeatsComplete` is a schedule on which it is
  published for the wrong chain, and on `GrowthDefeatsComplete` a block arrives between the last count and the last
  tip read. On every schedule the records are the chain at the last tip read exactly when the two published hashes
  agree and that chain still has the published number of blocks; equal hashes alone make them its first blocks, and
  suffice when that count and tip were read from one chain (`CompleteIsCanonicalIffHashesAgree`). With rising work
  and unsplit (count, tip) reads it is always right (`CompleteIsCanonical`).
- `persist` reports success when the directory could not be synced. After such a pass a crash can start over from
  nothing (`SupplyCrash.UnsyncedRenameLosesRecords`). In every run, a crash resumes only from the old or the new
  records if and only if the file that an unsynced rename may bring back still holds the records in memory, which
  once there are records means that the last rename reached the disk (`CrashIsSafeIffRenameSynced`); runs that always
  sync the directory never leave that condition (`SyncedRunsStaySettled`, `CrashResumesOldOrNew`).
- `json_transactions` compares the requested anchor once and then reads the tip again, so a switch between the two
  reads makes an anchored page succeed with another chain (`Pagination.AnchorCheckAloneIsNotEnough`). Provided
  that the block taken for the tip is not removed and restored within the page, an answer is right if and only if it
  echoes the anchor (`AnchoredAnswerIff`), so a client that compares the echo is safe then (`AnchoredWalkCoversChain`).
  Without that proviso the echo does not help (`EchoIsNotEnoughWhenRestored`).
- `capture_epose_chain_anchor` can return an anchor no instant had when each of its four reads sees another chain
  (`Epose.CaptureCanBeUntrue`). It had the anchor at one of the four instants exactly when one of the tip reads saw
  the count or one of the count reads saw the tip (`CaptureIsTrueIff`), as when two adjacent reads see one chain
  (`CaptureIsTrue`).
- Splitting a dotted name at its last dot means resolving it from left to right, on every context stack, exactly when
  the name is not `.` and does not begin with two dots (`MustacheNodes.LeftToRightIff`).
- A chain reset id with a tab or newline makes every restart discard the checkpoint
  (`Checkpoint.RoundTripIffCleanResetId`).

## Model

| member | source | states |
|---|---|---|
| SupplyTheorems.EveryRunPublishesExactTotals | src/SupplyIndex.cpp:238-420 | in every run, with reorganisations between any two reads, failed passes, restarts and crashes inside a checkpoint, the published coinbase, fee and minted totals are the sums over the hash-linked chain of the records in memory, ending at the published hash (the initial snapshot states nothing indexed), and every file on disk is a whole own checkpoint |
| SupplyTheorems.EveryTurnReportsItsRecords | src/SupplyIndex.cpp:343-420 | after every turn of every run, complete or not, failed or not, the snapshot is the issuance of exactly the records in memory with the count and tip last read; "error" means exactly that the pass failed, which keeps the records |
| SupplyTheorems.TurnReports | src/SupplyIndex.cpp:343-420 | the same for one turn over any faithful records |
| SupplyTheorems.ForeignChainIsRefused | src/SupplyIndex.cpp:307-317 | a pass over an empty chain or another genesis changes neither records nor checkpoint and publishes an error |
| SupplyTheorems.StartRunsIff | src/SupplyIndex.cpp:65-113 | the index runs exactly with a reset id and a genesis block, on what the state file gives, and publishes an error otherwise |
| SupplyTheorems.StepKeepsInv | src/SupplyIndex.cpp:398-420 | a pass, a restart or a crash keeps that invariant |
| SupplyTheorems.ReadRecordIsFaithful | src/SupplyIndex.cpp:238-303 | a record that survives the reads of read_record describes the block its hash names and extends the index, whatever the chain did between the reads |
| SupplyTheorems.PublishedDescribes | src/SupplyIndex.cpp:366-396 | the decimal strings of a snapshot are the issuance over the linked chain of the records, minted being coinbase minus fees |
| SupplyTheorems.StartEstablishesInv | src/SupplyIndex.cpp:65-113 | starting from any own checkpoint, or none, gives faithful records |
| SupplyCrash.CrashResumesOldOrNew | src/SupplyIndex.cpp:131-236 | in every run whose successful passes sync the directory, first installation included, a crash after any step of a pass with any loss the disk allows resumes, under the same genesis, from the whole records of before the pass or the ones it had persisted (for a reset id without tab or newline, else the restart discards them) |
| SupplyCrash.CrashIsSafeIffRenameSynced | src/SupplyIndex.cpp:224-235 | in every run, whether synced or not, no crash resumes from anything else if and only if the durable file still gives the records in memory; with records present, if and only if it is the state file |
| SupplyCrash.UnsyncedRenameLosesRecords | src/SupplyIndex.cpp:229-235 | a pass that succeeds without the directory sync, followed by a crash, starts over from no records |
| SupplyCrash.EveryRunMirrors | src/SupplyIndex.cpp:131-236 | after every run of an index whose reset id reads back, the records in memory are what load would read from the state file |
| SupplyCrash.EveryRunStoresItsRecords | src/SupplyIndex.cpp:187-236 | and when there are any, that file is exactly the text persist writes for them |
| SupplyCrash.SyncedRunsStaySettled | src/SupplyIndex.cpp:229-235 | runs without an unsynced success never hold a rename a crash could undo |
| SupplyCrash.CrashOutcome | src/SupplyIndex.cpp:187-236 | exactly which records each step and each loss leave |
| SupplyCompleteness.CompleteIsCanonicalIffHashesAgree | src/SupplyIndex.cpp:343-363 | on every schedule, the records of a complete snapshot are the chain at the last tip read if and only if its two published hashes agree and that chain has the published number of blocks; they are its first blocks if and only if the hashes agree |
| SupplyCompleteness.GrowthDefeatsComplete | src/SupplyIndex.cpp:352-356 | a block that arrives between the last count and the last tip read leaves a complete snapshot one block short |
| SupplyCompleteness.CompleteIsCanonical | src/SupplyIndex.cpp:307-363 | with strictly rising work and unsplit (count, tip) reads a complete snapshot is block for block the canonical chain and ends at its tip |
| SupplyCompleteness.CompleteIsCanonicalInEveryRun | src/SupplyIndex.cpp:305-420 | the same after any run of passes, restarts and crashes |
| SupplyCompleteness.AbaDefeatsComplete | src/SupplyIndex.cpp:352-356 | an explicit A-B-A schedule publishes complete for the wrong chain |
| SupplyCompleteness.QuietPass | src/SupplyIndex.cpp:305-364 | on a stable chain a pass keeps the longest common prefix, adds one batch, and is complete exactly when it reaches the tip |
| SupplyCompleteness.StableChainIsIndexed | src/SupplyIndex.cpp:325-363 | from any reached state the snapshot is complete from pass max(1, ceil((n - common prefix) / batch)) on and not before |
| SupplyMath.AppendFailsOnlyOnLink | src/supply_math.h:49-67 | from any accumulated list append fails only on a bad link, an empty hash or fees above coinbase; the 128-bit sums cannot overflow; minted stays coinbase minus fees |
| SupplyMath.AppendRecord | src/supply_math.h:49-67 | the guarded in-place append computes that function and leaves the list alone on failure |
| SupplyMath.CheckedAdd | src/supply_math.h:28-37 | succeeds exactly when the sum fits in 128 bits |
| SupplyMath.MintedDelta | src/supply_math.h:39-47 | succeeds exactly when fees do not exceed coinbase, and then balances |
| SupplyMath.CumulativeIsIssuance | src/supply_math.h:49-67 | running totals are the block-by-block sums over the linked chain of hashes |
| SupplyMath.RollbackLeavesCommonPrefix | src/supply_math.h:69-82 | looking only at the last record leaves exactly the longest common prefix with a chain that stays put |
| SupplyMath.RollbackRecords | src/supply_math.h:69-82 | the popping loop, reading the chain at a new instant each time, is that function |
| SupplyPass.FeeTotalIsSum | src/SupplyIndex.cpp:276-286 | the guarded fee loop gives the exact sum or refuses one that does not fit |
| SupplyIndexObject.SupplyIndex.FetchRecord | src/SupplyIndex.cpp:238-303 | read_record, read by read |
| SupplyIndexObject.SupplyIndex.PrepareBatch | src/SupplyIndex.cpp:307-348 | observation, rollback, batch and recheck, read by read |
| SupplyIndexObject.SupplyIndex.Update | src/SupplyIndex.cpp:305-364 | update_once changes records, disk and snapshot exactly as the pass function says; a failed pass changes only the disk and the clock |
| SupplyIndexObject.SupplyIndex.Persist | src/SupplyIndex.cpp:187-236 | write, sync, rename, sync directory, stopping after any step |
| SupplyIndexObject.SupplyIndex.Publish | src/SupplyIndex.cpp:366-396 | the new snapshot, built field by field, states the issuance over the chain of any blocks the records describe faithfully |
| SupplyIndexObject.SupplyIndex.Open | src/SupplyIndex.cpp:65-113 | constructor and start: genesis, refusal without configuration, load |
| SupplyIndexObject.SupplyIndex.Loop | src/SupplyIndex.cpp:398-420 | the background loop, publishing an error over the old records after a failed pass |
| Checkpoint.LoadAfterPersist | src/SupplyIndex.cpp:131-214 | load returns exactly the records persist wrote, empty genesis parent included, when the header binding agrees, and rejects otherwise |
| Checkpoint.RoundTripIffCleanResetId | src/SupplyIndex.cpp:140-145 | the round trip holds if and only if the reset id has no tab or newline |
| Checkpoint.AcceptedTextAccumulates | src/SupplyIndex.cpp:147-184 | any text load accepts gives consecutive heights, parent links and exact prefix sums |
| Checkpoint.CrashLeavesOldOrNew | src/SupplyIndex.cpp:187-236 | after a crash at any step the state file is the whole old or the whole new checkpoint, and the new one reads back |
| Checkpoint.ParsePrint | src/SupplyIndex.cpp:36-53 | both number parsers read back what is printed |
| Checkpoint.RowLayout | src/SupplyIndex.cpp:197-207 | the order of the nine fields of a row |
| Checkpoint.SignedNumbersParse | src/SupplyIndex.cpp:36-53 | spaces and a plus sign are skipped, a minus sign negates modulo 2^64 |
| Checkpoint.Load | src/SupplyIndex.cpp:131-185 | the line loop of load |
| Checkpoint.Format | src/SupplyIndex.cpp:197-207 | the writing loop of persist |
| Text.SplitTabs | src/SupplyIndex.cpp:21-34 | the find loop gives all fields between tabs |
| Mustache.StreamMeansTree | ext/mstch/src/render_context.cpp:53-65 | feeding a well-named forest token by token, whatever follows, prints the recursive tree meaning and returns to the outer state |
| Mustache.BalancedTokensMeanTree | ext/mstch/src/state/in_section.cpp:13-34 | every balanced token sequence is a tree whose meaning the streaming renderer prints |
| Mustache.ForestIsCollected | ext/mstch/src/state/in_section.cpp:26-33 | inside a section a forest is collected verbatim and the skipped-openings counter comes back |
| Mustache.SectionIsRendered | ext/mstch/src/state/in_section.cpp:14-25 | a section prints what its collected body prints, at the tag that closes it and not before |
| Mustache.ItemsMeanEach | ext/mstch/src/visitor/render_section.hpp:39-48 | an array section renders the body once per item, in order, pushing nested arrays whole |
| MustacheNodes.LeftToRightIff | ext/mstch/src/render_context.cpp:35-47 | splitting at the last dot means resolving the parts from left to right on every stack, if and only if the name is not a lone dot and does not begin with two |
| MustacheNodes.TwoDotsLookUpTheFirst | ext/mstch/src/render_context.cpp:35-47 | what a name that begins with two dots means instead |
| MustacheNodes.FindByName | ext/mstch/src/render_context.cpp:35-51 | the recursive lookup with its loop over the context stack |
| MustacheNodes.InnermostWins | ext/mstch/src/render_context.cpp:9-51 | a name without a dot means the entry of the innermost map that has it |
| MustacheNodes.UnboundIsNull | ext/mstch/src/render_context.cpp:40-51 | and nothing when no map has it |
| MustacheNodes.EmptyIff | ext/mstch/src/visitor/is_node_empty.hpp:9-39 | the nodes that count as empty, a 64-bit zero not among them |
| MustacheText.TokenizeAfterPrint | ext/mstch/src/template_type.cpp:30-69 | tokenizing the text of any printed tokens gives those tokens back, with the end mark behind a final tag |
| MustacheForms.TemplateMeansTree | ext/mstch/src/mstch.cpp:10-20 | the text of a tree without standalone lines renders to the tree's meaning |
| MustacheForms.SectionPrints | ext/mstch/src/token.cpp:8-42 | text between a # tag and its / tag is printed exactly when the entry is not empty, once per item of an array |
| MustacheForms.InvertedPrints | ext/mstch/src/token.cpp:8-42 | between a ^ tag and its / tag it is printed exactly when the entry is empty |
| MustacheForms.BlankBodyVanishes | ext/mstch/src/template_type.cpp:71-97 | a section alone on its line with only white space inside prints nothing |
| MustacheForms.MapEntryPrints | ext/mstch/src/visitor/render_section.hpp:24-31 | in a section over a map a variable prints the map's own entry, or the outer one when it has none |
| MustacheForms.ItemEntriesPrint | ext/mstch/src/visitor/render_section.hpp:39-48 | in a section over an array of maps it prints each item's own entry, in order |
| MustacheForms.VariablePrints | ext/mstch/src/visitor/render_node.hpp:14-68 | two braces print a string escaped, three or an ampersand raw; what each other kind of node prints |
| MustacheForms.CommentPrintsNothing | ext/mstch/src/token.cpp:8-42 | a comment prints nothing |
| MustacheRenderer.RenderContext.Render | ext/mstch/src/render_context.cpp:53-65 | the token loop prints the streamed text and leaves contexts and outer states as they were; it terminates because collected sections are shorter |
| MustacheRenderer.RenderContext.RenderToken | ext/mstch/src/state/outside_section.cpp:9-32 | one token in the top state |
| MustacheRenderer.RenderContext.RenderSection | ext/mstch/src/state/in_section.cpp:15-25 | which body is rendered for which node |
| MustacheRenderer.RenderContext.RenderItems | ext/mstch/src/visitor/render_section.hpp:39-48 | the item loop |
| MustacheRenderer.RenderContext.RenderPushed | ext/mstch/src/render_context.cpp:9-25 | a pushed context and state are popped again |
| MustacheTemplate.TokenizingIsLossless | ext/mstch/src/template_type.cpp:19-69 | the raw tokens concatenate to the template |
| MustacheTemplate.NextTagIsFirst | ext/mstch/src/template_type.cpp:34-47 | a tag runs from the first opening to the first closing delimiter behind it, with the third brace when there is one |
| MustacheTemplate.NextTagExists | ext/mstch/src/template_type.cpp:34-39 | an opening followed by a closing delimiter is never treated as text to the end |
| MustacheTemplate.SigilTagReadsBack | ext/mstch/src/token.cpp:18-42 | kind from the table of sigils, name without the spaces around it |
| MustacheTemplate.Tokenize | ext/mstch/src/template_type.cpp:30-69 | the cursor loop |
| MustacheTemplate.ProcessText | ext/mstch/src/template_type.cpp:19-28 | text is cut after each newline |
| MustacheStrip.StripWhitespace | ext/mstch/src/template_type.cpp:71-97 | erasing in place removes blank text exactly on terminated lines that hold only tags otherwise |
| MustacheStrip.StorePrefixes | ext/mstch/src/template_type.cpp:99-104 | a partial on such a line remembers the blank text before it |
| MustacheStrip.EraseBlank | ext/mstch/src/template_type.cpp:87-90 | the erasing loop of one line |
| MustacheStrip.StripLineIsExact | ext/mstch/src/template_type.cpp:83-91 | of a standalone line only the tags stay; any other line is unchanged |
| MustacheStrip.StripKeepsTheRest | ext/mstch/src/template_type.cpp:71-97 | every token that is not blank text stays, in order |
| MustacheStrip.RenderText | ext/mstch/src/mstch.cpp:10-20 | from template text to output: the meaning of the stripped template's tree when it is balanced |
| RandomXTheorems.EveryHashUsesItsSeed | src/crypto/rx-slow-hash.c:339-493 | in every interleaving a calculation in progress uses a dataset or cache wholly initialised for its call's seed, through a machine bound to it, and each returned call calculated exactly one result |
| RandomXTheorems.CallKeepsItsSeed | src/crypto/rx-slow-hash.c:396-476 | a hash call never changes the seed it works for |
| RandomXTheorems.SeedChangeTakesEffect | src/crypto/rx-slow-hash.c:339-375 | in every interleaving, when a seed change returns, by either exit, the main seed is its own and the cache and any dataset are wholly initialised for it |
| RandomXTheorems.CallsWorkForTheirSeed | src/crypto/rx-slow-hash.c:377-476 | calls begin with the seed they were given and a seed change keeps it |
| RandomXTheorems.DatasetIsAllocated | src/crypto/rx-slow-hash.c:358-493 | a seed change or miner start allocates a missing dataset when memory allows, and no step takes it away |
| RandomXTheorems.MainSeedUsesDataset | src/crypto/rx-slow-hash.c:396-414 | a hash of the main seed that gets the lock calculates on the dataset and changes nothing shared |
| RandomXTheorems.MainSeedUsesMainCache | src/crypto/rx-slow-hash.c:415-424 | without the dataset it calculates on the main cache |
| RandomXTheorems.SameSeedKeepsSecondaryCache | src/crypto/rx-slow-hash.c:432-476 | a hash of the secondary seed uses the secondary cache as it is |
| RandomXTheorems.OtherSeedTakesSecondaryCache | src/crypto/rx-slow-hash.c:432-476 | a hash of any other seed initialises the secondary cache for its own |
| RandomXTheorems.NoDeadlock | src/crypto/rx-slow-hash.c:339-493 | whenever a call is in progress some call can step |
| RandomXTheorems.StepsAreBounded | src/crypto/rx-slow-hash.c:396-476 | every step brings its call nearer its end |
| RandomXTheorems.EveryCallCanReturn | src/crypto/rx-slow-hash.c:339-493 | from every reachable state all calls in progress can finish within the sum of their ranks |
| RandomXProof.RunKeepsInv | src/crypto/rx-slow-hash.c:339-493 | the lock, memory and counter invariant holds after every run |
| RandomXProof.OtherThreadKeepsOk | src/crypto/rx-slow-hash.c:404-423 | what a thread learned under its lock survives any step of another thread |
| RandomXProof.FillerSeesSeed | src/crypto/rx-slow-hash.c:366-371 | the dataset is filled from a cache ready for the main seed although the cache lock is released in between |
| RandomXDataset.SlicesTile | src/crypto/rx-slow-hash.c:295-313 | every dataset item belongs to exactly one thread's slice |
| RandomXDataset.PlanSlices | src/crypto/rx-slow-hash.c:295-313 | the loop that plans the slices |
| Pagination.AnchoredWalkCoversChain | src/page.h:5168-5289 | pages 0 to (count-1)/limit with one echoed anchor, not removed and restored within a page, hold every block of the anchored chain exactly once, top down, under growth and reorganisation |
| Pagination.AnchoredAnswerIff | src/page.h:5168-5289 | with that proviso an anchored success is the anchored chain's page if and only if it echoes the anchor, and its rows are that chain's if and only if the block on top of the page was |
| Pagination.LiveAnswerIsPage | src/page.h:5149-5289 | a success without an anchor is page p of the chain its tip was read from, cut to the live count, unless that tip was removed and restored within the page |
| Pagination.LiveAnswerOnStillChain | src/page.h:5149-5289 | on a chain that holds, without failed reads, page p is served exactly when it has at most 5000 transactions, and then it is that page |
| Pagination.AnchoredAnswerOnStillChain | src/page.h:5149-5289 | and with an anchor exactly when the anchored chain is also the start of the canonical one |
| Pagination.ServedPageIsSlice | src/page.h:5182-5288 | a served page is its range of the linked chain that ends at the tip it reports, unless that tip was removed and restored within the page |
| Pagination.AnchorCheckAloneIsNotEnough | src/page.h:5170-5183 | a valid schedule on which an anchored request answers with another chain and its tip |
| Pagination.EchoIsNotEnoughWhenRestored | src/page.h:5182-5288 | a valid schedule on which the anchored block is removed and restored and the answer echoes it over the rows of another chain |
| Pagination.PagesTile | src/pagination.h:26-35 | consecutive page ranges meet and together cover the chain |
| Pagination.ParseBounds | src/pagination.h:47-62 | a parsed limit is in range and the offset is page times limit without wrap-around |
| Pagination.ReadRows | src/page.h:5190-5260 | the block loop with its transaction budget |
| Pagination.ServePage | src/page.h:5182-5288 | tip, rows, recheck, read by read |
| Epose.CaptureIsTrueIff | src/page.h:6066-6091 | a captured anchor is the count and tip of an instant of the capture if and only if a tip read saw the count or a count read saw the tip |
| Epose.CaptureIsTrue | src/page.h:6066-6091 | so it is if two adjacent reads saw one chain |
| Epose.CaptureOnStillChain | src/page.h:6066-6091 | on a chain that holds a capture gives its count and tip |
| Epose.FateIff | src/page.h:6126-6160 | an attempt is answered exactly when three captures give one anchor, every answer is present, the rewards are for that count and the qualified set is consistent; it is refused exactly when an answer is missing or the set is inconsistent under a held anchor; else it is retried |
| Epose.StillChainIsAnswered | src/page.h:6126-6511 | on a chain that holds, a complete and consistent attempt is answered with the chain's count and tip |
| Epose.SnapshotService.Try | src/page.h:6126-6511 | one attempt has exactly that fate |
| Epose.CaptureCanBeUntrue | src/page.h:6066-6091 | on a valid schedule it is an anchor no instant had |
| Epose.SnapshotService.Snapshot | src/page.h:6101-6511 | a cached reply is returned exactly when it is young and, if a success, its anchor is captured again; otherwise the fates of at most two attempts decide between success and failure; every success carries an anchor captured unchanged by this call's last reads, and a fresh one holds one attempt's answers with every node marked by membership in a consistent qualified set |
| Epose.CheckQualifiedSet | src/page.h:6162-6176 | accepts exactly sets of the announced size whose keys are distinct and canonical, and collects them |
| Epose.MarkNodes | src/page.h:6260-6330 | every node of the list once, in order, marked by membership in the set |
| Epose.SnapshotService.CaptureAnchor | src/page.h:6066-6091 | the four reads |
| EposeBrowser.CurrentIffSameAnchor | src/templates/assets/epose-status.js:34-94 | info and node sections are combined exactly when their snapshots share anchor and epoch in representable numbers |
| EposeBrowser.RewardsIffSourceEpoch | src/templates/assets/epose-status.js:78-93 | the reward section joins exactly when anchor, height and source epoch fit |
| EposeBrowser.VerdictNeedsMatchingSections | src/templates/assets/epose-status.js:96-177 | for any payloads, a verdict other than unavailable implies matching anchors and epochs, a final negative one a closed qualification |
| EposeBrowser.BrowserShowsCoreVerdict | src/templates/assets/epose-status.js:96-177 | for every node of a snapshot the browser shows exactly what the core said of it, for the current epoch and for the reward source epoch |
| RewardView.MakeView | src/epose_reward_view.h:52-150 | accepts exactly when identities, formats and all conservation equations hold over unbounded integers |
| RewardView.CheckAmounts | src/epose_reward_view.h:71-99 | the guarded amount checks are exactly the conservation equations |
| RewardView.SumOutputs | src/epose_reward_view.h:101-114 | the output loop accepts exactly distinct, in-range, well-formed outputs whose sum fits |
| RewardView.ViewAgreesWithSupply | src/epose_reward_view.h:83-98 | coinbase minus fees, as the supply index computes it, is the issued subsidy |
| ExactAmount.FormatDecimalString | src/exact_amount.h:23-37 | editing the digit string gives the same text as dividing by 10^places, for every digit string |
| ExactAmount.PointIsDivision | src/exact_amount.h:11-37 | the two formatters agree for every amount and number of places |
| ExactAmount.AmountReadsBack | src/exact_amount.h:11-21 | whole part and fraction of the text, with exactly that many places, read back as the amount |
| ExactAmount.UnitsArePowers | src/hashrate.h:33-49 | each unit of the table stands for the power of 1000 its divisor uses |
| ExactAmount.PickUnit | src/hashrate.h:39-46 | products stay within 128 bits and the ratio is in [1, 1000) except at the ends |
| ExactAmount.FormatHashrate | src/hashrate.h:33-49 | prints the floored ratio in that unit |
| WalletGateway.AdmissionIsBounded | main.cpp:626-639 | in every interleaving at most 16 requests are admitted and the counter is admitted plus rejecting |
| WalletGateway.AdmittedIffRoom | main.cpp:626-639 | in every interleaving a request is admitted exactly when fewer than 16 are admitted or being turned away, and gives its place back |
| WalletGateway.HttpClient.InvokeWithReconnect | src/rpccalls.h:85-102 | a submission is sent at most once, a read at most twice; a client that can connect does send, a failed read is tried again, a success is the last request sent, and failure, after every attempt, disconnects |

## Left out

- The LMDB database, block and transaction hashing and fee extraction: a chain of ids with amounts stands for them.
- Text of error messages, timestamps, the data-directory check and `tip_height` of the supply snapshot.
- Mustache partials (none are registered, so a partial prints nothing), lambdas, object nodes and delimiter changes; the escape function is a parameter.
- Tags whose name the source takes from crossed iterators, such as a lone sigil followed by spaces: undefined there, so the tokenizer of this model refuses them.
- What a template with mis-nested sections prints: the renderer is modelled on every token sequence, but the tree semantics exists only for balanced ones.
- Text of leading-zero totals in a checkpoint: how the big-integer library reads them is a parameter, since persist never writes them.
- RandomX flags and virtual machine internals; hashing is a function of the seed the memory was initialised for. Fairness of the locks is not modelled, only that some call can always move.
- Epose.SnapshotService.Snapshot: does not model endpoint lookup and telemetry, nor the members of a node that no verdict uses; the block ids telemetry reads between the captures only move the later reads to later instants, and every schedule is covered.
- ExactAmount.PickUnit: does not model `decimal_ratio` for other numbers of places than the three it is called with.
- The sort order of service nodes, the allowlist of JSON-RPC methods, HTTP routes and page rendering.
- Object identity: vectors that the source edits in place are sequences held by fields or local variables.
