# A verified model of the review harness

The harness reviews changes to a large C code base: it reads diffs, walks a call graph, simulates
pack calls, packs context for a reader with a token budget, and posts the comments that result.
This project states in Dafny what its protocols, diff readers, searches and simulators do, and
proves what they promise. `dafny verify dfyconfig.toml` checks all of it.

What a line of text, a tree of statements or an answer of a server is, is given to the models as
data: the network, git, the file system, clocks and regular expressions are inputs, and every
theorem is about all inputs.

## The parts

- **CommentKeys** — which comments the server and the run take for the same: one path, and one text up
  to CR LF and outer blanks.
- **Strings** — stripping blanks from both ends of a text.
- **PostReview** — posting comments. A submission may be accepted, rejected, lost (created at
  once, late, or never) or the process may be killed; a lost answer is confirmed by reading, never
  sent again. `Server` is the code; `RunOnce` is what one run does. Over any sequence of runs no
  (path, body) key is stored twice exactly when every run is about to post only new, distinct keys;
  that is so when its first read shows everything that is stored or will still land.
- **Worktree** — one checkout shared by processes under a file lock, with a marker, adoption of
  clean checkouts and clean-up of half-made ones, as interleaved small steps with crashes; `Host`
  is the same as straight code for one process. A killed process, or one whose `sh` times out, may
  leave its git command running, and processes of other revisions, under other locks, may prune.
  A prune sees that an entry is stale first and deletes it later. The promise holds exactly when an
  unmarked, unfinished checkout never has a clean status, which the code states itself, no git
  command outlives its process, and no other revision's process prunes meanwhile. git reports
  success of `worktree add` only when it is done.
- **PackLayout, PackChain, PackFix** — the simulator of aligned pack calls, its layout arithmetic and
  the size it proposes.
- **PackChainFound** — what the simulator does not miss: which declarations it judges, exactly when it
  gives a buffer up or ends its chain, and that any other overflow is reported.
- **PackFlow, PackChainSound, PackChainText, PackChainCases** — the simulator against what the lines
  do on every way that control can take, loops included. A way is any pass along a graph of control
  that respects the text: a line without a branch or jump runs the next one. A sweep along the
  loosest such graph, which the text alone gives, finds exactly the places a cursor can have; the
  ranges that the line-by-line scan records are the bytes touched exactly when it finds no other
  place. It finds none when no line that moves a cursor of the buffer can be gone around and no
  assignment escapes the patterns; then a reported overflow is real.
- **StripNoise, StripMeaning** — blanking comments and string literals, character by character, in
  place; and that of every text, cut into comments, literals and other characters, exactly the
  contents of the first two are blanked.
- **DiffScript, DiffText** — edit scripts, and the unified diff (POSIX.1-2017 `diff`, "Diff -u or
  -U Output Format") that shows a script. A removed line whose text begins with `-- ` and an added
  line whose text begins with `++ ` look like file headers; the tags keep that.
- **MapLine, BaseLine, DiffAdded** — the five readers of diffs against that one meaning.
- **CodeGraph, Reachability** — resolving calls by name, and the bounded breadth-first search.
- **ContextPack, PackBatches, BatchIndex** — the budget cut, the split of an oversized pack by
  function, and the grouping of the batches by main file.
- **ErrorPath, ErrorPathWays** — the walk behind a reported error, against the control flow of straight C
  code: each verdict is given exactly when the way that control takes ends as the verdict says.
- **LogicOracle** — the three-way partition of rows and the recombination of aggregates.
- **Annotate, MonthWindows** — planting notes from the bottom up, and monthly search windows.
- **Collections** — options, results and facts about sequences.

## Where the code does not do what it is for

Each of these is a lemma that gives the exact condition under which the code is right.

- `PostReview.CleanMeansPresentIff`: after a first read that misses a stored comment, a lost group can
  be confirmed by that comment's key although it was never created, and its other comments vanish
  from the report. With a negative cap a run reports success and posts nothing
  (`PostReview.CompleteListIff`); with a cap of zero it raises.
- `BaseLine.ExactIff`: `_base_line` answers wrongly around hunks that show no line of one side, and
  behind a removed line that begins with `-- ` (an SQL comment), which it takes for a file header
  and does not count (`BaseLine.SkippedCommentMisleads`). An added line that begins with `++ ` makes
  it leave the file (`BaseLine.PlusesMislead`).
- `DiffAdded.FoundExactIff`: an added line that begins with `++ ` makes every reader of added lines
  miss it (`DiffAdded.PlusesMislead`) and leave the file; if such lines lead away and back again,
  `_added` reports numbers that `diff_lines` does not allow (`DiffAdded.ReentryMisleads`).
  `parse_unified_diff` counts "\ No newline at end of file" as a line, so giving a file its missing
  last newline makes it report the wrong line (`DiffAdded.MarkMisleads`).
- `PackChainText.TextExactIff`: the simulator reports overflows that do not happen, against the
  code's aim of no false findings: when a tracked cursor is reassigned by a copy from an untracked
  one (`PackChainCases.StaleFindingIsFalse`), when a copy under an `if` is gone around
  (`PackChainCases.SkippedCopyIsFalse`), and when an `if` and its `else` pack on neighbouring lines
  (`PackChainCases.BranchedCallsAreFalse`).
- `Worktree.SafeIff`: a `git worktree remove`, `add` or `prune` that goes on after its process was
  killed deletes a checkout that another process has returned since
  (`Worktree.SurvivingRemoveDeletes`); a prune by a process of another revision does so without any
  crash (`Worktree.ForeignPruneDeletes`).
- `PackBatches.NothingOwnedNothingSent`: an oversized pack whose sections are all shared yields no
  batch at all.
- `LogicOracle.WrongPartHiddenIff`: one wrong sum, minimum or maximum goes unseen exactly when the
  other parts hide it.
- `MonthWindows.FinalDayIff`: the final day is not searched when it is the first of a month.

## Model

| member | source | states |
|---|---|---|
| PostReview.BatchesByFile | tools/harness/post_review.py:163-171 | the loops over comments, files and chunks give the groups of the specification, including the error for a cap of zero and the empty result for a negative one |
| PostReview.GroupsRearrange | tools/harness/post_review.py:163-171 | with a cap of at least one the groups are a permutation of the comments, one path each, 1 to cap long and, but for the last of a file, cap long, every file's order kept, file after file |
| PostReview.PathsByFirstUse | tools/harness/post_review.py:163-171 | a file comes before another exactly as a comment on it comes first |
| PostReview.BatchesLosslessIff | tools/harness/post_review.py:163-171 | the groups hold exactly the comments if and only if there are none or the cap is positive |
| PostReview.Server.ConfirmCreated | tools/harness/post_review.py:188-196 | at most three reads, and three if none shows any of the group; the result is the number of the group's comments that the last read shows, all earlier ones showing none, while a lost review may land before or after any read |
| PostReview.Server.PostInline | tools/harness/post_review.py:199-237 | store and report of one run, for every script of answers, crashes included |
| PostReview.AcceptedRunAdds | tools/harness/post_review.py:199-237 | a run that reads what is stored and gets every submission accepted adds every comment of which none with the same path and text is stored, as often as it is given, and nothing else |
| PostReview.UnreadableRun | tools/harness/post_review.py:202-203 | a run whose first read fails stores nothing, reports an error and leaves all comments |
| PostReview.OnceIff | tools/harness/post_review.py:147-160 | no key is stored twice exactly if no two stored comments have the same path and text |
| PostReview.OneRunAtMostOnceIff | tools/harness/post_review.py:199-237 | one run keeps every key at most once under every script exactly when its pending comments have distinct keys none of which is stored |
| PostReview.RunsStoreAtMostOnceIff | tools/harness/post_review.py:147-237 | over any sequence of runs, with any first reads, no key is ever stored twice, whatever is lost, late or killed, if and only if every run is about to post distinct keys none of which is stored |
| PostReview.RunsStoreAtMostOnce | tools/harness/post_review.py:147-237 | that is so when every first read that works shows all keys stored then and each run's comments have distinct keys |
| PostReview.RunAccounts | tools/harness/post_review.py:199-237 | whatever the first read showed, every pending group is posted, refused or left over (the left ones are the last groups, from the first unconfirmed one on); if the pending comments have new and distinct keys, the store grows by exactly the posted groups and perhaps, late, the first one left, and every comment that was not skipped wrongly is stored, refused or left over |
| PostReview.CleanMeansPresentIff | tools/harness/post_review.py:188-237 | whatever the first read showed, empty error and remaining lists mean that a comment with its path and text is stored for every comment, for every script, exactly when every key not stored is pending in some group that no other key can confirm |
| PostReview.CompleteListIff | tools/harness/post_review.py:199-237 | with a complete first read and distinct keys that is so exactly when the cap is not negative or nothing is pending |
| PostReview.SecondRunCompletes | tools/harness/post_review.py:199-237 | the same command again, with every submission accepted, brings every comment to the server exactly once, after any first run whose first read missed nothing |
| CommentKeys.SameKeyIff | tools/harness/post_review.py:135-160 | two comments have one key exactly if their paths are equal and their bodies are, between blanks, the same lines, with CR LF or LF between |
| CommentKeys.PlainTextsDiffer | tools/harness/post_review.py:135-136 | for bodies without CR LF and outer blanks that means equal path and equal body |
| CommentKeys.OuterBlanksDoNotMatter | tools/harness/post_review.py:135-136 | blanks added around any body do not change the key |
| Strings.StripBare | tools/harness/post_review.py:135-136 | stripping leaves exactly what stands between the outer blanks |
| Strings.SpacesAre | tools/harness/post_review.py:135-136 | the blanks are the ten of ASCII that the strip of the original takes |
| CommentKeys.KeySurvivesLineEnds | tools/harness/post_review.py:135-160 | a comment given back with CR LF line ends has the key it was sent with |
| Worktree.AlwaysSafe | tools/harness/unitseam.py:77-121 | when git status is honest about unmarked checkouts, no git command outlives its process and no other revision's process prunes, for every interleaving and crash: a returned path is a finished and marked checkout, only finished checkouts are marked, at most one process is creating one |
| Worktree.ReturnedIsFrozen | tools/harness/unitseam.py:103-121 | then, once the path was returned, no later step of any process changes the files, and none is creating a checkout |
| Worktree.SafeIff | tools/harness/unitseam.py:41-121 | the promise holds of every run if and only if git status finds something in every unmarked, unfinished checkout with its administrative directory, no git worktree remove, add or prune outlives its killed process, and no process of another revision prunes |
| Worktree.SurvivingRemoveDeletes | tools/harness/unitseam.py:103-116 | otherwise a run in which one process is killed while it removes a half-made checkout, the next one returns a finished one, and the first command deletes it |
| Worktree.ForeignPruneDeletes | tools/harness/unitseam.py:103-116 | without any crash: a prune under another lock sees a stale entry, a checkout of that name is made and returned, and the prune deletes its entry |
| Worktree.Host.Ready | tools/harness/unitseam.py:87-100 | with an honest git status, ready exactly if the path is marked or is a finished checkout with a clean status, which is then marked; otherwise the files stay |
| Worktree.Host.CleanUp | tools/harness/unitseam.py:112-115 | of a checkout that is not ready the path is gone if git or the recursive deletion drops it, and so is every stale entry that git prunes |
| Worktree.Host.Worktree | tools/harness/unitseam.py:103-121 | a process that finds the lock free takes steps of the protocol only; on success the checkout is finished and marked, a marked one is left alone, and a half-made one is recovered whenever git succeeds |
| PackLayout.NeedBounds | tools/harness/or_buf.py:32-46 | the simulated need lies between the sum of the advances and that sum plus four bytes for each aligning packer |
| PackLayout.AlignedFirstIsBest | tools/harness/or_buf.py:32-46 | placing the aligning packers first needs exactly the sum, and no order of the same packers needs less |
| PackLayout.FixSize | tools/harness/or_buf.py:318-328 | the proposed size counts sixteen bytes for each aligning packer and the recorded width of every other |
| PackLayout.FixCovers | tools/harness/or_buf.py:318-328 | for fields packed in one go, the proposed size is their sum and eight bytes for each aligning packer, at least four of them to spare |
| PackFix.FixCoversChains | tools/harness/or_buf.py:318-328 | the proposed size covers the need of every chain that the scan returns, calls from copied cursors and with dropped results included, with at least four bytes to spare for each aligning call |
| StripNoise.StripText | tools/harness/or_buf.py:74-94 | the loop over the character array writes what the specification strips, also for comments and strings that do not end |
| StripMeaning.StripMeans | tools/harness/or_buf.py:74-94 | of every text cut into comments, literals and other characters, the comments are blanked with their marks, literals between their quotes except for escaped characters, line ends stay, and so does all else; at the end a comment or literal may be unfinished |
| StripMeaning.Lex | tools/harness/or_buf.py:74-94 | every text can be cut so |
| StripNoise.StripKeepsPlaces | tools/harness/or_buf.py:74-94 | length and line ends are kept, and every other character stays or becomes a blank |
| StripNoise.StripIdempotent | tools/harness/or_buf.py:74-94 | stripping twice is stripping once |
| PackChain.ScanBody | tools/harness/or_buf.py:137-248 | the loops over declarations, lines, starts and chains give the chains of the specification |
| PackChainFound.DeclsMean | tools/harness/or_buf.py:147-160 | the declared names are exactly those with a size, that of their last declaration, and not judged are exactly those declared with two sizes |
| PackChainFound.JudgedIff | tools/harness/or_buf.py:193-205 | a buffer has a chain exactly if it is the seed's, or some line starts to pack into it and it is declared, but not with two sizes |
| PackChainFound.GivenUpIff | tools/harness/or_buf.py:205-247 | a buffer is given up exactly if a line starts it again, or names it or a cursor in it in an unreadable pack line, a foreign call or beside a pack call of an unknown cursor, or a loop keyword, goto or label stands between its start and its last call |
| PackChainFound.EndedIff | tools/harness/or_buf.py:179-191 | a chain is ended exactly if a call into it has an unknown packer or another depth, or stands behind a branch |
| PackChainFound.OverflowIsReported | tools/harness/or_buf.py:137-248 | when the lines run in turn and a call writes past the size of a buffer, an overflow of it is reported on this line or before, unless the buffer is given up or its chain ended |
| PackFlow.PlacesSound | tools/harness/or_buf.py:137-248 | on no pass that goes forward does a cursor have a place that the sweep does not find |
| PackFlow.PlacesReached | tools/harness/or_buf.py:137-248 | every place that the sweep finds is had by the cursor on some pass |
| PackFlow.LastRound | tools/harness/or_buf.py:137-248 | however often control went back in a loop, its last round is a pass that goes forward with the same cursors, so the sweep covers loops too |
| PackFlow.AlwaysIff | tools/harness/or_buf.py:179-191 | every way to a line goes through another exactly when following the graph backwards says so |
| PackChainText.TextExactIff | tools/harness/or_buf.py:137-248 | the recorded ranges of a buffer are the bytes touched by every pass that makes the call, in every graph of control that respects the text, loops included, if and only if the sweep along the loosest graph of the text finds no other place for the cursor of a recorded call |
| PackChainText.SteadyExactIff | tools/harness/or_buf.py:137-248 | where no line of the text that makes a cursor follow the buffer can be gone around on the way to a recorded call, they are exactly when no recorded call starts from a stale cursor |
| PackChainText.UnbrokenExactIff | tools/harness/or_buf.py:137-248 | that is so when no line from the start to the last call of the buffer has a branch or jump |
| PackChainText.OverflowInTextIff | tools/harness/or_buf.py:179-191 | every pass that gets to the overflow line, in every graph that respects the text, writes past the declared size there, if and only if every place that the sweep along the loosest graph finds for its cursor leads past it |
| PackChainText.FindingIsReal | tools/harness/or_buf.py:137-248 | when the sweep along the loosest graph finds no other place, every pass that gets to the overflow line writes past the declared size there, and no recorded call on an earlier line ever writes past it |
| PackChainText.FindingIsRealInText | tools/harness/or_buf.py:137-248 | on a text whose cursors are assigned in the covered ways, with no branch or jump from the start of the buffer to its last call, whoever makes the first recorded call and leaves gets to the overflow line and writes past the declared size there, and no earlier recorded call does |
| PackChainSound.ChainsWellRecorded | tools/harness/or_buf.py:179-191 | the calls of a returned chain lie in one unbranched block, its need is the furthest end, its overflow line is the first call past the declared size |
| PackChainText.TogetherIff | tools/harness/or_buf.py:179-191 | a pass that makes one recorded call of a chain and leaves makes them all, in every graph that respects the text, if and only if no branch or jump lies between the first and the last recorded call, or there is only one |
| PackChainSound.OnlySeenMeansNoStaleSteps | tools/harness/or_buf.py:193-248 | no recorded call is stale when cursors are assigned only by a first start of a uniquely declared buffer, a pack call, a copy of a tracked cursor, or a line that the scan notices |
| PackChainText.UnpoisonedGoesForward | tools/harness/or_buf.py:244-247 | where control goes back only over a loop keyword, goto or label, a pass that stays between the start and the last call of a buffer that was not given up only goes forward |
| PackChainCases.StaleFindingIsFalse | tools/harness/or_buf.py:239-242 | a text on which the scan reports an overflow of a buffer that the pass does not write |
| PackChainCases.SkippedCopyIsFalse | tools/harness/or_buf.py:239-242 | a text with assignments of the covered kinds only, on which the scan reports an overflow of a buffer where a pass writes within another one |
| PackChainCases.BranchedCallsAreFalse | tools/harness/or_buf.py:179-191 | a text with calls under an if and its else, on which the scan reports an overflow and no pass writes past the size |
| DiffScript.ToNewKeepsText | tools/harness/source_facts_check.py:88-101 | a kept line has the same text under its old and its new number |
| DiffScript.ToNewIncreases | tools/harness/source_facts_check.py:88-101 | kept lines keep their order |
| DiffScript.NumbersAreInverse | tools/harness/source_facts_check.py:88-101 | an old line has a new number exactly if the new line has that old number |
| MapLine.Repo.MapLine | tools/harness/source_facts_check.py:75-101 | from cached or fresh hunks, every old line goes to its new number, or to None exactly if the script removes it |
| MapLine.FollowIsToNew | tools/harness/source_facts_check.py:88-101 | following a line through the hunks of the diff without context of a whole script gives the script's own number, and None exactly if the line is removed |
| BaseLine.FindBaseLine | tools/harness/static_lint.py:919-956 | the loop with its counters is the walk of the specification |
| BaseLine.ExactIff | tools/harness/static_lint.py:919-956 | in a whole diff of distinct files, every new line of a file gets its old number, and None exactly if added, if and only if no added line of the file looks like a header and, with the error of the counter followed through each hunk, no kept line or hunk end needs a counter that is off by then |
| BaseLine.RoomyIsExact | tools/harness/static_lint.py:919-956 | that holds when every hunk shows an old and a new line and no removed line looks like a header |
| BaseLine.AbsentFileUnmoved | tools/harness/static_lint.py:919-956 | a file that the diff does not name, not even in an added line that reads like its header, keeps its line numbers |
| BaseLine.MapsAreInverse | tools/harness/static_lint.py:919-956 | the two line maps are inverse to each other on the diffs without and with context of one script, when every hunk shows an old and a new line and no shown line looks like a header |
| BaseLine.SkippedCommentMisleads | tools/harness/static_lint.py:934-935 | a removed line beginning with two dashes and a blank shifts the answer for the kept line behind it |
| BaseLine.PlusesMislead | tools/harness/static_lint.py:928-933 | whenever an added line of a file begins with two pluses and a blank, some added line of the file is answered with an old number |
| DiffAdded.Added | tools/harness/static_lint.py:1059-1076 | the dictionary holds for each file the entries of the specification, and only files with entries |
| DiffAdded.ParseUnifiedDiff | tools/harness/context_pack.py:41-53 | the same for the line numbers of this reader |
| DiffAdded.DiffLines | tools/harness/post_review.py:54-72 | the sets of shown lines for exactly the files named, or the failure on a shown line before any hunk header |
| DiffAdded.FoundExactIff | tools/harness/context_pack.py:41-53 | over a whole diff each of the three readers reports exactly what it is meant to for a file, if and only if none of its added lines begins with two pluses and a blank and, for parse_unified_diff, no added line follows a no-newline mark in its hunk |
| DiffAdded.TruthIsAdded | tools/harness/static_lint.py:1059-1076 | what _added and parse_unified_diff are meant to report are the new lines without an old number, with their texts |
| DiffAdded.AddedLinesTakeComments | tools/harness/post_review.py:54-72 | every line that _added reports for a file is a line diff_lines allows a comment on, unless an added line reads like the header of that very file |
| DiffAdded.ReentryMisleads | tools/harness/post_review.py:54-72 | such a diff, on which _added reports line 1 and diff_lines allows line 2 only |
| DiffAdded.MarkMisleads | tools/harness/context_pack.py:49-52 | for a one-line file that gains its last newline parse_unified_diff reports line 2 instead of line 1 |
| DiffAdded.PlusesMislead | tools/harness/static_lint.py:1059-1076 | each reader misses at least as many entries of a file as it has added lines beginning with two pluses and a blank |
| CodeGraph.Store.Resolve | tools/harness/codegraph.py:288-302 | every call keeps its caller and name, and goes to the one function of that name in the caller's file, static or not, else to the one that all files see; otherwise it stays as it was |
| CodeGraph.TargetMeans | tools/harness/codegraph.py:288-302 | a call goes to the one function of that name in its file, else to the one that all files see, and otherwise stays unresolved |
| CodeGraph.SeenResolved | tools/harness/codegraph.py:320-321 | then the callees of a function are exactly where its calls go, and it has an unresolved call exactly if one goes nowhere |
| Reachability.PathsToGates | tools/harness/reachability.py:22-39 | the search ends; its paths are repeat-free call paths within the bound whose inner nodes are not gates, shortest to their gate, complete exactly if no node before the last has an unresolved call; one for each gate, nearest first; a gate in reach is missing only if the list is full and nothing farther is in it |
| Reachability.ReasonIs | tools/harness/reachability.py:19-32 | the reason of a path is the wanted kinds among the facts of its last function, and a function is a gate exactly if there are any |
| Reachability.Covered | tools/harness/reachability.py:22-39 | at every moment a legal path is matched by a queued one no longer than it, or is longer than the next one to be looked at |
| Reachability.NoRepeat | tools/harness/reachability.py:22-39 | no queued path visits a function twice |
| ContextPack.Cut | tools/harness/context_pack.py:249-254 | kept and dropped make up the sections; nothing of priority 2 or lower is dropped; no droppable section that should go first is kept; the kept ones, in their order, fit or are all of priority 2 or lower; the last one dropped had to go |
| ContextPack.TiesKeepOrder | tools/harness/context_pack.py:251 | the sections that may go are looked at in a stable order: those of equal priority and size in the order of the pack |
| PackBatches.Batches | tools/harness/context_pack.py:258-302 | a pack within budget comes back alone; otherwise the functions, in order, are cut into groups, each a single one or within 0.7 of the budget and not to be joined with the next function, and each batch is header, shared sections, pitfalls of its modules, sections of its functions |
| PackBatches.BatchHolds | tools/harness/context_pack.py:258-302 | a batch holds every shared section, a pitfalls section exactly if one of its functions is of that module, and of the others those of its functions |
| PackBatches.OneGroup | tools/harness/context_pack.py:258-302 | each function is in exactly one batch |
| PackBatches.OwnListOnly | tools/harness/context_pack.py:268-273 | a section that is neither shared nor about pitfalls stands in its own function's list as often as in the pack, and in no other |
| PackBatches.OfKeyInOrder | tools/harness/context_pack.py:268-273 | the sections of a function keep their order |
| PackBatches.OrderByFirst | tools/harness/context_pack.py:268-272 | the functions come in the order of their first sections |
| PackBatches.SharedAndScopedCount | tools/harness/context_pack.py:264-265 | the sections for every batch and those about pitfalls are taken as often as they stand in the pack |
| PackBatches.SharedAndScopedInOrder | tools/harness/context_pack.py:264-265 | they keep their order |
| PackBatches.NeedAdds | tools/harness/context_pack.py:274-280 | the tokens that need counts are what the batch's pitfalls grow by |
| PackBatches.TruncatedIsSmall | tools/harness/context_pack.py:290-293 | a text that is cut takes half the budget, the note and rounding at most |
| PackBatches.TruncatedIs | tools/harness/context_pack.py:290-293 | the kept part of a text that is cut is a beginning of it, in proportion as half the budget is to its tokens, rounded down, and the note follows; nothing else is cut |
| PackBatches.NoteTells | tools/harness/context_pack.py:292 | the note names the number of tokens of the whole text, in decimal |
| PackBatches.FittedMeans | tools/harness/context_pack.py:284-294 | a function stays whole if, with the shared sections and the pitfalls of its modules, it is within the budget, and otherwise each of its sections is cut if it is too large |
| PackBatches.NothingOwnedNothingSent | tools/harness/context_pack.py:258-302 | there is no batch if and only if every section is shared or about pitfalls |
| BatchIndex.GroupBatches | tools/harness/pipeline.py:148-155 | contiguous groups that concatenate to the input, of one main file and at most the cap long, none of which could have taken the next batch, and no grouping under these limits has fewer |
| BatchIndex.Fewest | tools/harness/pipeline.py:148-155 | the loop is never beaten: against every grouping under the same limits |
| BatchIndex.Aggregate | tools/harness/pipeline.py:157-160 | the summed counts of a group, for every file |
| BatchIndex.PrimaryOfGroup | tools/harness/pipeline.py:150-161 | the main file of the summed counts is the main file of each batch of the group |
| BatchIndex.PrimaryIs | tools/harness/pipeline.py:148 | the main file has the largest number and, among those with that number, the greatest name by code points |
| ErrorPath.NullChecked | tools/harness/static_lint.py:696-712 | the tests of the nearest if that holds the statement in its then part |
| ErrorPath.NullsAreTested | tools/harness/static_lint.py:696-712 | a pointer taken for checked was tested by the nearest if, whose then part holds the statement |
| ErrorPathWays.NullsIff | tools/harness/static_lint.py:696-712 | and so is every pointer that the nearest if found to be NULL, if its then part holds the statement |
| ErrorPath.AfterErSet | tools/harness/static_lint.py:715-784 | on every statement tree the walk ends with the verdict of the first deciding small step of the control flow behind the statement, and reports the statements passed on the way |
| ErrorPath.VerdictIsReal | tools/harness/static_lint.py:715-784 | a verdict of continue, loop end or use after fail is witnessed by a control path from the statement that runs no exit statement and no checking macro; a use lies beyond the if whose then part holds the statement and which found the pointer that it follows to be NULL, no passed statement assigned that pointer if it is a name, and it does not look at the error; at most four statements are passed beyond the block |
| ErrorPathWays.VerdictIff | tools/harness/static_lint.py:715-784 | each of the six verdicts, and the statements reported with it, are given exactly when the way of control behind the statement ends as the verdict says: ok at an exit, a check, the function's end or a look at the error beyond the if; continue; loop end; a use of a pointer found NULL beyond the if; four statements passed, or another kind of statement, beyond the if; anything else |
| ErrorPathWays.NextRoundIsFound | tools/harness/static_lint.py:752-757 | a continue, or the end of a loop's body, that control gets to by quiet statements inside the block is always reported |
| ErrorPath.OneVerdict | tools/harness/static_lint.py:715-784 | there is only one deciding place and one verdict |
| LogicOracle.Check | tools/difftest/logic_oracle.py:152-190 | every group passes, is skipped or is listed with its problems, and the three counts add up |
| LogicOracle.CorrectAnswersPass | tools/difftest/logic_oracle.py:119-183 | correct answers to the five query forms raise no problem, for every three-valued predicate, every rows and every column with NULLs |
| LogicOracle.PartsAddUp | tools/difftest/logic_oracle.py:119-126 | every row is in exactly one of the three parts; count, sum, minimum and maximum of the whole come from the parts, and both counts of true rows agree |
| LogicOracle.WrongCountIsSeen | tools/difftest/logic_oracle.py:166-171 | one wrong count among the five is always reported |
| LogicOracle.ProblemsIff | tools/difftest/logic_oracle.py:166-182 | each of the five problems is listed, once, exactly when its numbers disagree: for sum, minimum and maximum when the whole is not NULL with all parts NULL, nor the sum, the least or the greatest of those present |
| LogicOracle.CheckMeans | tools/difftest/logic_oracle.py:152-190 | the groups listed are, in order, exactly those with problems, each with all of them, and the number skipped is that of the groups without answers |
| LogicOracle.WrongPartHiddenIff | tools/difftest/logic_oracle.py:172-182 | one wrong aggregate of a part among right answers goes unseen exactly if the aggregate cannot tell the two values apart beside the others; otherwise it is the one problem listed |
| LogicOracle.WrongWholeIsSeen | tools/difftest/logic_oracle.py:172-182 | one wrong aggregate of the whole among right answers is always the one problem listed |
| Annotate.ApplyNotes | tools/harness/annotate.py:57-76 | every file with notes becomes the woven file, the others stay, and the count is that of the notes whose file and line exist |
| Annotate.AnnotateFile | tools/harness/annotate.py:68-75 | inserting bottom-up after a stable sort gives the woven file and the number of notes in range of the original |
| Annotate.InsertStep | tools/harness/annotate.py:68-74 | at each insertion the range test and the indent are those of the original file |
| Annotate.LeadingBlanksAre | tools/harness/annotate.py:72 | the indent is the longest beginning of the line that holds blanks and tabs only |
| Annotate.EraseRestores | tools/harness/annotate.py:57-76 | erasing the blocks gives the original file |
| Annotate.BlockStands | tools/harness/annotate.py:68-74 | in the woven file each block in range stands before its own line, with the original lines before it above and only blocks for that line between |
| MonthWindows.Windows | tools/review_recommend.py:78-83 | the windows follow each other without gap or overlap, each in one calendar month, from the first day to the last, or to the day before a last day that is the first of a month; none ends before its month or the last day does |
| MonthWindows.InOneWindow | tools/review_recommend.py:78-83 | each day of that range is in exactly one window, and no other day is in any |
| MonthWindows.PlusAdds | tools/review_recommend.py:78-83 | the day that adding k days gives is a day of the calendar whose number is k more |
| MonthWindows.NumberIs | tools/review_recommend.py:78-83 | the number of a day is its day count in the Gregorian calendar |
| MonthWindows.FinalDayIff | tools/review_recommend.py:78-83 | the final day is searched if and only if it is not the first of a month |

## Left out

- PostReview.RunsStoreAtMostOnceIff: a review that a run lost and that lands during a later run counts as stored before that run and not shown by its first read.
- Answers that are not JSON, printed messages and `post_issue_comment`, which follows the same protocol with one comment and no groups.
- `str.strip` also removes blanks beyond ASCII, which stay here, in keys as in file names.
- Worktree.AlwaysSafe: of the processes of other revisions only the pruning is modelled, which is all that reaches this checkout, and a git command has only the effects listed as its steps.
- The write-then-rename publishing in `compdb` and `catch_main`: one atomic step each.
- PackChain.ScanBody: the class Chain is a value that the loops replace, so aliasing between chains is not captured; sizes as expressions and the reasons for giving up are left out.
- PackFlow.PlacesSound: a line that does not run to its end is not modelled, and whether a line has a jump or a body without a brace is given with the line.
- Regular expressions: lines, statements, titles and diff lines come tagged with what the patterns find. `strip_noise` is the exception.
- BaseLine.ExactIff: asks that no added line in another file's part reads like the header of this file, and so do the other theorems about whole diffs.
- Header lines of git other than `diff --git`, `---` and `+++`, and diffs without hunks: the readers pass over them.
- DiffAdded.FoundExactIff: asks for file names without surrounding blanks, as git writes them.
- Separators other than line feed that `splitlines` honours.
- `paths_from_entrypoints`: the same search upwards with other stops.
- Building the graph from sources, its cache and parse quality; the tables are given.
- The rest of `build`: which sections there are. Titles are given by what the code reads from them.
- PackBatches.Batches: sections are values, so the cut texts do not show in the pack that was split; the budget is a natural number and 0.7 of it is exact.
- The text of the batch index and the list of files by count.
- ErrorPath.AfterErSet: statements stand for their excerpts, the pointer named with a use is left out, and a loop's statement child is its body.
- LogicOracle.CorrectAnswersPass: sums are exact integers, without the tolerance for floating numbers.
- The generation of random predicates and the parsing of answers.
- The text of a comment block; it begins with its indent.
- MonthWindows.Windows: has no last year, where the calendar of the original ends with the year 9999 and raises.
- The HTML board, reports, prompts and rendering, decision tables and small filters, and the suites for the engine, whose source is not part of this model.
