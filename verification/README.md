# Verified models of the report writer's engines

This project models, in Dafny, the algorithmic core of a system that plans a long report, writes its
sections concurrently, turns tables into charts and checks the result. Every model follows its source
branch by branch; what each engine is for is then proved for all inputs, all runs or all interleavings.

**Section order.** A plan lists sections, each with a list of "builds on" references ("4.1", "4.1(cost)",
"4.\*"). `BuildsOn` models the notation, `CleanRefs` the cleaning of the lists, `Levels` the memoised
depth-first walk that gives each section a level, cuts cycles and caps the depth, and `Plans` the way
from the lists to the graph and from the levels to execution batches. `Slots`, `ChainScheduler`,
`NarrativeChain` and `BatchScheduler` model the two asynchronous schedulers as step relations: tasks may
be interrupted anywhere, sections may end in success, in a recorded failure or in an exception, and the
run may be cancelled.

**GPU queue.** `GpuQueue` models the FIFO admission queue with its moving average and its rejection by
estimated wait, both as a step relation over real time and as a class cut at the points where the
coroutine is suspended. `GpuWait` bounds the true wait in every schedule, `GpuWorst` builds the schedules
that reach the bound and derives exactly when the estimate is safe.

**Tables and charts.** `Numbers` reads signed numbers and prints them as `:g` does; `Charts` holds the
chart fence, its printer and its parser; `ChartFields` and `ChartRoundTrip` prove what printing and
parsing do to each other. `Tables` models finding a table and deciding whether it becomes a chart,
`TableDrawing` what an accepted table guarantees. `Blocks` and `BlockRanges` cut a text into blocks,
`Conversion` replaces blocks by charts, `Idempotence` shows that doing so twice changes nothing,
`Restoring` turns charts back into tables, `Dedenting` says which lines it takes, and `Undo` says exactly
when that gives the old text back. `DecimalValue` and `Rounding` say what texts and printed values are worth,
`FieldReading` and `FenceReading` what the parser accepts of any text, `TableReading` what is read from a
written table, `AutoVerdict` which tables become which charts, and `ConvertedBlocks` which blocks.

**Embedding.** `Batching` holds the greedy batching and its optimality, `Embedding` the cached, sorted and
batched call that must equal a pointwise map.

**Outline, ledger and evaluation.** `Tokens`, `Outline` and `OutlineRefs` model stable ids of chapters and
sections and the references that follow them. `OutlineIds` says which id every item gets, `OutlineProblems`
what becomes of each reference, `OutlineEdges` what normalisation does to the dependency edges of a whole
outline; `FirstOccurrences` holds the distinct texts of a list. `Ledger` models the join that finds
contradicting values, `LedgerFields` says what it reports in terms of the entries, and `Ndcg` the ranking
measure. `Text` holds the string functions all of them share, `Ordered` a fact about sorted sequences.

Where the code and its documentation differ, the model follows the code:

- `assign_levels` says that all sections on a cycle are cut. The code cuts only labels that the walk meets
  again while they are being resolved: of two sections that build on each other it cuts one
  (`Levels.TwoSectionCycleIsCutOnce`). In every group of mutually dependent sections at least one stays
  uncut (`Levels.CutLeavesAnUncutLabelInItsComponent`), though a small cycle inside a larger group can be
  cut as a whole (`Levels.SmallCycleCanBeCutWhole`).
- `to_fence` prints values with `:g`. Values with more than six significant digits, of 10^6 or more, or
  below 10^-4 are read back as other numbers: one million becomes 1 (`Numbers.SurvivesIffPrintsExactly`).
- A series name with "=" after its first character moves text into the first value: a column headed "a=2"
  is drawn with 2 in place of its first value (`ChartRoundTrip.HeaderNumberReplacesValue`).
- The reason "more columns than the cap" of `auto_choice` is never given
  (`TableDrawing.SeriesCapIsNeverTheReason`).
- "The conversion loses nothing" fails in the ordinary case of a text that already holds a closed chart
  fence, since restoring turns that one into a table too. It also fails for text without any, when an
  opening line is closed only by an indented fence line and a converted table follows
  (`Undo.HalfClosedFenceLosesText`). `Undo.ConversionIsUndoneIff` gives the exact condition.
- Of two items with one stored id the first keeps it, yet the remapping leads from that id to the second one,
  which got a new id (`OutlineIds.EveryIdIs`).
- The severity of a ledger finding is that of the first pair under its key, so a contradiction about one and
  the same year can end as a warning (`Ledger.ConfirmedConflictCanBeMasked`); exactly when it does not is
  stated by `Ledger.ConfirmedConflictsAreCriticalIff`. Values that are not positive
  never conflict (`Ledger.NumericConflict`).
- The wait estimate of the GPU queue can fall short. It covers every schedule of requests that need at most
  d exactly when floor(in flight / slots) times d is at most the estimate (`GpuWorst.EstimateIsSafeIff`).
- A GPU queue configured with no slot admits a request and never serves it (`GpuQueue.NoSlotNoService`).

## Model

| member | source | states |
|---|---|---|
| BuildsOn.ParseOfLabel | src/core/builds_on.py:45-70 | parsing the printed label of any reference the parser can produce gives that reference |
| BuildsOn.LabelIsNormalForm | src/core/builds_on.py:57-70 | whatever text is read, its label is a normal form: it is read as the same reference |
| BuildsOn.LabelsInjective | src/core/builds_on.py:53-57 | two references with the same label are equal |
| BuildsOn.ParseRefIff | src/core/builds_on.py:60-70 | a text is read as a reference exactly when, trimmed, it is digits, a dot, digits or a star, and perhaps a text in parentheses; a chapter reference and a blank metric have no metric |
| CleanRefs.Clean | src/core/builds_on.py:73-119 | the loop computes the kept labels and the warnings of the fold over the references, in order |
| CleanRefs.KeptAreUsable | src/core/builds_on.py:73-119 | kept labels are at most two, distinct, and each is judged usable again as itself: it exists, is not the section, and is in normal form |
| CleanRefs.CleaningIsIdempotent | src/core/builds_on.py:81-86 | cleaning a cleaned list keeps it and gives no warning |
| CleanRefs.UsableAreKept | src/core/builds_on.py:110-118 | nothing was cut off exactly when every usable reference of the input is among the kept labels |
| CleanRefs.UsableIff | src/core/builds_on.py:92-116 | a reference is usable exactly when it can be read and names an existing section other than this one or an existing chapter; it is kept under its label, for a planner without the metric |
| CleanRefs.RefusedIff | src/core/builds_on.py:92-109 | which of the four warnings any other reference gets |
| CleanRefs.CleanedIs | src/core/builds_on.py:87-119 | the result is the first two distinct usable labels in order, every refusal in order, and the number of usable references whose label was cut off |
| Levels.EdgesAreOrdered | src/core/builds_on.py:141-185 | for any graph, cyclic or not: every edge ends with the target strictly lower or its source named in a warning; a label that was not cut is never below its targets |
| Levels.CutIsExact | src/core/builds_on.py:157-170 | flagged labels lie on real cycles, every cycle has a flagged label, and a cycle warning appears exactly when the plan has a cycle |
| Levels.CutLeavesAnUncutLabelInItsComponent | src/core/builds_on.py:144-146 | every cut label is mutually dependent with some label that is not cut: no group of mutually dependent sections is cut as a whole |
| Levels.TwoSectionCycleIsCutOnce | src/core/builds_on.py:144-170 | two sections that build on each other get levels 0 and 1 and one cut label, whatever their labels, so the documented cut of all participants fails there |
| Levels.SmallCycleCanBeCutWhole | src/core/builds_on.py:153-170 | for a, b and c with a and b, and b and c, building on each other, exactly a and b are cut: the cycle between those two is cut as a whole |
| Levels.WholeCyclesAreCutIffAcyclic | src/core/builds_on.py:144-146 | the documented promise holds exactly for plans without a cycle |
| Levels.LevelsAreLongestChains | src/core/builds_on.py:157-185 | on acyclic plans the uncapped level is the length of a longest dependency chain, the final level its minimum with the cap, and exactly the longer chains are demoted |
| Levels.FinalLevelIs | src/core/builds_on.py:175-185 | on any plan cut labels stand at level 0, the others at the depth the walk found or at 2, and the deeper ones are demoted |
| Levels.AssignmentIgnoresOrder | src/core/builds_on.py:149-185 | on acyclic plans neither plan order nor set iteration order changes levels or warnings |
| Levels.LevelAssigner.LevelOf | src/core/builds_on.py:153-170 | the recursive closure over mutable dictionaries computes the specified walk; it ends because labels neither memoised nor being resolved shrink |
| Levels.LevelAssigner.Run | src/core/builds_on.py:172-185 | the whole assignment, with the overwriting loops for cut and demoted labels, is the specified one |
| Plans.ComputeDepLabels | src/core/builds_on.py:122-138 | the loop over the references builds the set of dependency labels, "chapter.\*" included |
| Plans.EdgeIffBuildsUpon | src/core/builds_on.py:122-151 | on string labels, the graph has an edge exactly where one section names another by number or through its chapter |
| Plans.AssignLevels | src/core/builds_on.py:141-185 | levels are computed on a graph of the plan's in-plan dependencies, in some iteration order |
| Plans.AssignmentIgnoresPlanOrder | src/core/builds_on.py:141-185 | a rearranged plan with distinct labels and without a cycle gets the same levels and warnings, in whatever order its dependency sets are iterated over |
| Plans.GroupByLevel | src/core/builds_on.py:196-201 | the grouping loop gives batches with rising levels, plan order inside each, none empty |
| Plans.ComputeBatches | src/core/builds_on.py:188-201 | the batches are such a batching of the assigned levels |
| Plans.BatchingIsUnique | src/core/builds_on.py:196-201 | the levels determine the batches and their order |
| Plans.BatchesPartitionPlan | src/core/builds_on.py:188-201 | every section is in exactly one batch at exactly one place |
| Plans.TargetsAreInEarlierBatches | src/core/builds_on.py:141-201 | a section without a warning is in a later batch than every section it builds upon |
| ChainScheduler.AtMostSlotsRun | src/workflows/write_loop.py:486-512 | in every interleaving at most the configured number of sections is in process |
| ChainScheduler.RunningAfterDependencies | src/workflows/write_loop.py:616-622 | in every interleaving a section in process has all its waits ended, and no other section of its chain is in process |
| ChainScheduler.OneChainStartsInPlanOrder | src/workflows/write_loop.py:587-589 | with one chain through the plan, sections start exactly in plan order |
| ChainScheduler.RunsAreBounded | src/workflows/write_loop.py:616-631 | every run is bounded by the work the first state holds |
| ChainScheduler.NeverStuck | src/workflows/write_loop.py:571-631 | no reachable state with an unfinished section is stuck, aborting or not |
| ChainScheduler.MaximalRunsEndEverySection | src/workflows/write_loop.py:616-631 | a run that cannot go on has ended every section, and without an abort has processed each |
| NarrativeChain.DepsOf | src/workflows/write_loop.py:584-614 | for any plan, in plan order: in full mode the section before, in chapter mode the last earlier section of the same chapter, and the earlier sections it names; of several sections with one number the last is meant |
| NarrativeChain.PlansAreWellFormed | src/workflows/write_loop.py:584-614 | for any plan, mode and concurrency all waits point backwards and there is at least one slot |
| NarrativeChain.SectionsRunAfterWhatTheyBuildOn | src/workflows/write_loop.py:571-622 | in every interleaving, while a section is in process every earlier section it builds upon has ended; in full mode every earlier section, in chapter mode every earlier section of its chapter |
| NarrativeChain.FullModeIsSerial | src/workflows/write_loop.py:587-622 | in full mode sections start exactly in plan order and one at a time, whatever the concurrency |
| NarrativeChain.ChapterModeIsSerialInChapters | src/workflows/write_loop.py:590-622 | in chapter mode two sections of one chapter are never in process together, and the later waits for the end of the earlier |
| NarrativeChain.AtMostConcurrencyRuns | src/workflows/write_loop.py:486-512 | at most max(1, concurrency) sections are in process |
| BatchScheduler.AtMostSlotsRun | src/workflows/write_loop.py:486-512 | in every interleaving at most the configured number of sections is in process |
| BatchScheduler.SectionsRunAfterWhatTheyBuildOn | src/workflows/write_loop.py:634-651 | in every interleaving, while a section without a warning is in process every section of the plan it builds upon has ended |
| BatchScheduler.RunsAreBounded | src/workflows/write_loop.py:634-651 | every run is bounded by the work the first state holds |
| BatchScheduler.MaximalRunsEndEverySection | src/workflows/write_loop.py:634-651 | a run that cannot go on has returned every section of the plan unless one raised or it was aborted; after an abort every section of the current batch has ended |
| BatchScheduler.NeverStuck | src/workflows/write_loop.py:634-651 | until the last batch has returned, something raised or the run was aborted, a step is possible |
| BatchScheduler.CollectResults | src/workflows/write_loop.py:650-653 | results come back in plan order although batches reorder sections |
| GpuQueue.QueueConservation | gpu_service/app/gpu_queue.py:56-127 | in every run: in flight = waiting + running, running within the slots, in flight within the cap, arrivals = rejected + in flight + completed + abandoned, and the average is that of the observed times |
| GpuQueue.EwmaStaysBetween | gpu_service/app/gpu_queue.py:120-126 | the moving average stays within any bounds of the initial estimate and all observed times |
| GpuQueue.EwmaIsWeightedSum | gpu_service/app/gpu_queue.py:119-124 | closed form of the average: the initial estimate with weight 0.8^n, the k-th of n observed times with weight 0.2 * 0.8^(n-1-k) |
| GpuQueue.EwmaApproaches | gpu_service/app/gpu_queue.py:119-124 | after n equal times t the distance of the average to t is 0.8^n of what it was |
| GpuWait.WaitIsBounded | gpu_service/app/gpu_queue.py:86-127 | in every schedule, cancellations included, a request admitted behind k requests on c slots waits at most floor(k / c) times d, if no request ahead needs more than d; also while it still waits |
| GpuWorst.BoundIsAttained | gpu_service/app/gpu_queue.py:86-127 | for every number of slots and of requests in flight there is a run from an empty queue in which the wait is exactly floor(k / c) times d |
| GpuWorst.EstimateIsSafeIff | gpu_service/app/gpu_queue.py:86-111 | the estimate covers the wait in all schedules whose requests ahead need at most d exactly when floor(k / c) times d is at most k / c times the average |
| GpuWorst.EstimateIsConservative | gpu_service/app/gpu_queue.py:86-111 | if the requests ahead need at most the current average, the true wait is at most the estimate and the configured limit |
| GpuQueue.NoSlotNoService | gpu_service/app/gpu_queue.py:56-71 | with no slot the first request is admitted on an estimate of zero and can wait for any time |
| GpuQueue.GpuQueue.Enter | gpu_service/app/gpu_queue.py:97-111 | up to the semaphore: rejection exactly when the requests in flight divided by the slots, times the average, exceed a positive limit, or 256 are in flight; else the request is counted in; the state changes as the step relation says |
| GpuQueue.GpuQueue.Woken | gpu_service/app/gpu_queue.py:113-118 | when the semaphore lets the first waiter in |
| GpuQueue.GpuQueue.Leave | gpu_service/app/gpu_queue.py:118-127 | when a request leaves its slot the average moves a fifth of the way to the time it took, and counters and queue change as the step relation says |
| GpuQueue.GpuQueue.GiveUp | gpu_service/app/gpu_queue.py:112-127 | when a waiting request is cancelled it leaves no trace but the count |
| Numbers.PrintedIsReadBack | src/core/charts.py:94-102 | reading what `:g` printed gives the value rounded to six digits, or only its mantissa when an exponent was printed |
| Numbers.SurvivesIffPrintsExactly | src/core/charts.py:309-312 | a value survives printing and reading exactly when it has at most six significant digits and needs no exponent |
| Numbers.OneMillionIsReadAsOne | src/core/charts.py:309-312 | one million is printed as 1e+06 and read as 1 |
| Numbers.ExponentIs | src/core/charts.py:311 | exponents are printed with a sign and at least two digits |
| Rounding.RoundedIsNearest | src/core/charts.py:311 | for more than six digits the printed number is the nearest with six significant digits, half a unit going to the even digit |
| DecimalValue.EqualIffSameWorth | src/core/charts.py:94-102 | decimals in normal form are equal exactly when they are worth the same real number |
| DecimalValue.SignedNumberIsWorth | src/core/charts.py:94-102 | after text without a digit the digits and fraction are read at their worth, negative exactly when one of five signs, the triangle among them, stands before them, white space aside |
| DecimalValue.CommaIsSkipped | src/core/charts.py:85-99 | a comma behind the first digit does not change what is read |
| DecimalValue.NoDigitNoNumber | src/core/charts.py:96-98 | text without a digit holds no number |
| Charts.CollectBlock | src/core/charts.py:171-179 | the inner loop collects the blank and indented lines of a block, stripped |
| Charts.ParseFields | src/core/charts.py:158-185 | the index loop computes the fields and series lines of the recursive specification |
| FieldReading.ParseFieldIff | src/core/charts.py:81 | a line gives a field exactly when, trimmed, it is a key of small letters and underscores, blanks, a colon and a value |
| FieldReading.FieldsAre | src/core/charts.py:158-185 | which fields any body has: for each key what the last line outside blocks gives, the series in order, and for "key: " with a bar the blank and indented lines below |
| FenceReading.ItemsBeforeAndAfter | src/core/charts.py:135-147 | a list has the items before its first separator, then those behind it |
| FenceReading.OneItem | src/core/charts.py:135-147 | text without a separator is one trimmed item, or none when blank |
| FenceReading.SeriesIff | src/core/charts.py:201-211 | what any series line is read as, and which fault it is refused for |
| FenceReading.AcceptedIff | src/core/charts.py:188-238 | any text is accepted exactly when its fields name one of three kinds, at least two labels and one to five series with one number for every label, a pie with one series of at most five; the spec is what was read |
| FenceReading.AcceptedIsWellFormed | src/core/charts.py:188-238 | so every accepted text is a chart that can be drawn |
| FenceReading.RefusedIff | src/core/charts.py:188-223 | a refused text is refused for the first thing that is wrong, series lines in order |
| ConvertedBlocks.ExampleIsPrinted | src/core/charts.py:304-318 | the fence of a small chart, line by line |
| ChartRoundTrip.FenceRoundTrip | src/core/charts.py:188-238 | for every drawable spec: parsing the printed body returns the same spec exactly when no series name goes on after "=", every value prints exactly, title and unit are no bare bar, and the table's lines are trimmed |
| ChartRoundTrip.PlainFenceIsParsed | src/core/charts.py:304-318 | a drawable spec without such names is always parsed, into the spec with rounded values |
| ChartRoundTrip.DrawableIsParsed | src/core/charts.py:188-238 | every drawable spec is parsed again on the same labels with series of the same length |
| ChartRoundTrip.SeriesSurvivesIff | src/core/charts.py:202-214 | one series survives exactly when its name is plain and its values print exactly |
| ChartRoundTrip.EqualsMovesIntoTheFirstValue | src/core/charts.py:82 | what a name with "=" is read as: a shorter name and a first value taken from the name |
| ChartRoundTrip.HeaderNumberReplacesValue | src/core/charts.py:82 | a name ending in "=n" replaces the first value by n, whatever the value was |
| ChartFields.ReadTable | src/core/charts.py:171-180 | indented table lines are never read as fields |
| Tables.FindTable | src/core/table_to_chart.py:121-163 | the loops over the lines find the run of table rows, pad them to the heading, and split caption and unit |
| TableReading.WrittenTableIsRead | src/core/table_to_chart.py:121-163 | a Markdown table written with any cells is read with its heading and rows, filled or cut to the width of the heading, and its caption, unit and sources; not at all with fewer than two rows or beside a fence |
| TableReading.RowIsSeparatorIff | src/core/table_to_chart.py:39 | a written row is taken for the rule below the heading, and lost, exactly when all its cells are made of hyphens, colons and white space |
| TableReading.StarsAreDropped | src/core/table_to_chart.py:112 | a pair of stars is dropped wherever it stands |
| TableReading.RowLineIff | src/core/table_to_chart.py:126-132 | a line belongs to a table exactly when its first visible character is a bar |
| TableReading.FenceIff | src/core/table_to_chart.py:123-124 | a block holds a fence when three back quotes stand side by side anywhere |
| TableReading.NumericCellIff | src/core/table_to_chart.py:94-103 | a cell is a value exactly when it is a sign or none, white space, digits with commas, a fraction or none, and at most four characters that are neither digits nor white space, without an arrow |
| TableReading.SeveralNumbersIff | src/core/table_to_chart.py:213-223 | a cell holds several numbers exactly when a digit stands behind its first number |
| TableReading.HeadingParts | src/core/table_to_chart.py:178-183 | the name and the unit of a heading |
| TableReading.RowUnitIs | src/core/table_to_chart.py:286-293 | the unit of a label counts with one to six characters and no white space |
| AutoVerdict.LabelColumnIff | src/core/table_to_chart.py:186-192 | the labels stand in the first column with a cell that is no value, or in the first column |
| AutoVerdict.VerdictIsFirstReason | src/core/table_to_chart.py:319-412 | thirteen reasons said of the cells: the verdict is the first that applies, and the table is converted exactly when none applies |
| AutoVerdict.KindOfAccepted | src/core/table_to_chart.py:369-412 | an accepted table becomes a pie exactly when it is one column of at most five shares in percent, none negative, without a total row, whose sum lies in [90, 110]; else a line exactly when all labels are points in time; else bars; over all its value columns in order |
| TableDrawing.AcceptedIsDrawable | src/core/table_to_chart.py:319-412 | an accepted table gives a drawable spec with 3 to 12 distinct labels and equally long series |
| TableDrawing.AcceptedIsParsed | src/core/table_to_chart.py:226-245 | its printed fence is parsed again as a chart of the chosen kind on the same labels |
| TableDrawing.AcceptedShowsAllNumericColumns | src/core/table_to_chart.py:186-204 | the plotted columns are exactly the numeric columns other than the label column, in order and of one unit |
| TableDrawing.AcceptedShowsItsCells | src/core/table_to_chart.py:226-245 | each label and each value of the spec is read from its own cell |
| TableDrawing.SeriesCapIsNeverTheReason | src/core/table_to_chart.py:332-338 | the verdict is never "more columns than the cap" |
| TableDrawing.NumericCellHasValue | src/core/table_to_chart.py:94-103 | every cell accepted as numeric is read as a number |
| Blocks.RawIsOk | src/core/table_to_chart.py:422-435 | every text is cut into blank lines and solid blocks that start outside a fence |
| Blocks.RawUnique | src/core/table_to_chart.py:422-435 | there is only one such cut |
| Blocks.GroupsAreOk | src/core/table_to_chart.py:437-449 | merging from the left joins every chunk to what it belongs to and nothing else |
| Blocks.GroupsUnique | src/core/table_to_chart.py:437-449 | the grouping is determined by those two conditions |
| BlockRanges.RawRanges | src/core/table_to_chart.py:422-435 | the first loop computes the ranges of that cut |
| BlockRanges.BlockRanges | src/core/table_to_chart.py:415-449 | both loops, with the in-place merge, compute the ranges of the groups |
| BlockRanges.RangesCoverTheText | src/core/table_to_chart.py:415-449 | ranges are ordered, apart, non-empty, inside the text, begin at a visible line outside fences, and leave out only blank lines outside fences |
| Conversion.ConvertTables | src/core/table_to_chart.py:468-502 | the loop copies gaps and unconverted blocks and replaces each accepted block by its fence |
| ConvertedBlocks.ChartIff | src/core/table_to_chart.py:481-495 | a block with a table becomes a chart exactly when no reason speaks against it |
| ConvertedBlocks.ChartIs | src/core/table_to_chart.py:226-245 | its kind, title, unit, labels, series names, values, sources and stored text, read from the cells |
| ConvertedBlocks.FenceLineIff | src/core/table_to_chart.py:426 | a fence line has three back quotes behind nothing but white space |
| ConvertedBlocks.JoinsIff | src/core/table_to_chart.py:440-447 | when a block joins the text before it |
| Idempotence.ConversionIsIdempotent | src/core/table_to_chart.py:468-502 | converting a converted text changes nothing |
| Idempotence.ConversionKeepsFences | src/core/table_to_chart.py:468-502 | at the end of every block the converted text is inside a fence exactly when the original is |
| Undo.ConversionIsUndoneIff | src/core/charts.py:250-265 | restoring a converted text gives the original exactly when every converted block equals its stored text and no opening line precedes a closing line or a chart |
| Undo.StoredIff | src/core/table_to_chart.py:244 | a block equals its stored text exactly when it has no outer white space and its lines of spaces and tabs are empty |
| Undo.NoOpenerIsStray | src/core/charts.py:78 | a text without opening lines meets the second half of that condition |
| Undo.HalfClosedFenceLosesText | src/core/charts.py:78 | any convertible table behind an opening line that only an indented line closes makes restoring fail, although no line of the text closes a chart fence |
| Dedenting.OpenerIff | src/core/charts.py:78 | which lines open a chart fence |
| Dedenting.CloserIff | src/core/charts.py:78 | which lines close one |
| Dedenting.TableKeyIff | src/core/charts.py:247 | which lines announce the stored table |
| Dedenting.CapturedIs | src/core/charts.py:247 | what is captured are the indented lines below the first such line that has one below it |
| Dedenting.MarginIsLongest | src/core/charts.py:263 | the margin is the longest white space all visible lines begin with |
| Dedenting.DedentIs | src/core/charts.py:263 | every captured line loses the margin, lines of blanks become empty |
| Dedenting.FenceIsRestored | src/core/charts.py:261-265 | a fence becomes its stored table, outdented and trimmed, or one empty line |
| Dedenting.LineIsKept | src/core/charts.py:265 | every other line stays, an opening line that is never closed too |
| Undo.PrintedTableIsRestored | src/core/charts.py:247-263 | the stored table of a printed fence comes back line by line, lines of spaces and tabs emptied |
| Undo.RestoreShortens | src/core/charts.py:250-265 | restoring a converted text never gives more lines than the original, and fewer as soon as an opening line is stray |
| Batching.GreedyIsSplit | src/clients/onnx_text_embedder.py:101-122 | greedy batches concatenate to the input, none is empty, each is within the limit or a single text |
| Batching.GreedyIsOptimal | src/clients/onnx_text_embedder.py:101-122 | no order-preserving split under those rules has fewer batches |
| Batching.MakeDynamicBatches | src/clients/onnx_text_embedder.py:101-122 | the loop of the ONNX embedder computes the greedy batches |
| Batching.MakeClientBatches | src/clients/embedding_client.py:298-329 | the loop of the client computes the same batches |
| Embedding.BgeM3Client.EmbedBatch | src/clients/embedding_client.py:335-467 | result i is that of text i alone, for either sort flag and any limit; the cache keeps its entries and gains exactly the clamped inputs |
| Embedding.Clamp | src/clients/embedding_client.py:362-369 | an input keeps its first 4000 characters, a shorter one all |
| Embedding.CoherentCallIsPointwise | src/clients/embedding_client.py:335-467 | with a coherent cache results are the pointwise embedding with the original text, `cached` tells what was present, the cache stays coherent and answers the next call |
| Embedding.OrderIsStablePermutation | src/clients/embedding_client.py:402-406 | the length sort is a stable permutation |
| Embedding.SortMisses | src/clients/embedding_client.py:402-406 | texts and result slots are permuted alike |
| Embedding.Embed | src/clients/onnx_text_embedder.py:214-226 | batching does not show in the result of the plain embedder |
| Ledger.JoinConflicts | src/services/ledger.py:449-528 | the nested loops report exactly the first pair of each key, in loop order |
| Ledger.JoinIsUnique | src/services/ledger.py:449-528 | that specification has one answer only: findings and their order are determined |
| Ledger.AmbiguousKeys | src/services/ledger.py:461-468 | a metric is ambiguous in a section exactly when it has several values there |
| Ledger.NumericConflict | src/services/ledger.py:397-407 | two numbers conflict exactly when both are positive and one is below 98 % of the other, in either order |
| Ledger.JoinIsSound | src/services/ledger.py:449-528 | what the specification met by `JoinConflicts` means for a conflict finding: its sections, metric, values and chunks are those of a conflicting pair, and it is critical exactly when both entries have a time, the same one, and not two different scenarios |
| Ledger.JoinIsComplete | src/services/ledger.py:449-528 | every conflicting pair that is no range promotion is represented |
| Ledger.OneFindingPerSectionPairAndMetric | src/services/ledger.py:503-512 | two conflict findings never share a pair of sections and a metric |
| Ledger.SeverityIsOfFirstPair | src/services/ledger.py:503-516 | the severity of a represented pair is that of the first pair under its key |
| Ledger.CriticalIffFirstIsConfirmed | src/services/ledger.py:503-516 | a conflicting pair is reported as critical exactly when the first pair under its key has one time on both sides and not two scenarios |
| Ledger.ConfirmedConflictsAreCriticalIff | src/services/ledger.py:503-516 | all contradictions about one and the same time are critical exactly when none of them has an unconfirmed pair first under its key |
| Ledger.ConfirmedConflictCanBeMasked | src/services/ledger.py:503-516 | a three-entry ledger in which a confirmed contradiction ends as a warning |
| LedgerFields.ConflictPairIff | src/services/ledger.py:461-499 | which pairs conflict, said of the fields: other sections, one metric name with one value in each section, compatible column heads, one unit, no hardened range, and numbers more than two percent apart or different texts |
| LedgerFields.PromotionIff | src/services/ledger.py:435-446 | a hardened range: the upper end within 1e-9 of the number of an entry without a range, and who states which |
| LedgerFields.PromotionIsSound | src/services/ledger.py:476-493 | what a promotion finding says of its pair |
| LedgerFields.ClashIff | src/services/ledger.py:477-511 | two reportable pairs share a finding exactly when they are promotions of literally one metric between the same sections, or conflicts over one name, two sections and two values in either order |
| LedgerFields.NormMetricOfJoined | src/services/ledger.py:381-382 | metric names are compared character by character |
| LedgerFields.NormMetricOfChar | src/services/ledger.py:381-382 | white space, middle dots, parentheses and hyphens do not count, capitals count as small letters |
| Tokens.TokenRoundTrip | src/core/outline.py:95-112 | parsing a printed id token gives the token |
| Tokens.TokensInjective | src/core/outline.py:95-112 | different tokens are printed differently |
| Tokens.NumbersAreNotTokens | src/core/outline.py:103-112 | no text is read both as a number and as a token |
| Tokens.ParseIdTokenIff | src/core/outline.py:83-112 | a text is read as a token exactly when, trimmed, it is "s:" and a uuid with perhaps a metric, or "c:" and a uuid with perhaps ".\*"; the id in small letters |
| Outline.EnsureOutlineIds | src/core/outline.py:123-164 | the nested loops compute the specified ids and remapping |
| Outline.EveryItemHasItsOwnId | src/core/outline.py:123-164 | whatever ids were stored, repeated or missing, every item ends with an id of its own |
| Outline.RemapFollowsItems | src/core/outline.py:139-147 | for distinct stored ids the remapping leads from every old id to its item's new one |
| OutlineIds.EveryIdIs | src/core/outline.py:136-147 | repeated ids included: an item keeps its id exactly when ids are kept, it has one and no earlier item has it, else it gets the next new uuid; an old id is remapped exactly when an item lost it, to what the first such item got |
| OutlineRefs.PositionMaps | src/core/outline.py:167-190 | the four dictionaries relate ids and positions |
| OutlineRefs.NormalizeOutline | src/core/outline.py:193-251 | the loops compute the rewritten outline and its problems |
| OutlineRefs.SectionTokensFollowTheirSection | src/core/outline.py:304-321 | a section token is shown as the label of the position its section has in whatever document, and that label leads back to the token |
| OutlineRefs.ChapterTokensFollowTheirChapter | src/core/outline.py:304-321 | the same for chapters |
| OutlineRefs.NumberRoundTrip | src/core/outline.py:254-321 | a number that normalises to a token is shown as the label it was written as |
| OutlineProblems.ChapterTokenNormalizes | src/core/outline.py:267-276 | what becomes of a chapter token |
| OutlineProblems.SectionTokenNormalizes | src/core/outline.py:277-283 | what becomes of a section token: moved to the new id, or refused as gone or as the section itself |
| OutlineProblems.ChapterNumberNormalizes | src/core/outline.py:284-293 | a chapter number is read as the chapter at that position |
| OutlineProblems.SectionNumberNormalizes | src/core/outline.py:294-301 | a section number is read as the section at that position, unless it is the one that holds the reference |
| OutlineProblems.NormalListIs | src/core/outline.py:225-250 | a list becomes its distinct tokens in order with all problems told, or ends before the third with that told last |
| OutlineProblems.ShownIff | src/core/outline.py:304-321 | numbers are shown as themselves, tokens exactly while what they name exists, other text not at all |
| OutlineRefs.NormalizationIsIdempotent | src/core/outline.py:193-301 | normalising a normalised outline again, ids kept, changes nothing and finds no problem, whether the first pass kept the ids or renewed them |
| OutlineEdges.EdgesKeepTheirTargets | src/core/outline.py:123-301 | an outline normalised without a problem names, in the list of every section, exactly the positions that section named before, with renewed ids too |
| OutlineEdges.NoEdgeIsInvented | src/core/outline.py:193-301 | whatever a section's new list names its old list named, problems or not |
| OutlineEdges.NoEdgeIsLost | src/core/outline.py:193-301 | a section without a problem still names all it named before |
| OutlineEdges.EveryTokenHasOrigin | src/core/outline.py:254-301 | every entry of a new list is an id token that denotes a position some old reference denoted |
| Ndcg.DescendingIsIdeal | scripts/eval_search.py:69-83 | no arrangement of the same grades has a larger gain than the descending one, and only descending ones reach it |
| Ndcg.NdcgAtMostOne | scripts/eval_search.py:74-83 | nDCG is at most 1 for any grades, and 1 exactly for an ideal order with positive gain |
| Ndcg.NdcgInUnitInterval | scripts/eval_search.py:74-83 | for non-negative grades nDCG is in [0, 1], and 1 exactly when the grades descend and are not all zero |
| Ndcg.NdcgIsShareOfIdeal | scripts/eval_search.py:74-83 | nDCG times the gain of the descending first k grades is the gain of the first k grades, and 0 when that is not positive |
| Ndcg.OnlyFirstGradesCount | scripts/eval_search.py:81-82 | grades behind the first k do not count |
| Ndcg.DcgOfLast | scripts/eval_search.py:69-71 | each position adds 2^g - 1, discounted by the position |

## Left out

- White space, digits and line breaks outside ASCII: strings are classified by ASCII only; other line separators are not part of a line.
- Floating point: chart values are exact decimals and times, averages and gains are reals; ties of `:g`, overflow, negative zero and rounding of sums are not modelled.
- The base-2 logarithm of the discount: any positive, strictly decreasing weights take its place.
- Wording patterns of tables (captions, citation marks, units in parentheses, dates, share and total words): functions that return what the regular expression returns, with the few facts about their results that `Tables.ArePatterns` lists.
- Warning texts: cut and demoted labels are sets, refused references are constructors; sorting and phrasing are not modelled.
- What `_process_section` does with a section: an arbitrary step that ends in success, recorded failure, exception or cancellation; the counter of consecutive failures that stops a run is an abort from outside.
- Plans with repeated section labels in the ordering results: the later section's list overwrites the earlier one's.
- Negative chapter numbers, outline items that are not dictionaries, and the error for too many assigned writers.
- OutlineEdges.EdgesKeepTheirTargets: does not cover outlines whose stored ids repeat, because the remapping then sends references to the item that was given the new id; a new uuid is taken to occur in no stored reference.
- OutlineRefs.NormalizationIsIdempotent: the second pass keeps ids; a second pass that renews them gives every item another id.
- GpuWorst.EstimateIsConservative: takes at least one slot (GpuQueue.NoSlotNoService says what happens with none) and service times within the average; `GpuWorst.EstimateIsSafeIff` has the exact condition for given numbers of slots and requests.
- GpuQueue.GpuQueue.Enter: the semaphore wakes its first waiter before time passes, as the event loop does; the rounding of the reported wait is not modelled.
- Embedding.BgeM3Client.EmbedBatch: the encoder is a pure function of one text, cache keys are the texts themselves in place of their digests, and files, locks and tokenisation are not modelled.
- ChartRoundTrip.FenceRoundTrip: for one-line trimmed titles, units, labels and series names, as the printer takes them for granted.
- The TypeScript twin of the table reader, the picture and word-processor output, colours and `renumber_chart_sources`.
- `precision_at_k`, `select_for_refs`, `extract_entries`, `injectable` and `chars_budget_for_bytes`: only easy members.
- The titles, kinds and reasons that the conversion report lists beside the new text.
- The stored stage of a run and its recovery, databases, web interface, language-model calls and configuration.
