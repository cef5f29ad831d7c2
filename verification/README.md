# EloqDoc build and CI tooling in Dafny

A model of the algorithms behind the build and test tooling of EloqDoc, and proofs of what they promise.

- `Libdeps.dfy`, `LateEdges.dfy`, `LibdepsAttributes.dfy`: the library dependency resolver of SCons, what its
  answers owe to edges appended late, and the state it keeps on the nodes: exploring flags and two caches.
- `Brackets.dfy`: the bracket matchers of the C++ lint, forward and backward, over several lines.
- `AngleTokens.dfy`, `Angles.dfy`, `AngleAgreement.dfy`, `AngleExpressions.dfy`: the matchers from angle
  brackets: the reading each has of a line, the mates it finds by it, when the readings agree, and the round
  trips from any bracket.
- `Preprocessor.dfy`: the nesting stack of the C++ lint across `#if`, `#else` and `#endif`.
- `Reports.dfy`: sums and summaries of test executions.
- `Tags.dfy`, `Changelog.dfy`, `Lifecycle.dfy`: the tags of unreliable tests, the tag store with its
  changelog, and the four passes that update the tags.
- `Suites.dfy`: packing tests into suites of bounded runtime.
- `Sources.dfy`: the closure of build targets and the selection of tests.
- `Templates.dfy`: the template language for error codes.
- `ErrorCodes.dfy`: checking and renumbering assertion codes in source files.
- `CachePrune.dfy`: pruning the build cache.
- `Sorting.dfy`, `Strings.dfy`, `Results.dfy`: a stable sort and reversal, the order of strings, options and
  results.

Code that updates state is a method or a class, and each such method is proved equal to a function of its
inputs or of the old state. The theorems are about those functions. Where the code sorts by a key, the order
of keys is a parameter and any total order will do. File system outcomes, evaluated expressions and parsed
files are parameters as well.

## Where the code and its promises part

- Tags. A test tag joins names with `|`, so a name that holds a bar, or is empty, is read back as something
  else. The purge of each pass looks only at tags with as many components as the pass, so a misread tag that
  is too long for it stays, unless a later pass removes it as reliable. `Lifecycle.TagsRanExactly` gives the
  exact condition for each configuration. `Lifecycle.TagsRanForAllConfigs` gives it over all configurations
  that `validate_config` accepts: rates 0 and at least one run decide. By `Lifecycle.StrictestTests` a summary
  then counts against a test when it ran at all and clears it when nothing failed.
  `Lifecycle.BarInNameMisleads` shows an input under an accepted configuration. Names without bars that are not
  empty are enough (`Lifecycle.CleanHistoryRan`).
- Suites. A build variant named `max_runtime` overwrites the stored maximum of a test.
  `Suites.MaximumCovers` says when the maximum still covers every variant, `Suites.CollisionHidesMaximum`
  shows an input where it does not. A suite may then be slower for one variant than in total.
  `Suites.WithinTotalExactly` takes all limits, and each negative one alone: the option for the target time is
  any whole number. Over positive limits the same condition is exact unless a test that is not covered has a
  stored maximum of 0 (`Suites.WithinTotalPositive`); such a test can hide behind one that takes time
  (`Suites.ZeroMaximumHidden`).
- Libraries. Edges appended late are missed twice over: the sorted list of direct dependencies is kept once it
  is not empty, and answers are cached. `LibdepsAttributes.LateEdgeNotListed` and
  `LibdepsAttributes.LateEdgeNotSorted` show an input for each. `LateEdges.AppendsSeenExactly` gives the exact condition under which a node takes new edges,
  and `LateEdges.AppendsSeenWithoutCycle` what it comes to for a node that needs no cycle. As long as every
  append is to a node that has no sorted list, is no cached root and is in no cached answer, appends and queries
  may come in any order (`LibdepsAttributes.RunUntouched`).
- Angle brackets. The two scans have different guards for a '<' or a '>' that is part of an operator, so from a
  '<' or a '>' closing and reversing need not undo each other. `AngleExpressions.ComparisonNotReversed` calls both
  on an input where they do not. Each scan finds exactly the mate by its own reading of the angle brackets
  (`Angles.CloseFindsMate`, `Angles.ReverseFindsMate`), and that decides the round trip from every
  template bracket (`AngleExpressions.CloseThenReverseAngle`). Where the guards agree on every character outside the round, square
  and curly brackets in between, closing ends just past a '>' if and only if reversing from it comes back
  (`AngleAgreement.ClosingIsReversing`). Where they disagree at just one place, the two
  never find the same pair (`AngleAgreement.AgreeExactly`). Two disagreements may cancel
  (`AngleExpressions.DisagreementsCancel`).
- Error codes. Fewer than two codes make the search for the next code fail with a type error. A zero
  written with several digits keeps all but its first digit, so the number in the fixed file is not the code
  that was handed out (`ErrorCodes.RewrittenReads`, with an input in `ErrorCodes.DoubleZeroMisread`). The
  assertion in the loop fails exactly when two different zero codes are found at the same place. The scan
  never finds that: the name before the bracket tells its patterns apart, and matches of one pattern do not
  overlap. For such locations the assertion never fails (`ErrorCodes.ScannedZerosApart`).
- Summaries. An entry that starts after the last end date of a report would lie in none of the clamped
  summaries (`Reports.EntryCovered`). Entries made from test results start and end on the same day, so for
  them this does not happen, and each lies in exactly one summary (`Reports.EntryInOneSummary`).
- Templates. All templates of one run share one environment, so top-level sets carry over to the next
  template (`Templates.SetsCarryOver`). `Templates.SecondTemplateDiffers` renders a template after another and
  alone, with different outputs. `Templates.IndependentExactly` says when no template can tell.
- Sources. The special case for a misspelt decimal shim reads its argument a second time. Most callers pass a
  generator, which is used up by then, so for them the case never applies. `Sources.ShimSeenExactly` says when
  that makes a difference, `Sources.ShimLost` shows an input.

## Model

| member | source | states |
|---|---|---|
| `Libdeps.SortedDirect` | scons/libdeps.py:95-101 | The sorted list has exactly the direct dependencies, as many as there are |
| `Libdeps.VisitCorrect` | scons/libdeps.py:118-142 | A visit appends, once each and after what they hand on, exactly the unfinished nodes it reaches, or raises with a walk back to a flagged node |
| `Libdeps.VisitAllCorrect` | scons/libdeps.py:128-134 | The same for the loop over a list of dependencies, whichever visibility it skips |
| `Libdeps.LeaveFrameCorrect` | scons/libdeps.py:136-142 | Leaving a frame keeps the promise of a visit, whether the loop below it finished or raised |
| `Libdeps.ExtendOpenCycle` | scons/libdeps.py:136-139 | Each frame an error passes extends the walk at its front until the walk closes, and then leaves it alone |
| `Libdeps.RaisedCycleIsSimple` | scons/libdeps.py:85-93 | A raised cycle starts and ends at the same node, has two entries or more, follows edges that are not Private, repeats no other node and is needed by the root |
| `Libdeps.WalkRunsBack` | scons/libdeps.py:118-134 | In a finished list every walk over handed-on edges runs strictly backwards, so the list holds no cycle |
| `Libdeps.NeededIsListed` | scons/libdeps.py:144-146 | Every node reachable over one edge that is not Interface and then edges that are not Private is listed |
| `Libdeps.ListedHasNoCycle` | scons/libdeps.py:118-134 | No node of a finished list starts a closed walk |
| `Libdeps.ReversedOrder` | scons/libdeps.py:148-151 | Reversing puts every node before the nodes it hands on |
| `Libdeps.FinishedList` | scons/libdeps.py:144-151 | The list before it is reversed has exactly the needed nodes, without repetitions |
| `Libdeps.ResolveCorrect` | scons/libdeps.py:103-151 | A query raises if and only if a cycle is needed; otherwise it lists exactly the needed nodes, once each, every node before those it hands on |
| `LibdepsAttributes.Attributes.GetSortedDirect` | scons/libdeps.py:95-101 | The cached or computed list is the sorted list of the edges known when it was first computed non-empty |
| `LibdepsAttributes.Attributes.VisitNode` | scons/libdeps.py:118-142 | The visit with flags, marks and exceptions does what the visit as a function does and restores every flag, on failure too |
| `LibdepsAttributes.Attributes.VisitEach` | scons/libdeps.py:129-131 | The same for the loop over dependencies |
| `LibdepsAttributes.Attributes.GetLibdeps` | scons/libdeps.py:103-151 | A cached answer is returned as it is, any other is that of a fresh search; failures cache nothing; no flag is left set; fresh caches stay fresh; after an answer its root and the nodes listed have sorted lists |
| `LibdepsAttributes.Attributes.AppendDirect` | scons/libdeps.py:229-235 | Appends to real nodes only; from a current state the sorted lists stay up to date if and only if nothing was appended or the node had no sorted list yet, and all answers, cached ones included, stay those of a search when none that involves the node is fixed |
| `LateEdges.ResolveFrame` | scons/libdeps.py:103-151 | An answer does not depend on the edges of nodes other than its root and those it lists |
| `LateEdges.CyclesStay` | scons/libdeps.py:229-235 | Appended edges undo no needed cycle |
| `LateEdges.FixedMisses` | scons/libdeps.py:95-113 | Where an answer that involves the node is cached, or the node has a sorted list, and the answer is no error, some appended edge is missed |
| `LateEdges.AppendsSeenExactly` | scons/libdeps.py:95-113 | Whatever is appended to a node, every answer is that of a search of the new graph, up to which cycle an error reports, if and only if no answer that involves the node is fixed |
| `LateEdges.AppendsSeenWithoutCycle` | scons/libdeps.py:95-113 | For a node that needs no cycle, every answer is exactly that of a search whatever is appended, if and only if the node has no sorted list, is no cached root and is in no cached answer |
| `LibdepsAttributes.LateEdgeNotListed` | scons/libdeps.py:110-113 | A run in which the cached answer misses an edge appended to its root |
| `LibdepsAttributes.LateEdgeNotSorted` | scons/libdeps.py:95-101 | A run in which the sorted list misses an edge appended to a node that an earlier answer lists |
| `LibdepsAttributes.QueryAll` | scons/libdeps.py:103-151 | Any run of queries from a fresh state gives the answers of fresh searches and leaves a fresh state |
| `LibdepsAttributes.Declare` | scons/libdeps.py:229-235 | After any appends and before any query every sorted list to come is up to date |
| `LibdepsAttributes.DeclareThenQuery` | scons/libdeps.py:103-151 | When all appends come first, every answer of any run of queries, failed and repeated ones included, is that of a search from nothing |
| `LateEdges.UntouchedNoneFixed` | scons/libdeps.py:95-113 | A node without a sorted list that is no cached root and in no cached answer fixes no answer |
| `LibdepsAttributes.RunUntouched` | scons/libdeps.py:95-235 | With appends and queries in any order, up to the first append to a node that has a sorted list, is a cached root or is in a cached answer, every answer is that of a search of the graph at that moment |
| `Brackets.ForwardThenBackward` | scripts/buildscripts/cpplint.py:1378-1453 | What a forward scan still has open is mirrored by what a backward scan from the mate has open on arriving there |
| `Brackets.BackwardThenForward` | scripts/buildscripts/cpplint.py:1500-1574 | The converse for a backward scan |
| `Brackets.MatchersInverse` | scripts/buildscripts/cpplint.py:1378-1574 | On one text, an opening bracket closes just past a closing bracket if and only if that one opens at the first |
| `Brackets.OnlyHardBracketsMatter` | scripts/buildscripts/cpplint.py:1378-1574 | Texts that agree on round, square and curly brackets match alike, whatever angle brackets and semicolons they hold |
| `Brackets.ForwardStepHard` | scripts/buildscripts/cpplint.py:1391-1450 | From a hard bracket, each character of the forward scan, tentative angle brackets included, does what a matcher of hard brackets alone does |
| `Brackets.BackwardStepHard` | scripts/buildscripts/cpplint.py:1517-1570 | The same for the backward scan |
| `Brackets.SkippedIsNoBracket` | scripts/buildscripts/cpplint.py:1522-1537 | The extra character the backward scan steps over is never a bracket of any kind or a semicolon |
| `Brackets.FindEndOfExpressionInLine` | scripts/buildscripts/cpplint.py:1378-1453 | The loop is the scan defined character by character, from any bracket; from a hard bracket it is the reference match, or a stack whose hard part is the reference stack |
| `Brackets.FindStartOfExpressionInLine` | scripts/buildscripts/cpplint.py:1500-1574 | The same to the left, with the jumps over operators |
| `Brackets.LineInText` | scripts/buildscripts/cpplint.py:1489-1494 | Each line is a stretch of the joined lines |
| `Brackets.PositionUnique` | scripts/buildscripts/cpplint.py:1486-1494 | An offset in the joined lines belongs to one line and column only |
| `Brackets.ForwardThroughLine` | scripts/buildscripts/cpplint.py:1489-1494 | A match of the joined lines passes through a line as the match of the line alone does |
| `Brackets.BackwardThroughLine` | scripts/buildscripts/cpplint.py:1604-1609 | The same to the left |
| `Brackets.CloseExpression` | scripts/buildscripts/cpplint.py:1456-1497 | The loop is the scan defined line by line, from any bracket; from a hard bracket the answer is found if and only if the joined lines have a match, and is that match; the failure values are those of the source |
| `Brackets.ReverseCloseExpression` | scripts/buildscripts/cpplint.py:1577-1612 | The same to the left |
| `Brackets.RoundTrip` | scripts/buildscripts/cpplint.py:1456-1612 | Over any number of lines, one position closes just past another if and only if the other opens at the first |
| `Brackets.CloseThenReverse` | scripts/buildscripts/cpplint.py:1456-1612 | Closing a bracket and reversing from the last character comes back to it |
| `Brackets.ReverseThenClose` | scripts/buildscripts/cpplint.py:1456-1612 | Reversing from a closing bracket and closing again comes back just past it |
| `AngleTokens.OneTokenReads` | scripts/buildscripts/cpplint.py:1391-1450 | From a template bracket, each token does to the stack what it does to the level: the angle brackets open outside hard brackets, and the hard brackets open |
| `AngleTokens.PairUnique` | scripts/buildscripts/cpplint.py:1391-1450 | A template bracket has at most one mate: one end up to which hard brackets nest, template brackets outside them nest and no semicolon stands outside them |
| `AngleTokens.ScanFindsPair` | scripts/buildscripts/cpplint.py:1378-1453 | From a template bracket the stack machine ends just past a place if and only if that is the mate |
| `AngleTokens.RowsScanned` | scripts/buildscripts/cpplint.py:1489-1494 | Going line by line with the stack handed on is scanning the joined lines |
| `AngleTokens.MirrorReads` | scripts/buildscripts/cpplint.py:1500-1574 | In a text that nests, the level at each place is the same read from the end as from the start |
| `AngleTokens.MirrorPair` | scripts/buildscripts/cpplint.py:1500-1574 | Two places are a pair read from the start if and only if they are one read from the end |
| `AngleTokens.ReadAlike` | scripts/buildscripts/cpplint.py:1391-1450 | Two readings that agree outside hard brackets reach the same level, whatever stands inside, and whether a `<<` is taken back or passed over |
| `AngleTokens.PairAlike` | scripts/buildscripts/cpplint.py:1391-1450 | Such readings have the same pairs |
| `AngleTokens.StayApart` | scripts/buildscripts/cpplint.py:1391-1450 | Readings that are apart by some brackets stay so wherever they agree |
| `Angles.ForwardStepReads` | scripts/buildscripts/cpplint.py:1391-1450 | Each character of the forward scan is one move of the stack machine on the forward reading |
| `Angles.BackwardStepReads` | scripts/buildscripts/cpplint.py:1517-1570 | Each character of the backward scan is one move of the same machine on the backward reading, mirrored |
| `Angles.SteppedOver` | scripts/buildscripts/cpplint.py:1522-1541 | The character the backward scan steps over, after an operator or in a `<<`, counts for nothing in its reading |
| `Angles.BackwardScanReads` | scripts/buildscripts/cpplint.py:1500-1574 | The backward scan with its jumps is the machine on the mirrored line |
| `Angles.BackwardLinesRead` | scripts/buildscripts/cpplint.py:1577-1612 | The backward scan of a file is the machine on the mirrored lines from the last to the first |
| `Angles.CloseFindsMate` | scripts/buildscripts/cpplint.py:1456-1497 | Over any number of lines, closing from a template bracket ends just past a place if and only if that is its mate in the forward reading |
| `Angles.ReverseFindsMate` | scripts/buildscripts/cpplint.py:1577-1612 | Reversing from a template bracket ends at a place if and only if that is its mate in the backward reading |
| `AngleAgreement.LineAlike` | scripts/buildscripts/cpplint.py:1394-1442 | Where the guards of the two scans agree on a character, so do the readings, up to a `<<` |
| `AngleAgreement.PairsAgree` | scripts/buildscripts/cpplint.py:1391-1570 | Where the guards agree on all that stands outside hard brackets between two places, both readings or neither have them as a pair |
| `AngleAgreement.ClosingIsReversing` | scripts/buildscripts/cpplint.py:1456-1612 | Under that condition, over any number of lines, closing from a `<` ends just past a `>` if and only if reversing from the `>` ends at the `<` |
| `AngleAgreement.DisagreeOnce` | scripts/buildscripts/cpplint.py:1391-1570 | Where the guards disagree at one place only, no pair of one reading is a pair of the other |
| `AngleAgreement.AgreeExactly` | scripts/buildscripts/cpplint.py:1456-1612 | Over at most one disagreement, if closing ends at the one bracket or reversing at the other, then both do if and only if the guards agree |
| `AngleExpressions.CloseAtMate` | scripts/buildscripts/cpplint.py:1456-1497 | From any bracket, the answer is just past the mate of the first bracket that goes on the stack; it is the failure value if and only if the start is refused, no bracket goes on the stack or that one has no mate |
| `AngleExpressions.ReverseAtMate` | scripts/buildscripts/cpplint.py:1577-1612 | The same to the left |
| `AngleExpressions.ClosedEncloses` | scripts/buildscripts/cpplint.py:1456-1497 | A bracket and the mate that closing finds are of one kind, and hard brackets between them nest |
| `AngleExpressions.OpenedEncloses` | scripts/buildscripts/cpplint.py:1577-1612 | The same for the mate that reversing finds |
| `AngleExpressions.CloseThenReverseAngle` | scripts/buildscripts/cpplint.py:1456-1612 | Closing from a template bracket and reversing from the last character comes back if and only if the backward reading has the bracket as the mate reached from there, and so whenever the guards agree in between |
| `AngleExpressions.ReverseThenCloseAngle` | scripts/buildscripts/cpplint.py:1456-1612 | The same for reversing from a `>` and closing again, where the start found is a template bracket for closing too |
| `AngleExpressions.ComparisonNotReversed` | scripts/buildscripts/cpplint.py:1456-1612 | A line on which closing from a `<` ends at a `>` from which reversing finds nothing, the guards disagreeing on that `>` |
| `AngleExpressions.DisagreementsCancel` | scripts/buildscripts/cpplint.py:1456-1612 | A line on which the guards disagree twice and the round trip comes back |
| `Preprocessor.NestingState.UpdatePreprocessor` | scripts/buildscripts/cpplint.py:2318-2372 | The new stack and checkpoints are those of the update function, unmatched directives included |
| `Preprocessor.NestingState.ProcessLines` | scripts/buildscripts/cpplint.py:2318-2372 | A file of directives and arbitrary stack changes runs as the fold of its lines |
| `Preprocessor.StepAtLevel` | scripts/buildscripts/cpplint.py:2343-2354 | A line changes an open checkpoint only when it is the first else of that conditional |
| `Preprocessor.CheckpointHolds` | scripts/buildscripts/cpplint.py:2185-2196 | While a conditional is open its checkpoint holds the stack before the if and that of its first else |
| `Preprocessor.EndifRestores` | scripts/buildscripts/cpplint.py:2358-2369 | In any run, after the endif of a block the stack is that of its first else or elif, or the running one when it has none, and the checkpoints are those before the if |
| `Preprocessor.RunKeepsFirstParts` | scripts/buildscripts/cpplint.py:2328-2334 | A well-nested file leaves the stack that the first part of every conditional leaves; nothing in an else part leaks out |
| `Preprocessor.RunItem` | scripts/buildscripts/cpplint.py:2339-2372 | The same for one conditional |
| `Preprocessor.RunElses` | scripts/buildscripts/cpplint.py:2343-2354 | Through all else parts the checkpoint keeps the stack seen at the first |
| `Reports.SumField` | scripts/buildscripts/lifecycle_test_failures.py:166-169 | A component of a sum has the only value its entries have, or is the wildcard |
| `Reports.SumEntries` | scripts/buildscripts/lifecycle_test_failures.py:141-173 | The loop with its sets of names gives the sum defined pair by pair |
| `Reports.TotalPermutation` | scripts/buildscripts/lifecycle_test_failures.py:156-164 | The order of entries does not matter |
| `Reports.SumOfPartition` | scripts/buildscripts/lifecycle_test_failures.py:141-173 | The sum of the sums of any partition into non-empty groups is the sum of all: counts, dates and wildcards |
| `Reports.SortedKeysCorrect` | scripts/buildscripts/lifecycle_test_failures.py:272-273 | The keys of the groups are exactly the keys that occur, each once, in order |
| `Reports.SumKeepsKey` | scripts/buildscripts/lifecycle_test_failures.py:264-274 | The sum of a group carries every coarser key that its entries share |
| `Reports.SummariesOfSummaries` | scripts/buildscripts/lifecycle_test_failures.py:213-292 | Summarizing finer summaries gives the same list as summarizing the entries |
| `Reports.SummariesWithin` | scripts/buildscripts/update_test_lifecycle.py:366-372 | Filtering daily summaries gives the summaries of the filtered entries |
| `Reports.SumRange` | scripts/buildscripts/lifecycle_test_failures.py:202-203 | The dates of a sum bound those of all its entries and are attained |
| `Reports.NextRun` | scripts/buildscripts/lifecycle_test_failures.py:272-273 | In the sorted entries each run of equal keys is one whole group, and the next in order |
| `Reports.SumSortedRuns` | scripts/buildscripts/lifecycle_test_failures.py:272-274 | Sorting, grouping neighbours and summing gives one sum for each key, in order |
| `Reports.SummarizeBy` | scripts/buildscripts/lifecycle_test_failures.py:213-292 | Fails if and only if the period is not positive; otherwise gives the clamped summaries |
| `Reports.PeriodHoldsDay` | scripts/buildscripts/lifecycle_test_failures.py:93-138 | A day lies in the period that starts at its period start, for weeks and periods of days |
| `Reports.PeriodsApart` | scripts/buildscripts/lifecycle_test_failures.py:93-138 | Different periods start at least a whole period apart |
| `Reports.SummaryOfKey` | scripts/buildscripts/lifecycle_test_failures.py:276-290 | Each summary carries its components and spans its period, clamped to the report |
| `Reports.KeysApart` | scripts/buildscripts/lifecycle_test_failures.py:264-274 | Keys of the same components have periods that do not overlap |
| `Reports.SummariesDisjoint` | scripts/buildscripts/lifecycle_test_failures.py:272-292 | Summaries of the same components have disjoint date intervals |
| `Reports.SummariesInRange` | scripts/buildscripts/lifecycle_test_failures.py:276-290 | All of them lie in the range of the report |
| `Reports.EntryCovered` | scripts/buildscripts/lifecycle_test_failures.py:272-292 | The start date of an entry lies in a summary of its components if and only if it is no later than the end of the report |
| `Reports.EntryCoveredOnce` | scripts/buildscripts/lifecycle_test_failures.py:272-292 | No entry lies in two summaries |
| `Reports.EntryInOneSummary` | scripts/buildscripts/lifecycle_test_failures.py:485-500 | An entry that does not end before it starts lies in exactly one summary |
| `Reports.SummariesConserve` | scripts/buildscripts/lifecycle_test_failures.py:272-274 | The sum of the summaries is the sum of the entries |
| `Reports.SummarizedConserves` | scripts/buildscripts/lifecycle_test_failures.py:272-292 | Passes and failures are conserved when the dates are overwritten |
| `Tags.SplitFirst` | scripts/buildscripts/update_test_lifecycle.py:427-440 | Splitting takes off a first element without bars |
| `Tags.CombinationIsClean` | scripts/buildscripts/update_test_lifecycle.py:329-338 | A decoded tag has one to four components, none of them empty or with a bar |
| `Tags.MarkedTag` | scripts/buildscripts/update_test_lifecycle.py:427-440 | A marked tag of one to four non-empty elements decodes to them |
| `Tags.CleanTagDecodes` | scripts/buildscripts/update_test_lifecycle.py:229-242 | A tag of clean names decodes to the names it was made from |
| `Tags.TagRoundTrip` | scripts/buildscripts/update_test_lifecycle.py:229-242 | A tag decodes to the components it was made from if and only if their names are not empty and have no bar |
| `Changelog.TagsConfig.GetTags` | scripts/buildscripts/ciconfig/tags.py:66-69 | Lists exactly the tags stored for a test |
| `Changelog.TagsConfig.AddTag` | scripts/buildscripts/ciconfig/tags.py:71-79 | Adds this tag and nothing else; reports a change if and only if it was missing; the tags of the test are then sorted by the comparison function |
| `Changelog.TagsConfig.RemoveTag` | scripts/buildscripts/ciconfig/tags.py:81-93 | Removes this tag and nothing else; reports a change if and only if it was there |
| `Changelog.LogTagAdds` | scripts/buildscripts/update_test_lifecycle.py:521-530 | Logging adds one tag to what is logged |
| `Changelog.LogTagNoEmpty` | scripts/buildscripts/update_test_lifecycle.py:521-530 | Logging leaves no empty inner dictionary |
| `Changelog.CancelTagLogRemoves` | scripts/buildscripts/update_test_lifecycle.py:501-512 | Cancelling takes one logged tag away and no other |
| `Changelog.CancelTagLogNoEmpty` | scripts/buildscripts/update_test_lifecycle.py:501-512 | Cancelling leaves no empty inner dictionary |
| `Changelog.TagsConfigWithChangelog.constructor` | scripts/buildscripts/update_test_lifecycle.py:493-498 | An empty changelog is the difference of the tags from themselves |
| `Changelog.TagsConfigWithChangelog.AddTag` | scripts/buildscripts/update_test_lifecycle.py:514-521 | Keeps added equal to current minus initial and removed equal to initial minus current, without empty inner dictionaries |
| `Changelog.TagsConfigWithChangelog.RemoveTag` | scripts/buildscripts/update_test_lifecycle.py:523-530 | The same for a removal |
| `Changelog.Replay` | scripts/buildscripts/update_test_lifecycle.py:490-530 | After any sequence of calls added and removed are exactly the net change, disjoint, without empty inner dictionaries |
| `Lifecycle.SuspectIsRecent` | scripts/buildscripts/update_test_lifecycle.py:366-399 | Every group of the unreliable report holds an execution of the reliable period, whichever period is longer |
| `Lifecycle.SummaryOfGroup` | scripts/buildscripts/update_test_lifecycle.py:373-399 | A component of a summary is a wildcard or that of each execution it sums up |
| `Lifecycle.AddedIsMadeFromRecent` | scripts/buildscripts/update_test_lifecycle.py:384-403 | Every tag a pass may add is made from a summary of an execution of the reliable period, finer tags of coarse passes included |
| `Lifecycle.PassOnlyEscapes` | scripts/buildscripts/update_test_lifecycle.py:401-424 | After a pass, the tags of at least its number of components that mislead are among those that it or an earlier pass added and that no purge looks at |
| `Lifecycle.RemainingTagsRan` | scripts/buildscripts/update_test_lifecycle.py:341-424 | For any configuration and any tags before, after four passes every tag of every listed test decodes to a combination that ran, when the tags that escape the purges do |
| `Lifecycle.EscapeRemains` | scripts/buildscripts/update_test_lifecycle.py:409-415 | For any configuration, a tag that a pass adds, that decodes to more components than the pass and that no pass from there on removes as reliable is left after all passes |
| `Lifecycle.TagsRanExactly` | scripts/buildscripts/update_test_lifecycle.py:341-424 | For any executions and any configuration, all tags left stand for combinations that ran, whatever the tests and the tags before, if and only if no tag that escapes the purges is one that the pass of its own length would purge |
| `Lifecycle.TagsRanForAllConfigs` | scripts/buildscripts/update_test_lifecycle.py:266-315 | For given executions and periods, all tags left ran under every configuration that validation accepts, if and only if nothing that escapes misleads at rates 0 and one run |
| `Lifecycle.StrictestAddsMost` | scripts/buildscripts/update_test_lifecycle.py:198-204 | No accepted configuration with the same periods adds a tag that rates 0 and one run do not add |
| `Lifecycle.StrictestRemovesLeast` | scripts/buildscripts/update_test_lifecycle.py:207-213 | Every accepted configuration with the same periods removes what rates 0 and one run remove |
| `Lifecycle.StrictestTests` | scripts/buildscripts/update_test_lifecycle.py:198-213 | At those thresholds a summary is unreliable if and only if it ran, and reliable if and only if nothing failed |
| `Lifecycle.SummaryNames` | scripts/buildscripts/update_test_lifecycle.py:229-242 | The named components of a summary are the first components of each execution it sums up |
| `Lifecycle.MadeFromRecentRan` | scripts/buildscripts/update_test_lifecycle.py:318-338 | With clean names a tag made from such a summary decodes to a combination that ran |
| `Lifecycle.CleanHistoryRan` | scripts/buildscripts/update_test_lifecycle.py:341-424 | Executions with clean names meet the condition of the exact statement, for any configuration |
| `Lifecycle.SingleFailureStays` | scripts/buildscripts/update_test_lifecycle.py:401-424 | The tag of a single failing execution is left after all passes, whatever its names |
| `Lifecycle.BarInNameMisleads` | scripts/buildscripts/update_test_lifecycle.py:229-242 | Under an accepted configuration, an execution with a bar in its task name leaves a tag that decodes to a combination that never ran |
| `Lifecycle.GroupedEntries` | scripts/buildscripts/update_test_lifecycle.py:352-364 | Daily summaries made from those of a finer pass are those of the executions |
| `Lifecycle.FilteredSummaries` | scripts/buildscripts/update_test_lifecycle.py:364-399 | What a pass computes from filtered daily summaries is what it would compute from the filtered executions |
| `Lifecycle.SummarizeWindow` | scripts/buildscripts/update_test_lifecycle.py:366-399 | The combinations and summaries of a window are those of the executions in it |
| `Lifecycle.LevelSummaries` | scripts/buildscripts/update_test_lifecycle.py:364-399 | The two reports of a pass are the summaries of the reliable and of the suspect executions |
| `Lifecycle.UpdateLifecycle` | scripts/buildscripts/update_test_lifecycle.py:245-258 | Adds exactly the tags of unreliable summaries, or removes exactly those of reliable ones, and keeps the changelog |
| `Lifecycle.PurgeTest` | scripts/buildscripts/update_test_lifecycle.py:417-424 | Removes exactly the stale tags of a test while walking over a copy of them |
| `Lifecycle.Purge` | scripts/buildscripts/update_test_lifecycle.py:417-424 | The same for all listed tests |
| `Lifecycle.UpdateLevel` | scripts/buildscripts/update_test_lifecycle.py:352-424 | One round of the loop does what its pass does on the whole history |
| `Lifecycle.UpdateTags` | scripts/buildscripts/update_test_lifecycle.py:341-424 | The four rounds, each over the summaries of the one before, do what four passes over the raw executions do |
| `Suites.LargestAttained` | scripts/buildscripts/generate_resmoke_suites.py:185-186 | The largest average is that of some variant |
| `Suites.OrganizeVariants` | scripts/buildscripts/generate_resmoke_suites.py:175-188 | The dictionary of a test holds the average of each variant and the running maximum, with the overwriting by a variant named like its key |
| `Suites.MaximumCovers` | scripts/buildscripts/generate_resmoke_suites.py:183-186 | The stored maximum is at least every average if and only if each variant before one named max_runtime is matched by a later one |
| `Suites.CoveredWhenMaximumCovers` | scripts/buildscripts/generate_resmoke_suites.py:175-188 | The dictionary is covered by its maximum if and only if the averages are |
| `Suites.CollisionHidesMaximum` | scripts/buildscripts/generate_resmoke_suites.py:183-186 | An input whose stored maximum is below an average |
| `Suites.NoCollision` | scripts/buildscripts/generate_resmoke_suites.py:183-186 | Without such a variant name nothing comes before the collision, so the condition holds |
| `Suites.Suite.AddTest` | scripts/buildscripts/generate_resmoke_suites.py:267-275 | Appends the test, adds its maximum to the total and its averages to their variants |
| `Suites.VariantWithinTotal` | scripts/buildscripts/generate_resmoke_suites.py:258-285 | Over covered tests no variant costs more than the total |
| `Suites.SuiteWithinTotal` | scripts/buildscripts/generate_resmoke_suites.py:258-285 | No accumulated variant runtime of a suite exceeds its total |
| `Suites.PackPartitions` | scripts/buildscripts/generate_resmoke_suites.py:204-227 | The suites join to the sorted tests, none is empty, and each is within the limit or a single test |
| `Suites.PackAhead` | scripts/buildscripts/generate_resmoke_suites.py:213-222 | Packing that is no further behind than a rival, with an open suite that starts no earlier, needs no more suites |
| `Suites.PackIsOptimal` | scripts/buildscripts/generate_resmoke_suites.py:204-227 | No order-preserving partition into suites that are within the limit or single has fewer suites |
| `Suites.LoadsConserve` | scripts/buildscripts/generate_resmoke_suites.py:204-227 | The loads of any assignment of tests to suites add up to the cost of the tests |
| `Suites.PackNeighbours` | scripts/buildscripts/generate_resmoke_suites.py:215-220 | Any two neighbouring suites together exceed the limit |
| `Suites.PackWithinTwice` | scripts/buildscripts/generate_resmoke_suites.py:204-227 | Packing uses at most twice the suites of any assignment within the limit, in whatever order |
| `Suites.DivideTests` | scripts/buildscripts/generate_resmoke_suites.py:204-227 | The loop over suite objects returns exactly the packed suites, each with the runtimes of its tests |
| `Suites.OrganizeTests` | scripts/buildscripts/generate_resmoke_suites.py:175-188 | Every test gets the averages and the maximum of its own executions |
| `Suites.SlowestFirstSorts` | scripts/buildscripts/generate_resmoke_suites.py:199-201 | The sorted list has the same tests, slowest first |
| `Suites.WithinTotalExactly` | scripts/buildscripts/generate_resmoke_suites.py:204-227 | Under all limits, and under each negative limit alone, no variant runtime of a suite exceeds its total, if and only if no average of a test exceeds its stored maximum |
| `Suites.WithinTotalPositive` | scripts/buildscripts/generate_resmoke_suites.py:204-227 | The same under all positive limits, where every test with a stored maximum of 0 has no average above it |
| `Suites.ZeroMaximumHidden` | scripts/buildscripts/generate_resmoke_suites.py:204-227 | Two tests, one with an average above its stored maximum of 0, whose suites stay within their totals under every positive limit |
| `Suites.CalculateSuites` | scripts/buildscripts/generate_resmoke_suites.py:350-354 | From executions to suites: every test is in exactly one suite, slowest first, each suite fits, and when every test meets the condition on its variants no accumulated variant runtime exceeds the total of its suite |
| `Sources.ClosureIsLeast` | cmake/generate_eloqdoc_sources.py:497-508 | The closure has the roots, is closed over dependencies and lies in every set with both |
| `Sources.ClosureIgnoresOrder` | cmake/generate_eloqdoc_sources.py:497-508 | The order and repetition of roots and dependencies change neither what is reachable nor whether something unknown is, nor the closure |
| `Sources.WorkingStep` | cmake/generate_eloqdoc_sources.py:500-507 | Each round keeps what is selected and pending within reach and complete |
| `Sources.DependencyClosure` | cmake/generate_eloqdoc_sources.py:497-508 | Ends on every graph, cyclic ones too; None if and only if an unknown target is reachable, otherwise the closure |
| `Sources.SelectGraph` | cmake/generate_eloqdoc_sources.py:476-494 | Raises if and only if an unknown target is reachable or a forbidden one is selected, otherwise the closure of the server |
| `Sources.ShimSeenExactly` | cmake/generate_eloqdoc_sources.py:511-523 | A generator gives what a list gives if and only if the misspelt shim is not in it or some source is replaced by the shim |
| `Sources.ShimLost` | cmake/generate_eloqdoc_sources.py:511-523 | The misspelt shim alone gives the shim from a list and nothing from a generator |
| `Sources.SelectedIsSupported` | cmake/generate_eloqdoc_sources.py:595-650 | For a selected test nothing in its closure is forbidden, and every normalized source of the closure but for the test main is a production or support source |
| `Sources.SelectTest` | cmake/generate_eloqdoc_sources.py:580-661 | A test is kept if and only if it passes all filters, with its own sources and support sources |
| `Sources.SortedNames` | cmake/generate_eloqdoc_sources.py:579-579 | The targets are visited each once in order of name |
| `Sources.SupportListedPerTest` | cmake/generate_eloqdoc_sources.py:663-666 | The sources of all support targets outside production were already listed test by test |
| `Sources.SelectTests` | cmake/generate_eloqdoc_sources.py:526-667 | The kept tests by name, and as global support sources exactly the union of theirs |
| `Templates.ParseTemplate` | cmake/generate_error_codes.py:79-112 | The loop with recursion parses as the recursive definition does, error cases included |
| `Templates.ParsedBlock` | cmake/generate_error_codes.py:83-112 | A block that parses closes itself and nothing around it |
| `Templates.ParsesExactlyWellBracketed` | cmake/generate_error_codes.py:79-112 | A template parses if and only if its directives are well bracketed by kind, and then to its end |
| `Templates.ParseThenPrint` | cmake/generate_error_codes.py:79-112 | What was parsed prints as the tokens it came from |
| `Templates.PrintThenParse` | cmake/generate_error_codes.py:79-112 | Printed nodes parse back, whatever follows them |
| `Templates.ParsePrintInverse` | cmake/generate_error_codes.py:79-112 | Tokens parse to a tree if and only if they are the tree printed |
| `Templates.RenderAssignsTopSets` | cmake/generate_error_codes.py:122-139 | Rendering changes the environment by the top-level sets, in order, and by nothing set inside a block |
| `Templates.RenderAppend` | cmake/generate_error_codes.py:122-139 | Rendering in two parts, the second in the environment the first leaves, is rendering at once |
| `Templates.RenderNodes` | cmake/generate_error_codes.py:122-139 | The loop with its shared dictionary gives the lines and the environment of the rendering function |
| `Templates.RenderOne` | cmake/generate_error_codes.py:125-138 | The same for one node, with a copy of the dictionary for each block |
| `Templates.RenderEach` | cmake/generate_error_codes.py:134-138 | The same for the items of a loop |
| `Templates.SetsCarryOver` | cmake/generate_error_codes.py:147-157 | Each template starts with the top-level sets of all templates before it |
| `Templates.SetsLeak` | cmake/generate_error_codes.py:147-157 | After templates with a top-level set, a template can print a line that it does not print alone |
| `Templates.IndependentExactly` | cmake/generate_error_codes.py:147-157 | Whatever the template, the values and the meaning of expressions, a template after others prints what it prints alone, if and only if none of the others has a top-level set |
| `Templates.SecondTemplateDiffers` | cmake/generate_error_codes.py:147-157 | Two templates of which the second prints something else alone than after the first |
| `Templates.RenderTemplates` | cmake/generate_error_codes.py:147-157 | The outputs are those of the templates rendered one after the other in one environment |
| `ErrorCodes.ToIntOfStr` | scripts/buildscripts/errorcodes.py:197-197 | A code that is written reads back |
| `ErrorCodes.ReadBack` | scripts/buildscripts/errorcodes.py:194-198 | A zero overwritten at its first digit reads as the new code if and only if it was written with a single digit |
| `ErrorCodes.CheckDups` | scripts/buildscripts/errorcodes.py:130-144 | The callback keeps the first location of each code, the codes found twice and the errors among them |
| `ErrorCodes.ReadErrorCodes` | scripts/buildscripts/errorcodes.py:123-162 | The errors are exactly the locations whose code is "0" or is found more than once |
| `ErrorCodes.GetNextCode` | scripts/buildscripts/errorcodes.py:104-114 | Succeeds if and only if there are two codes or more, with one more than the largest |
| `ErrorCodes.ReplaceOne` | scripts/buildscripts/errorcodes.py:193-198 | In a text replaced from an offset on, replacing at an earlier offset is substituting both at once, and the character there is the original one |
| `ErrorCodes.ReplacedIsNotZero` | scripts/buildscripts/errorcodes.py:194-194 | A place already replaced does not start with a zero |
| `ErrorCodes.OrderDescends` | scripts/buildscripts/errorcodes.py:174-182 | The locations are visited with falling offsets in each file, and are exactly the zero errors |
| `ErrorCodes.HandedOutDistinct` | scripts/buildscripts/errorcodes.py:182-202 | At distinct places each location gets its own code, counting up |
| `ErrorCodes.PlaceInOrder` | scripts/buildscripts/errorcodes.py:182-198 | The assertion holds at the next place if and only if no earlier location shares it, and the write extends the substitution |
| `ErrorCodes.ReplaceAt` | scripts/buildscripts/errorcodes.py:189-198 | One replacement fails if and only if the place holds no zero, and changes that character only |
| `ErrorCodes.ReplaceNext` | scripts/buildscripts/errorcodes.py:182-202 | One round fails only when two locations share a place, and otherwise extends the substitution by one |
| `ErrorCodes.ReplaceBadCodes` | scripts/buildscripts/errorcodes.py:165-202 | Fails if and only if two zero errors share a place; otherwise every file ends as the simultaneous substitution at the original offsets |
| `ErrorCodes.HandedOutInjective` | scripts/buildscripts/errorcodes.py:182-202 | The new codes are pairwise distinct |
| `ErrorCodes.HandedOutFresh` | scripts/buildscripts/errorcodes.py:205-236 | The new codes exceed every existing code, and exactly the places of zero errors get one |
| `ErrorCodes.SitesApart` | scripts/buildscripts/errorcodes.py:174-182 | The places visited are distinct if and only if no two different zero codes found start at the same place |
| `ErrorCodes.FixCodes` | scripts/buildscripts/errorcodes.py:205-236 | The whole fix succeeds if and only if it is quiet and nothing is wrong, or there are two codes or more and no two different zero codes share a place; then the files are the simultaneous substitution by fresh, distinct codes |
| `ErrorCodes.FixErrors` | scripts/buildscripts/errorcodes.py:165-202 | Given the errors and a code above all others, the replacement fails if and only if two different zero codes share a place |
| `ErrorCodes.ScannedZerosApart` | scripts/buildscripts/errorcodes.py:47-77 | Locations at distinct places, as the scan finds them, share no place, so the assertion never fails |
| `ErrorCodes.RestOfCode` | scripts/buildscripts/errorcodes.py:195-198 | What follows the first digit of a code is left alone, up to the end of the number |
| `ErrorCodes.RewrittenReads` | scripts/buildscripts/errorcodes.py:165-202 | In the fixed files the number at each rewritten place, moved by the replacements before it, is the new code followed by all but the first digit of the zero, and reads as the new code if and only if the zero was "0" |
| `ErrorCodes.DoubleZeroMisread` | scripts/buildscripts/errorcodes.py:205-236 | A run of the fix on a file with two codes "00", after which both read as something else than the codes handed out |
| `CachePrune.TotalSizePermutation` | scripts/buildscripts/scons_cache_prune.py:74-74 | Sorting does not change the total size |
| `CachePrune.VictimsAreOldest` | scripts/buildscripts/scons_cache_prune.py:74-84 | The items attempted come least recently used first |
| `CachePrune.AttemptedAreOldest` | scripts/buildscripts/scons_cache_prune.py:74-84 | Attempted and kept items are together the contents, and nothing kept was used before anything attempted |
| `CachePrune.OneAttempt` | scripts/buildscripts/scons_cache_prune.py:84-99 | An attempt lowers the size of what is left by the item when it was removed, and not at all when renaming or removing failed |
| `CachePrune.PruneBelow` | scripts/buildscripts/scons_cache_prune.py:74-102 | For any outcomes the tracked size is that of the items not removed, pruning stops at the first moment below the target, and False means every item was attempted and the size is still not below it |
| `CachePrune.PruneCache` | scripts/buildscripts/scons_cache_prune.py:59-104 | The same with the quota: nothing is attempted when the cache is below it |

## Left out

- Git, JIRA, Evergreen, AWS, download and packaging scripts: calls to other services.
- Committing the tag file with its retries and reference files: driven by git.
- Cleaning up irrelevant tags, which bypasses the changelog logs of added and removed tags.
- Style checks of the C++ lint and removal of comments over several lines: pattern matches on text. The bracket matchers take cleansed lines, the nesting stack takes directives that are already recognized.
- Aliasing of the blocks on the nesting stack: they are values, so a change to a block inside a conditional is a change to the stack.
- Reports grouped by dates or counts rather than by test, task, variant and distro, and dates beyond the range of the date type.
- Arguments of the wrong type or with unknown texts, which raise at once.
- Failure rates recorded in the changelog: which tags are logged is stated, not the rate logged with them.
- Null entries in a tag file, which the store reads as empty.
- Reading executions, hooks and test files that no longer exist: the variants of a test come with the runtimes of their executions.
- Suites.OrganizeVariants: runtimes are whole seconds and their average is the integer quotient, as Python 2 divides the whole nanoseconds of a duration; durations with a fraction are not modelled.
- Hard-coded edits of the target graph and the evaluator for SCons scripts: the target map is arbitrary.
- Sources.SelectTests: the identifier of a test and the order of its sources are left out, lists of sources being sets; targets without the test fixture, or production targets that are unknown, raise a key error in the source and are excluded.
- Evaluating and substituting expressions in templates: arbitrary functions of the expression and the environment that do not raise.
- Splitting template lines into directives, and the definitions file of error codes.
- Matching the patterns of assertions: the locations are given, each a whole number in its file.
- Lines and columns printed for error codes, and the messages.
- Floating point: the target size of the cache and failure rates are real numbers.
- Listing the cache directory: the items come with their sizes and access times.
