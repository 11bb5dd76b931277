# Verified models of ns-3's tooling

This project models the algorithms and protocols that live in the ns-3 tooling rather than in the
simulator: the dependency-graph functions of the Python bindings, the parallel test runner, the shell
pipeline of the build system, the gathering of configuration paths for the documentation, the patch
filter of the coding-style checker, and four smaller cores (permutations and bit strings, timeline
windows, and the sending side of the large TCP transfer). `dafny verify dfyconfig.toml` checks all of it.

Where the source updates variables, lists, dictionaries or objects in place, the model does too: methods
with loops, or classes with the source's fields. Each of these is proved against a specification, and
what the source promises is then proved of the specification.

## What is proved

**Dependency graphs** (`DependencyGraph`, `Topsort`, `TopsortLevels`, `CycleSpec`, `Rotation`,
`FindCycles`). `topsort` returns every item once, parents first, or raises exactly when the pairs have a
cycle; what is left in the error is exactly what lies on or behind a cycle, with the counts and child
lists that remain, and every item left has a *parent* that is left (the comment at
`bindings/python/topsort.py:109` says "child"). Pairs may repeat and may be self-loops. `topsort_levels`
yields as level *k* exactly the items whose longest chain of predecessors has *k* edges. `find_cycles`
yields, for every graph and every order of the dictionary's keys, simple cycles only, each simple cycle
of the graph up to rotation, and no two that are rotations of each other, although later roots are
pruned once visited. It ends because the number of simple extensions of the paths on the stack goes
down with each turn.

**Test runner** (`TestRunner`, `TestRunnerRuns`, `TestRunnerInterrupt`, `TestRunProgram`). A state machine
whose steps are the atomic actions of the dispatcher, the workers, the collector and the interrupt. Every
step of every interleaving keeps one invariant and decreases one measure, so no run takes more than 5 jobs + 3 workers + 2 steps. With at least one worker
the runner cannot block before the verdict; with none it blocks exactly if there is a job. At the
verdict each job has been collected exactly once, each worker has exited on a break job of its own, the
queues are empty, the counts add up and the verdict is 0 exactly when every job came back uninterrupted
as skipped or with return code 0. Without an interrupt the counts and the verdict do not depend on the
interleaving at all. After an interrupt no worker starts a job any more: the jobs that were waiting at that
moment, to be queued, in the queue or with a worker that had not looked at them yet, come back as breaks,
all others with their results, so the verdict is 0 only if none waited. Workers take the jobs in the order
in which they are given, and what comes back is collected in the order in which it comes back. The class `TestRun` performs the same steps on mutable queues and counters, any of
them that is possible at any moment.

**Shell pipelines** (`ShellSyntax`, `ShellParser`, `ShellPrinter`, `ShellWords`, `ShellSemantics`,
`ShellAndOr`, `ShellLists`, `ShellStreams`, `ShellPipeline`). The token-driven parser accepts exactly the
sentences of a small grammar and returns their meaning. The lists it can return are exactly the well-formed
printable ones, and each is parsed back from its canonical printing. Seen from the tokens, a command is
read exactly if no stream is redirected twice, and an operator joins what its two sides are read as.
`run` starts the commands of the list from the first on, each in the directory that all `cd`s before it
add up to, fed by the process before it exactly if that one writes into a pipe, and with exactly the files
opened that its redirections name. How far it gets, and which status it returns, is what the right-nested
reading of the list gives; when it returns, every file it opened, the shared null device aside, has been
closed once and every process it started has been waited for once. It ends in an exception where it
reaches a `cd` that ends the list or names no directory; exactly the lists without one return whatever
the commands do. Since a short circuit ends the whole run, the result is not that of
section 2.9.3 of POSIX.1-2017 XCU in general. For lists without a `cd` behind a pipe it agrees, whatever
the commands return, if and only if the list uses one of `&&` and `||` only (`cd`s before the first pipe
aside).

**Configuration paths** (`ConfigGraph`, `ConfigEdges`, `ConfigWalks`, `ConfigPaths`). `DoGather` explores a
multigraph of types with two stacks that it shares with its own recursive calls. The edges of that graph
are described by the attributes, the types and the aggregations they come from. It ends on every finite
registry, cyclic aggregations included, leaves both stacks as they were, and appends, depth first, one entry
for each walk that visits no type twice, labelled with that walk's path. The call that should remove duplicates works on a copy, so the output keeps them.

**Patches** (`PatchText`, `PatchReading`, `PatchBlocks`, `PatchRoundTrip`, `PatchFilter`, `PatchTurns`,
`PatchViews`, `PatchAlignment`, `PatchReread`, `PatchObjects`). What any line is read as is told by its
beginning, and what any sequence of lines is read as by the patches and chunks that they begin; the lines
that make the parser fail are described too. Reading a written patchset gives it back if and only if no text
holds a newline, no removed line begins with `-- ` and no added line with `++ `; the patchsets that can be
read from any lines at all are exactly these. The whitespace filter makes an added or context line equal to
the removed or context line it meets exactly if that one is the same with a space or a tab more. It keeps the
number, order and kind of all lines and appends at most one blank to any of them, so both views of every
chunk stay the same but for trailing blanks, also when it stops early. Two promises one might expect of
it fail, and are proved with failing inputs and exact conditions on the lines before they are filtered: a
changed line equals its aligned source line in the end if and only if that source line, being a context
line, does not get longer itself in a later turn; and the filtered patchset can be read back if and only
if in no chunk that the filter reaches an added line `++` meets the source text `++ `. The objects of the parser are modelled as objects: a context line is one object in both views.

**Smaller cores** (`Permutations`, `BinaryRange`, `Timeline`, `TxWriter`). `permutations` returns its lists
with the first item going through all places, not in the order that its documentation shows
(`bindings/python/rad_util.py:302-307`). The send callback offers, piece by
piece, as much of the stream as the bytes left, the room and the buffer allow, until the socket refuses, and
otherwise closes it with nothing left or no room.

## Model

| member | source | states |
|---|---|---|
| Rotation.IsRotated | bindings/python/rad_util.py:761-775 | true exactly when the second list is a rotation of the first; an empty second list of equal length is the index error |
| Rotation.RotationSymmetric | bindings/python/rad_util.py:761-775 | being rotated is symmetric |
| Rotation.RotationTransitive | bindings/python/rad_util.py:761-775 | and transitive, so duplicates of duplicates are duplicates |
| FindCycles.IsDuplicate | bindings/python/topsort.py:370-375 | a cycle is a duplicate exactly when some earlier one is it rotated |
| FindCycles.CloseCycle | bindings/python/topsort.py:367-378 | a child on the path closes a simple cycle; after it, that cycle is covered and no two yielded ones are rotations |
| FindCycles.Expand | bindings/python/topsort.py:355-385 | replaces a popped path by its simple one-step extensions, yields the cycles it closes, marks the children pushed |
| FindCycles.TurnKeepsPending | bindings/python/topsort.py:352-385 | each turn keeps: every simple path from the root is explored or still has a prefix on the stack |
| FindCycles.TurnShrinks | bindings/python/topsort.py:352-385 | each turn lowers the number of simple extensions of the paths on the stack |
| FindCycles.RootComplete | bindings/python/topsort.py:351-385 | with the stack empty, every simple cycle that can be walked into from the root has been yielded |
| FindCycles.PrunedRoot | bindings/python/topsort.py:346-349 | skipping a visited key loses no cycle |
| FindCycles.ExploreRoot | bindings/python/topsort.py:351-385 | ends; covers all cycles reachable from the root; marks only what the root reaches |
| FindCycles.FindCycles | bindings/python/topsort.py:343-385 | for every key order: only simple cycles, every simple cycle up to rotation, none twice |
| FindCycles.YieldedOnce | bindings/python/topsort.py:343-385 | exactly one yielded list stands for each simple cycle |
| Topsort.CountParents | bindings/python/topsort.py:77-90 | the dictionaries hold each item's number of incoming pairs and each parent's child list, repeated pairs counted |
| Topsort.ZeroItems | bindings/python/topsort.py:93-93 | the items counted zero, each once, in any order |
| Topsort.KnockDown | bindings/python/topsort.py:98-106 | every lookup hits; the child counts go down by the pairs from the parent; exactly the items with nothing left to wait for have joined the answer |
| Topsort.Drain | bindings/python/topsort.py:97-106 | the loop over the growing answer ends with an answer that holds what is ready, parents first |
| Topsort.Leftovers | bindings/python/topsort.py:108-111 | what never becomes ready is what lies on or behind a cycle, and each such item has a parent left |
| Topsort.Topsort | bindings/python/topsort.py:77-112 | every item once, parents first, or a CycleError exactly when there is a cycle, with its three parts described exactly |
| TopsortLevels.ZeroIsNextLevel | bindings/python/topsort.py:203-205 | an item is counted zero exactly when its longest chain of predecessors has as many edges as there are levels so far |
| TopsortLevels.TakeLevel | bindings/python/topsort.py:217-224 | taking a level off the dictionaries leaves the counts of the remaining items, with no missing lookup |
| TopsortLevels.NothingReady | bindings/python/topsort.py:207-229 | when nothing is counted zero, the rest is what lies on or behind a cycle |
| TopsortLevels.TopsortLevelsCore | bindings/python/topsort.py:203-232 | level k is the items of depth k, all items not behind a cycle appear, and the error comes exactly with a cycle |
| TopsortLevels.TopsortLevels | bindings/python/topsort.py:157-172 | the same from a list of pairs |
| TestRunnerRuns.StepOk | test.py:978-1046 | every atomic step of every thread keeps the invariant and lowers the measure |
| TestRunnerRuns.InitOk | test.py:1416-1427 | the invariant holds at the start |
| TestRunnerRuns.RunsAreSafeAndFinite | test.py:978-1943 | the invariant holds after every run, and no run has more than 5 jobs + 3 workers + 2 steps |
| TestRunnerRuns.CanStep | test.py:978-1943 | no deadlock: with a worker, some thread other than the interrupt can step until the verdict |
| TestRunnerRuns.MaximalRunsConclude | test.py:978-1943 | a run that cannot go on has returned its verdict |
| TestRunnerRuns.HangsIffNoWorker | test.py:1416-1419 | the runner can hang exactly if there is no worker and some job |
| TestRunnerRuns.Outcome | test.py:1704-1943 | at the verdict each job was collected once, queues are empty, every worker exited on its break job, the classes add up, 0 means all is well |
| TestRunnerRuns.TallyMeans | test.py:1704-1943 | each counter is the number of jobs collected that came back skipped, or with its return code |
| TestRunnerRuns.UninterruptedOutcome | test.py:1704-1943 | without an interrupt, counts and verdict are those of the jobs in dispatch order, whatever the interleaving |
| TestRunnerInterrupt.NothingStarts | test.py:987-995 | once the interrupt has come no worker starts a job |
| TestRunnerInterrupt.BackAfterInterrupt | test.py:978-1046 | a job that was waiting at the interrupt comes back as a break, unexecuted; any other with its own result |
| TestRunnerInterrupt.InterruptedOutcome | test.py:1704-1943 | the jobs not counted are as many as were waiting at the interrupt; the verdict is 0 exactly if none was and all jobs are well |
| TestRunnerInterrupt.InterruptFails | test.py:587-589 | from any state without a verdict in which a job waits, a run with an interrupt leads to the verdict 1 |
| TestRunnerInterrupt.TakenInOrder | test.py:978-986 | workers take the jobs in the order in which they are given; at the verdict all have been taken |
| TestRunnerInterrupt.CollectedInOrder | test.py:1704-1720 | results are collected in the order in which they come back |
| TestRunProgram.TestRun.Perform | test.py:978-1046 | whichever thread takes its turn, the queues, workers and counters change as its step says, the invariant is kept and the measure goes down; after an interrupt no job is started |
| TestRunProgram.TestRun.RunTests | test.py:978-1943 | ends whatever enabled step is taken at each moment, the signal included, with empty queues and all results collected; the verdict is 0 exactly if all jobs are well and none was waiting when the signal came |
| ShellParser.StateSentence | waf-tools/shellcmd.py:131-199 | every state of the parser is the reading of a legal sentence made of the tokens so far |
| ShellParser.SentenceState | waf-tools/shellcmd.py:131-199 | every legal sentence leads the parser to its reading |
| ShellParser.ParsedIff | waf-tools/shellcmd.py:121-201 | parse returns a list exactly when the tokens are a legal sentence that means it |
| ShellPrinter.ParsedWellFormed | waf-tools/shellcmd.py:121-201 | nodes and operators alternate, stdout is a pipe exactly before a pipe, a cd is followed by && only |
| ShellPrinter.RoundTrip | waf-tools/shellcmd.py:121-201 | parsing the canonical printing of a well-formed printable list gives it back |
| ShellPrinter.RangeOfParse | waf-tools/shellcmd.py:121-201 | the lists that parse can return are exactly those |
| ShellWords.EnvMatchIff | waf-tools/shellcmd.py:24-24 | a token is an assignment exactly if it is a name of letters, digits and underscores, `=` and a value without white space, one final newline aside |
| ShellWords.CommandRead | waf-tools/shellcmd.py:131-199 | assignments, a name, plain words and redirections are read exactly if no stream is redirected twice, as one command that has what they say |
| ShellWords.LastAssignment | waf-tools/shellcmd.py:139-141 | the last assignment to a variable counts |
| ShellWords.OperatorRead | waf-tools/shellcmd.py:164-177 | a command, an operator and a rest are read as the command, the operator and what the rest is read as; no pipe behind redirected output |
| ShellWords.CdRead | waf-tools/shellcmd.py:180-187 | a cd takes at most one directory, and && joins it to what follows |
| ShellWords.NoEnvBeforeCd | waf-tools/shellcmd.py:144-146 | an assignment before a cd is refused |
| ShellSemantics.JobPlays | waf-tools/shellcmd.py:242-291 | starting a command opens its redirections and begins one process, in an order that can happen |
| ShellSemantics.PipePlays | waf-tools/shellcmd.py:293-305 | a pipe waits for all it started and closes all it opened |
| ShellSemantics.NothingLeft | waf-tools/shellcmd.py:293-346 | whichever pipes run to their end, each file opened is closed once and each process started is waited for once |
| ShellSemantics.ReturnLeavesNothing | waf-tools/shellcmd.py:214-346 | so nothing is left open or running when a run returns |
| ShellSemantics.WholeReturns | waf-tools/shellcmd.py:214-346 | a chain without a break always returns, and only an exception leaves commands behind |
| ShellAndOr.GroupedDirectories | waf-tools/shellcmd.py:221-231 | each command's directory is what its own and all earlier cds add up to |
| ShellStreams.JoinMeans | waf-tools/shellcmd.py:228-228 | an absolute second part is the result, and so is any behind an empty first; otherwise one slash joins both |
| ShellStreams.JoinAssociative | waf-tools/shellcmd.py:228-228 | two cds in a row are one |
| ShellStreams.JobShown | waf-tools/shellcmd.py:242-291 | a command's events open files only and end in its start, whose three streams are what its redirections and its place in the pipe ask for |
| ShellStreams.GroupedJobs | waf-tools/shellcmd.py:214-241 | the reading has the commands of the list in order, each where the cds before it lead, fed exactly if the one before writes into a pipe |
| ShellStreams.RunStreams | waf-tools/shellcmd.py:214-346 | each start in the log runs the command of the list that its number says, there, with these streams; every file is opened for the next start |
| ShellAndOr.WholeIff | waf-tools/shellcmd.py:221-233 | a list is read without a break exactly when all of it can be run |
| ShellAndOr.RunStartsRight | waf-tools/shellcmd.py:214-346 | the log shows exactly the starts that the right-nested reading asks for |
| ShellAndOr.UniformAgrees | waf-tools/shellcmd.py:308-346 | with one operator only, starts and status are those of the left-associative reading |
| ShellAndOr.MixedDiffers | waf-tools/shellcmd.py:308-346 | with both behind the first pipe, a short circuit there leaves out commands that POSIX starts |
| ShellAndOr.AgreesIffUniform | waf-tools/shellcmd.py:308-346 | agreement for all exit codes holds exactly for uniform chains |
| ShellLists.RunnableIff | waf-tools/shellcmd.py:221-233 | of the parsed lists, exactly those without a dangling or directory-less cd can be run |
| ShellLists.ReturnsIffRunnable | waf-tools/shellcmd.py:221-233 | exactly for these lists no exit codes lead to an exception; any other list runs up to its broken cd for some |
| ShellLists.PosixIffOneOperator | waf-tools/shellcmd.py:214-346 | read off the list: POSIX's result for all exit codes exactly when one operator is used behind the leading cds |
| ShellLists.MixedExample | waf-tools/shellcmd.py:308-346 | three commands joined by one of each operator: not read as POSIX reads them |
| ShellPipeline.OpenOutFile | waf-tools/shellcmd.py:46-50 | the null device is shared, any other file is opened for writing, and both are entered for closing |
| ShellPipeline.StartCommand | waf-tools/shellcmd.py:242-291 | opens stdin, stdout and stderr in this order as the command and its place in the pipe ask, and starts it: the log ends in that start, with the right streams |
| ShellPipeline.ExecPipedCommands | waf-tools/shellcmd.py:203-212 | all processes are waited for in order; the status is the last one's |
| ShellPipeline.CloseFiles | waf-tools/shellcmd.py:301-304 | exactly the opened files are closed, in order, the null device never |
| ShellPipeline.Pipeline.CommitCommand | waf-tools/shellcmd.py:101-104 | appends the current command and clears it; none is a failed assertion |
| ShellPipeline.Pipeline.Read | waf-tools/shellcmd.py:136-199 | one token changes the fields as the state machine says, or fails an assertion |
| ShellPipeline.Pipeline.Parse | waf-tools/shellcmd.py:121-201 | the loop computes what the state machine accepts and leaves the list in the object; after a failed assertion the object holds what was committed and the current command at that token |
| ShellPipeline.Pipeline.Run | waf-tools/shellcmd.py:214-346 | for every list that parse can return, log and status are those of the right-nested reading; the log shows its starts, each with the right command, directory and streams; on return all is closed and waited for; a broken cd that is reached is an exception |
| ConfigPaths.StaticInformation.GetCurrentPath | utils/print-introspected-doxygen.cc:1091-1102 | each item of the path behind a slash |
| ConfigPaths.StaticInformation.HasAlreadyBeenProcessed | utils/print-introspected-doxygen.cc:1113-1125 | true exactly if the type is on the stack |
| ConfigPaths.StaticInformation.RecordOutput | utils/print-introspected-doxygen.cc:1105-1110 | one entry is appended, with the current path |
| ConfigPaths.StaticInformation.Follow | utils/print-introspected-doxygen.cc:1214-1219 | pushes, gathers and pops; both stacks are as before |
| ConfigPaths.StaticInformation.FollowAttributes | utils/print-introspected-doxygen.cc:1194-1233 | pointers, but not to plain objects, and containers are followed in order |
| ConfigPaths.StaticInformation.FollowChildren | utils/print-introspected-doxygen.cc:1234-1246 | every registered type that derives from this one is followed |
| ConfigPaths.StaticInformation.FollowAggregates | utils/print-introspected-doxygen.cc:1247-1268 | aggregations are followed in both directions |
| ConfigPaths.StaticInformation.DoGather | utils/print-introspected-doxygen.cc:1185-1269 | ends on every finite registry, restores both stacks, appends what is to be gathered |
| ConfigPaths.StaticInformation.Gather | utils/print-introspected-doxygen.cc:1176-1182 | appends the entries of the walks from the type, duplicates kept |
| ConfigEdges.EdgesAre | utils/print-introspected-doxygen.cc:1194-1268 | the edges are those of the ways on, one each: attributes that point elsewhere than to a plain object or hold items, then types that derive from this one, then aggregations with it in either order, each kind in the order of registration |
| ConfigEdges.EdgeIff | utils/print-introspected-doxygen.cc:1194-1268 | there is an edge exactly if one of these ways leads along it |
| ConfigEdges.PathItem | utils/print-introspected-doxygen.cc:1091-1102 | a path's string is each item in turn behind one slash, and nothing else |
| ConfigWalks.GatheredEntries | utils/print-introspected-doxygen.cc:1185-1269 | what is gathered is one entry for each walk listed, with its end and its labels |
| ConfigWalks.WalksExact | utils/print-introspected-doxygen.cc:1185-1269 | the walks listed are exactly those that visit no type twice, each once |
| ConfigWalks.WalksInOrder | utils/print-introspected-doxygen.cc:1185-1269 | they are listed depth first, each before its continuations, the earlier way first |
| PatchReading.HeaderIff | utils/check-style.py:362-362 | a line is a chunk header exactly if it can be taken apart into the pattern's four numbers and whatever stands behind |
| PatchReading.HeaderRead | utils/check-style.py:379-383 | and is then read as these numbers |
| PatchReading.DigitsMean | utils/check-style.py:239-240 | leading zeros aside, a number is read as what is written out like it |
| PatchReading.DecimalMeans | utils/check-style.py:292-293 | the digits of a number written are its decimal digits, without leading zeros |
| PatchReading.ReadAs | utils/check-style.py:360-402 | which lines are read as file names, and which as removed, added and context lines, by their beginning |
| PatchReading.ReadAsHeader | utils/check-style.py:379-383 | which lines begin a chunk, and at which positions |
| PatchReading.HeaderWritten | utils/check-style.py:292-293 | a written header has the positions and the sizes of the two views, and a newline behind it |
| PatchReading.PrintedTerminated | utils/check-style.py:204-217 | every line that is written ends in a newline |
| PatchBlocks.ParsedIs | utils/check-style.py:359-403 | any lines are refused exactly at a line that is nothing or comes too early; else every header begins a chunk, every text line goes to the chunk begun last, and every source file begins a patch |
| PatchBlocks.BlocksTell | utils/check-style.py:359-403 | no two patchsets have the same chunks and the same heads, so this determines the result |
| PatchText.HeaderReads | utils/check-style.py:286-293 | a written chunk header carries the positions and the lengths of the two views |
| PatchText.ReadsLine | utils/check-style.py:204-217 | a written line is read as itself exactly if it has no newline and does not look like a file name line |
| PatchRoundTrip.RoundTripIff | utils/check-style.py:348-403 | reading what was written gives it back exactly under these conditions on all texts |
| PatchRoundTrip.RangeOfParse | utils/check-style.py:359-403 | the patchsets that some lines can be read as are exactly these |
| PatchTurns.LinesMeet | utils/check-style.py:410-415 | turn by turn the next removed or context line meets the next added or context line, until one view ends |
| PatchTurns.ViewsAre | utils/check-style.py:254-273 | the two views hold these lines in order |
| PatchTurns.TurnMeans | utils/check-style.py:413-418 | a turn appends a space or a tab if the source text is the target text and that blank, one final newline aside, and changes nothing else |
| PatchTurns.TurnCopies | utils/check-style.py:413-418 | without newlines it changes its target exactly then, and makes it the source text |
| PatchViews.LinesGrow | utils/check-style.py:405-421 | a line stays as it is or gets one blank more, context lines included; a removed line stays |
| PatchAlignment.AlignedThen | utils/check-style.py:413-418 | a line just changed equals the source line it is aligned with |
| PatchAlignment.AlignedIff | utils/check-style.py:413-418 | in the end it still does exactly when that line is not made longer in a later turn, which shows in the original lines |
| PatchAlignment.AlignmentLost | utils/check-style.py:413-418 | three lines for which it does not |
| PatchViews.ViewsKept | utils/check-style.py:254-273 | lines that grow by blanks leave both views the same but for trailing blanks |
| PatchViews.FilterKeeps | utils/check-style.py:405-421 | so for the whole patchset, whether or not the filter stops early |
| PatchReread.TextAtAfter | utils/check-style.py:413-418 | the text of a line in any turn, from the lines before they are filtered |
| PatchReread.HeaderMadeIff | utils/check-style.py:413-418 | a chunk turns an added `++` into `++ ` exactly when in some turn it meets the source text `++ ` |
| PatchReread.FilteredRoundTrip | utils/check-style.py:405-421 | the filtered patchset is read back exactly when no chunk that the filter reaches has such a turn |
| PatchReread.FilteredRoundTripFails | utils/check-style.py:405-421 | two lines for which it is not |
| PatchObjects.PatchChunkLine.AppendToLine | utils/check-style.py:179-185 | the text of this one object grows |
| PatchObjects.PatchChunkLine.Write | utils/check-style.py:204-217 | mark, text and newline; a line that was never set fails |
| PatchObjects.PatchChunk.AddLine | utils/check-style.py:247-253 | the object is appended, and nothing else changes |
| PatchObjects.PatchChunk.Source | utils/check-style.py:254-263 | the objects of the source view in order |
| PatchObjects.PatchChunk.Destination | utils/check-style.py:264-273 | the objects of the destination view in order |
| PatchObjects.PatchChunk.Write | utils/check-style.py:286-295 | header and lines of the chunk's value are written, up to the first unset line, with which it fails |
| PatchObjects.PatchChunk.RemoveTrailingWhitespaceChanges | utils/check-style.py:410-420 | the chunk's objects show the filtered lines; it fails exactly if the destination view is shorter |
| PatchObjects.Patch.Write | utils/check-style.py:348-357 | file names and chunks of the patch's value are written, up to the first unset line |
| PatchObjects.ReadLine | utils/check-style.py:369-402 | one line changes the objects as the reading says; a line goes to the current chunk even when a new patch has begun |
| PatchObjects.ParsePatchset | utils/check-style.py:359-403 | the objects returned show the parsed patchset, all lines distinct, or an exception |
| PatchObjects.Reread | utils/check-style.py:348-403 | objects that are written and parsed again give objects that show the same patchset, if its texts allow |
| PatchObjects.RemoveTrailingWhitespaceChanges | utils/check-style.py:405-421 | the objects returned show the filtered patchset |
| Permutations.Permutations | bindings/python/rad_util.py:310-326 | n! lists, exactly the rearrangements, pairwise distinct when the items are; the first item goes through all places of the first rearrangement of the others, then of the second, and so on |
| Permutations.NotAsDocumented | bindings/python/rad_util.py:298-307 | so for three items the order is not the one documented |
| BinaryRange.IntToBinIff | bindings/python/rad_util.py:91-105 | for at least one bit and any number: its bits, or an error exactly when they do not suffice or it is negative |
| BinaryRange.BinToIntBits | bindings/python/rad_util.py:130-130 | reading these bits gives the number back |
| BinaryRange.NoBitsNoError | bindings/python/rad_util.py:100-102 | with no bits asked for there is no error, and all come back in whole hexadecimal digits, no more than needed |
| BinaryRange.Increment | bindings/python/rad_util.py:649-659 | the inner loop adds one, and the last toggle shows the overflow |
| BinaryRange.BinaryRange | bindings/python/rad_util.py:639-660 | all strings of the given length, the k-th being k in binary; none for no bits |
| Timeline.TimelineDataRange.Search | utils/grid.py:105-122 | the loop ends for any list at an index whose range covers the key, or -1, as the search between two bounds says, after a logarithmic number of looks |
| Timeline.FoundIff | utils/grid.py:105-122 | for sorted, disjoint ranges it is -1 exactly if none covers the key |
| Timeline.TimelineDataRange.GetRanges | utils/grid.py:136-152 | for any list and window the slice that the bounds give |
| Timeline.TimelineDataRange.GetRangesBounds | utils/grid.py:153-169 | the same bounds, inside the list |
| Timeline.BoundsSearched | utils/grid.py:153-169 | for sorted, disjoint ranges these are the counts of ranges ended before the window and started by its end, where its ends are covered |
| Timeline.ExactIff | utils/grid.py:136-152 | the result is exactly the ranges that meet the window if and only if its uncovered ends lie beyond the list, or neither end is covered and none starts in it |
| Timeline.InsideMissed | utils/grid.py:136-152 | a range strictly inside an uncovered window is missed |
| Timeline.SupersetIfCovered | utils/grid.py:136-152 | with one end covered it is a contiguous superset |
| Timeline.TimelineEvent.Search | utils/grid.py:201-218 | the loop ends for any list where the search between two bounds says, after a logarithmic number of looks |
| Timeline.PlaceIff | utils/grid.py:201-218 | with increasing times this is the place of the first event at the key or after it |
| Timeline.TimelineEvent.GetEvents | utils/grid.py:226-235 | for any list and window the slice between the two searches |
| Timeline.TimelineEvent.GetEventsBounds | utils/grid.py:236-245 | the same two places |
| Timeline.EventsCut | utils/grid.py:226-245 | with increasing times every event in the window and at most the next one; the upper bound lies behind the list's end exactly if every event is before the window's end |
| TxWriter.Sender.constructor | examples/tcp/tcp-large-transfer.cc:82-86 | the buffer holds the start of the repeating alphabet |
| TxWriter.LettersRepeat | examples/tcp/tcp-large-transfer.cc:84-85 | the stream is the letters from a to z, over and over |
| TxWriter.SliceContinues | examples/tcp/tcp-large-transfer.cc:202-207 | a slice from the counter's remainder continues the stream, since the buffer's size is a multiple of 26 |
| TxWriter.Sender.WriteUntilBufferFull | examples/tcp/tcp-large-transfer.cc:198-216 | whatever the socket answers, each slice offered continues the stream and is as long as the bytes left, the room and the buffer allow; the accepted bytes are the first so many; it returns after a refusal, or with the socket closed and no byte left or no room |

## Left out

- Generators are methods that return all items at once: a caller who changes the graph, or a yielded cycle, between two items is not modelled. `raise StopIteration` at the end of `topsort_levels_core` is its normal end.
- TopsortLevels.TopsortLevelsCore: the caller's dictionaries must agree, each count being the number of times the item is listed as a child, as its documentation at lines 198-200 asks.
- The order in which Python iterates a dictionary is a parameter (`find_cycles`) or any order (`topsort`).
- Job objects are values that move between the queues: that dispatcher and worker hold the same object is not modelled, since no thread reads a job it has handed on. Skip reasons, names, times and the report files are left out, and so are verbose output and a second signal.
- A job's execution is one step with a given return code; that it returns is assumed.
- Thread scheduling inside the locks of the queues is one step: `Queue.get` and `Queue.put` are atomic.
- ShellPipeline.Pipeline.Run: lists that `parse` never returns are left out; processes are exit codes and files are numbers; `open`, `Popen` and `wait` always succeed, the environment is passed on with the command, and the verbose branches, which read `retval` before it is set, are left out. `.` as directory stands for passing none.
- Command lines given as one string are split by `shlex`, which is not part of this model; white space in the pattern for assignments is ASCII white space.
- `get_abbreviated_command` is not modelled: its last test repeats the one before, so it never prints `||`. The printing of the round trip is this project's own.
- ShellAndOr.AgreesIffUniform: lists with a `cd` behind a pipe are not compared with POSIX, where that `cd` would be part of the pipe; the executor takes it as a prefix of the next command of the same pipe.
- ConfigPaths.StaticInformation.Gather: whether one type derives from another, and which types exist, are given; looking names up in the type registry, and the printing of the paths, are left out.
- The patches' lines are given as the arguments of single writes; splitting a file into lines, `difflib`, `uncrustify` and the application of the patch are left out.
- Timelines with ranges that touch or overlap, or with equal times: their searches and slices are modelled, what they miss is not described. `sort` of the timelines, whose comparison functions belong to Python 2, and the drawing code of `utils/grid.py` are left out; times are real numbers.
- BinaryRange.IntToBinIff: the number of bits is not negative; with none, `BinaryRange.NoBitsNoError` says what happens.
- TxWriter.Sender.WriteUntilBufferFull: the counters are unbounded numbers, which is exact because the proved bound of 2000000 is far below 32 bits; a socket that takes no byte, and says so, for ever while it has room would keep the loop from ending, so it does that only finitely often in a row. The loop also ends, and closes, when the buffer is full before all bytes are sent.
- The simulator programs, the waf tools other than the shell pipeline, the bindings generators and the floating-point helpers of `rad_util.py` are straight-line set-up or wrappers and are left out.
