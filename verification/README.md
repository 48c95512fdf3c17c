# Small stateful cores of `base/`, modelled and proved in Dafny

The project models seven small but delicate pieces of the `base` library and
proves what they are for. `dafny verify dfyconfig.toml` checks everything.

| piece | source | files |
|---|---|---|
| command lines: parser, normal form, index, printer | `base/command_line.cc` | `Text`, `Tokenizer`, `Quoting`, `CommandLineModel`, `NormalForm`, `SwitchIndex`, `CommandLinePrint`, `CommandLines`, `TokenWeights`, `RoundTripCounts`, `RoundTrip` |
| streaming MD5 | `base/md5.cc` | `Md5Spec`, `Md5Vectors`, `Md5Transform`, `Md5` |
| a map that may shrink while it is iterated over | `base/id_map.h` | `IdMapModel`, `IdMapRuns`, `IdMap` |
| lazy construction by any number of threads | `base/lazy_instance.h`, `base/lazy_instance.cc` | `LazyInstances` |
| exit callbacks | `base/at_exit.cc` | `AtExit` |
| compare-and-swap loops, sequence numbers, reference counts | `base/atomicops_internals_gcc.h`, `base/atomic_sequence_num.h`, `base/atomic_ref_count.h` | `Totals`, `Atomics`, `RefCounts` |
| the default message pump | `base/message_pump_default.cc` | `MessagePump` |
| resumable directory traversal | `base/file_util_win.cc`, `base/file_util.cc` | `FileTree`, `FileEnumeration`, `FileEnumerators` |

## How it is laid out

Code that changes objects in place is a class here too: `CommandLine`, the MD5
`Context`, `IDMap` and its `Iterator`, the exit managers and `FileEnumerator`.
Each of their methods is proved against a specification: a function of the old
state (`Line`, `State`, `Exits`), of the bytes so far (`Digest`), or of the tree
(`Enumeration`). The laws are then proved of those functions, for every input
and every run. The printer of command lines is undone by a tokeniser that is
written from the published rules of `CommandLineToArgvW` and knows nothing of
the quoting code; `Md5Spec` is written from RFC 1321, sections 3.1 to 3.5, and
knows nothing of buffers, and `Md5Vectors` computes two digests of the list in
its appendix A.5 from it; `Below` says which files an enumeration is for without
knowing of the stack.

Code that several threads execute is a state machine: one action is one atomic
access to shared memory, or one call to or from a delegate, and the theorems are
about every run, that is every interleaving of such actions.

## Where the code does not do what it seems to

* What InitFromArgv makes of an argv survives printing and parsing exactly when
  the argv is `Expressible` (`RoundTrip.CommandLineRoundTrip`). The code quotes
  neither an empty string nor one whose only special character is a tab, doubles
  a trailing backslash of the program (the tokeniser reads argv[0] without
  escapes), and stores `--=` as the bare terminator `--`. An object made in any
  other way survives exactly when, besides, its argv_ initialises the very same
  object (`RoundTrip.ObjectRoundTrip`, `RoundTrip.AppendedSpaceIsLost`).
* The index `switches_` is the last-wins map of the stored switches exactly as
  long as no appended name has an equals sign (`SwitchIndex.RunIndex`).
  After `InitFromArgv` on a used object it is right exactly when the new switches
  cover the old keys (`SwitchIndex.ReusedIndex`, `SwitchIndex.StaleSwitch`).
* `IDMap::Clear` does nothing to a map of external pointers that is not being
  iterated over (`IdMapRuns.ClearEmpties`), and `Lookup` still finds what waits
  to be removed, unless it is a NULL (`IdMapRuns.LookupIsLive`,
  `IdMapRuns.LookupFindsRemoved`).
* The pump can lose a wakeup (`MessagePump.CarelessIdleLosesWakeup`): a callback
  runs a nested loop, which takes the signal and is quit with work left; the
  callback says that it did nothing, and the outer loop goes to sleep on the
  work. Just such a return makes a loss possible (`MessagePump.CarelessnessLoses`):
  after a nested loop, reporting no work, on the way to the wait, with work queued
  that is neither signalled nor about to be, and no delayed work overdue. Without
  one nothing is lost (`MessagePump.NoLostWakeup`). A callback is on the safe side
  if after a nested loop it reports work unless the queue is empty
  (`MessagePump.ConsiderateKeepsWakeups`). The sleep can be one without timeout, and
  so last for ever, exactly if the careless return leaves no delayed work scheduled.
* A reference count tells the last release apart as long as fewer than 2^32
  references are in use (`RefCounts.LastReleaseSeesZero`); beyond that a change
  returns 0 exactly when it leaves a multiple of 2^32 (`RefCounts.ZeroResult`).
  A thread that takes 2^32 + 1 references and gives up one is told that none is
  left (`RefCounts.OverflowLooksReleased`).
* The header comment calls the file enumeration breadth-first. The pending
  directories are on a stack, so it goes down the last subdirectory first
  (`FileEnumeration.EnumerationWalksTree`, `FileEnumeration.NotBreadthFirst`);
  the results come level by level exactly in trees in which nothing below a
  later subdirectory lies deeper than anything below an earlier one
  (`FileEnumeration.BreadthFirstIffLevelled`).
  What the comment concludes, that a directory's entries come before anything
  inside its subdirectories, does hold (`FileEnumeration.EnumerationInOrder`).

## Model

| member | source | states |
|---|---|---|
| Text.TrimIsTrimmed | base/string_util.cc:214-243 | what TrimWhitespace leaves neither starts nor ends in whitespace |
| Text.TrimLeftIsSuffix | base/string_util.cc:214-243 | what is trimmed off the front leaves the rest of the text as it is |
| Text.TrimFixesTrimmed | base/string_util.cc:214-243 | text without whitespace at its ends is left as it is |
| Text.WhitespaceIsListed | base/string_util.cc:119-147 | whitespace is just what the table lists |
| Quoting.QuoteForCommandLineToArgvW | base/command_line.cc:101-141 | the run-by-run index loop produces the quoted form |
| Quoting.ScanQuoteBody | base/command_line.cc:109-137 | inside quotes, the escaped text puts the tokeniser exactly the text further, with no backslash pending at the closing quote |
| Quoting.QuotedTokens | base/command_line.cc:101-141 | the quoted form of any argument, on its own, leaves the tokeniser outside quotes and is that argument alone if it is printable; whatever comes out is printable |
| Quoting.QuotingRoundTrip | base/command_line.cc:101-141 | quoted arguments joined by spaces are tokenised back into the same list if and only if each is non-empty and has a tab only beside a space, backslash or quote |
| Quoting.NotPrintable | base/command_line.cc:104-107 | `a`, a tab and `b` are not quoted and come back as two arguments; an empty string leaves no trace |
| CommandLines.GetSwitchPrefixLength | base/command_line.cc:39-46 | the first prefix in the list that fits, by a loop over the list |
| CommandLines.ParseSwitch | base/command_line.cc:50-64 | whether it is a switch, and its name with prefix and value, split at the first equals sign |
| CommandLines.AppendSwitchesAndArguments | base/command_line.cc:67-87 | the parsing loop has the effect of AppendTokens on argv_, switches_ and begin_args_ |
| CommandLines.CommandLine.NoProgram | base/command_line.cc:146-149 | an empty program, no switches |
| CommandLines.CommandLine.FromProgram | base/command_line.cc:151-155 | the trimmed program alone |
| CommandLines.CommandLine.FromArgv | base/command_line.cc:157-167 | the object that InitFromArgv makes of a fresh one |
| CommandLines.CommandLine.FromString | base/command_line.cc:206-211 | the object that ParseFromString makes of a fresh one |
| CommandLines.CommandLine.InitFromArgv | base/command_line.cc:221-226 | argv_ and begin_args_ start anew, switches_ does not |
| CommandLines.CommandLine.ParseFromString | base/command_line.cc:403-417 | blank text changes nothing; any other is tokenised and initialises the object |
| CommandLines.CommandLine.SetProgram | base/command_line.cc:275-277 | replaces the program by the trimmed one and nothing else |
| CommandLines.CommandLine.AppendSwitchNative | base/command_line.cc:318-335 | the switch, lower-cased and with a prefix, goes behind the last switch, its value into the index |
| CommandLines.CommandLine.AppendArgNative | base/command_line.cc:379-381 | the argument goes to the end |
| CommandLines.CommandLine.CopySwitchesFrom | base/command_line.cc:346-353 | just the named switches that the source has are appended, in the order named; another source is untouched, and the object itself as source is read as it changes |
| CommandLines.CommandLine.AppendArguments | base/command_line.cc:383-388 | the other line's tokens are parsed into this one; another line is untouched |
| CommandLines.CommandLine.HasSwitch | base/command_line.cc:279-281 | whether the lower-cased name is in the index |
| CommandLines.CommandLine.GetSwitchValueNative | base/command_line.cc:302-307 | the value in the index, empty if there is none |
| CommandLines.CommandLine.GetArgs | base/command_line.cc:355-364 | the tokens behind the switches without the first terminator |
| CommandLines.CommandLine.GetArgumentsString | base/command_line.cc:241-269 | the printing loop yields the shown entries joined by spaces |
| CommandLines.CommandLine.GetCommandLineString | base/command_line.cc:228-239 | the quoted program and, if there are any, the parameters |
| CommandLineModel.ReadBackLastWins | base/command_line.cc:318-335 | the map read back from stored switches gives every key the value of its last occurrence, and has no other keys |
| CommandLineModel.EntryParts | base/command_line.cc:327-334 | a stored switch whose name has no equals sign reads back as the same key and value |
| CommandLineModel.RemoveFirstRemovesOne | base/command_line.cc:358-362 | GetArgs removes the first terminator and keeps all that is before and behind it |
| CommandLineModel.IsSwitchExactly | base/command_line.cc:30-64 | a switch is a token of more than one character that starts with a dash or a slash, the two dashes aside |
| CommandLineModel.LowerIsCase | base/command_line.cc:90-96 | lower case leaves no capital letter; two names have the same lower case if and only if they differ in the case of letters only |
| CommandLineModel.KeyOfName | base/command_line.cc:320-327 | whichever prefix a name has, its key is the rest in lower case, and a query finds it if and only if it differs in the case of letters only |
| CommandLineModel.StoredPrefix | base/command_line.cc:328-330 | a name without prefix is stored with two dashes, one with a prefix keeps it |
| NormalForm.Layout | base/command_line.cc:67-87 | however switches and other tokens are mixed, the normalised switches go in input order behind the switches there and all other tokens in input order to the end |
| NormalForm.InitNormalForm | base/command_line.cc:221-226 | argv_ is the trimmed program, the normalised switches and the other tokens, each in input order; begin_args_ is 1 and the number of switches; switches_ is overwritten by what they read back as |
| NormalForm.TerminatorEndsSwitches | base/command_line.cc:76-85 | behind two dashes there are no switches, whatever came before, and what came before is as without them |
| NormalForm.SwitchesWithoutTerminator | base/command_line.cc:76-85 | without two dashes the trimmed tokens that look like switches are the switches, and all others are not |
| NormalForm.InitArgs | base/command_line.cc:355-364 | what GetArgs starts from are the tokens that are no switches |
| NormalForm.ReinitIdempotent | base/command_line.cc:221-226 | initialising a fresh object from argv_ changes nothing if and only if every switch without value has a non-empty name that does not end in whitespace |
| NormalForm.BareTerminatorIsLost | base/command_line.cc:329-334 | for a program and `--=` it does change something |
| SwitchIndex.AppendSwitchIndex | base/command_line.cc:318-335 | appending to a correctly indexed line keeps it so exactly when the name has no equals sign, and otherwise spoils it |
| SwitchIndex.CopySwitchesIndex | base/command_line.cc:346-353 | the same for copied switches |
| SwitchIndex.ConstructorsIndex | base/command_line.cc:146-167 | every constructor yields a correctly indexed line |
| SwitchIndex.RunIndex | base/command_line.cc:318-388 | over every run of mutators switches_ is the last-wins map of argv_[1..begin_args_) at the end if and only if no appended name had an equals sign |
| SwitchIndex.AppendedIsRead | base/command_line.cc:279-335 | after a switch is appended, its value is read under its key in any case, and all other switches read as before |
| SwitchIndex.IndexedIsRead | base/command_line.cc:279-307 | on a correctly indexed line a switch is there if and only if it is stored, and reads as it is stored last; otherwise as the empty string |
| SwitchIndex.CopiedIsRead | base/command_line.cc:346-353 | a named switch that the source has reads as in the source afterwards, the last such name winning |
| SwitchIndex.NotCopiedIsKept | base/command_line.cc:346-353 | any other switch reads as before |
| SwitchIndex.AppendedArguments | base/command_line.cc:383-388 | the program is the other one just if it is to be included; the other switches go behind the own ones and the other arguments behind the own ones |
| SwitchIndex.SecondInitKeepsKeys | base/command_line.cc:221-226 | a second InitFromArgv leaves the keys of the first in the index |
| SwitchIndex.ReusedIndex | base/command_line.cc:221-226 | whatever the index was, it is the last-wins map after InitFromArgv if and only if the new switches cover its keys |
| SwitchIndex.StaleSwitch | base/command_line.cc:221-226 | after `-x` and then a line without switches, `x` is still found |
| RoundTrip.ProgramPart | base/command_line.cc:228-238 | behind a printed program the tokeniser is in the same place and has read the same program if and only if the program has no quote, does not end in a backslash when it is quoted, and has a tab only when it is |
| RoundTrip.PlainTokens | base/command_line.cc:241-269 | the printed parameters of a plain line are tokenised into its stored switches and other tokens |
| RoundTrip.ReparsedIsPlain | base/command_line.cc:241-269 | if the printed parameters parse back into the same switches and tokens, all of them were plain |
| RoundTrip.CommandLineRoundTrip | base/command_line.cc:206-269 | for every argv, printing and parsing again gives the same argv_, switches_ and begin_args_ if and only if the argv is expressible |
| RoundTrip.ObjectRoundTrip | base/command_line.cc:206-269 | for every object, however it was made, printing and parsing again gives it back if and only if its own argv_ initialises it and is expressible |
| RoundTrip.AppendedSpaceIsLost | base/command_line.cc:379-381 | after AppendArg of a space and an `x`, argv_ is expressible and the object does not come back |
| RoundTrip.TrailingBackslashIsDoubled | base/command_line.cc:122-125 | the program `C:\` does not come back |
| RoundTripCounts.ParamsTokens | base/command_line.cc:241-269 | if no printed switch name has a blank or quote and every value and argument is printable, printing and tokenising gives the entries again |
| TokenWeights.QuotedWeight | base/command_line.cc:101-141 | no quoting makes the tokeniser see more quotes and backslashes than the argument has |
| Md5Transform.CoreIsAuxiliary | base/md5.cc:51-55 | the optimised core functions are F, G, H and I of RFC 1321 for all words |
| Md5Transform.StepIsOperation | base/md5.cc:58-59 | a step on the rotated variables is the operation of RFC 1321, section 3.4 |
| Md5Transform.Transform | base/md5.cc:66-146 | the 64 unrolled steps, for every chaining state and every block, are the table-driven rounds of RFC 1321, section 3.4 |
| Md5.ByteReverse | base/md5.cc:39-47 | the words in memory become, on a big- or little-endian machine, the little-endian words of the bytes |
| Md5.ReversedWords | base/md5.cc:39-47 | read as native words afterwards, memory holds the little-endian words of the bytes before |
| Md5.CountUpdate | base/md5.cc:179-184 | the two counter words with their carry hold 8 times the length modulo 2^64 after any update |
| Md5.CountTail | base/md5.cc:184-184 | and from them comes the number of bytes waiting in the buffer |
| Md5.AddBlock | base/md5.cc:205-211 | digesting one more complete block extends the chain by just that block |
| Md5.Context.Init | base/md5.cc:156-164 | an empty message: the chain is the initial value (whose bytes are those of section 3.3), the counter is 0 |
| Md5.Context.Update | base/md5.cc:170-216 | from any valid context, the message is extended by the data: the chain is that of all complete blocks, the buffer starts with the other bytes, the counter counts all bits |
| Md5.Context.Pad | base/md5.cc:227-251 | either branch of the padding feeds the padded message but for its last 56 bytes and the length |
| Md5.PadOne | base/md5.cc:247-250 | with 8 bytes or more free, padding in one block gives the padded message of RFC 1321, section 3.1 |
| Md5.PadTwo | base/md5.cc:239-246 | with fewer, padding in two blocks does |
| Md5.FinalBlock | base/md5.cc:253-257 | the last block with the length completes the chain over the padded message and its length |
| Md5.Context.Final | base/md5.cc:222-261 | the digest of RFC 1321 of the whole message, and a wiped context |
| Md5.Sum | base/md5.cc:278-284 | the digest of RFC 1321 of the data, of which two are known by number |
| Md5.SumOfPieces | base/md5.cc:156-261 | for every message and every way of cutting it into updates, the digest is that of the whole |
| Md5Spec.HashConcat | base/md5.cc:203-211 | digesting blocks one lot after the other is digesting them all |
| Md5Spec.WordAt | base/md5.cc:39-47 | the k-th word of a message is the little-endian word of its k-th four bytes |
| Md5Vectors.InitialBytes | base/md5.cc:158-161 | the initial words are the bytes of RFC 1321, section 3.3, counting up and then down |
| Md5Vectors.EmptyDigest | base/md5.cc:278-284 | the digest of the empty message is the one listed in RFC 1321, appendix A.5 |
| Md5Vectors.LetterDigest | base/md5.cc:278-284 | the digest of "a" is the one listed there |
| IdMap.IDMap.Add | base/id_map.h:58-66 | the pointer under the next id, which is returned; the table may put it anywhere |
| IdMap.IDMap.AddWithID | base/id_map.h:72-77 | the same with the caller's id |
| IdMap.IDMap.Remove | base/id_map.h:79-93 | deletes and erases at depth 0, otherwise notes the id; an unknown id changes nothing |
| IdMap.IDMap.Clear | base/id_map.h:95-104 | releases the whole table at depth 0, otherwise notes all ids |
| IdMap.IDMap.Size | base/id_map.h:119-122 | the number of live entries |
| IdMap.IDMap.Lookup | base/id_map.h:111-117 | the pointer in the table, removed or not |
| IdMap.IDMap.Compact | base/id_map.h:228-235 | removes what was noted, in ascending order, and forgets it |
| IdMap.IDMap.Destroy | base/id_map.h:46-52 | releases what is left |
| IdMap.Iterator.constructor | base/id_map.h:135-139 | enters the map and stops at the first live entry |
| IdMap.Iterator.Copy | base/id_map.h:141-145 | enters the map and stops where the other is, or at the next live entry |
| IdMap.Iterator.Advance | base/id_map.h:180-184 | stops at the next live entry |
| IdMap.Iterator.Destroy | base/id_map.h:154-163 | leaves the map; the last one out compacts it |
| IdMapModel.SizeIsLive | base/id_map.h:119-122 | in every valid state size() is the number of entries that are not noted for removal |
| IdMapModel.RemoveAllKeeps | base/id_map.h:228-235 | removing a set of ids at depth 0, in whatever order, leaves just the other entries, in order |
| IdMapModel.LastLeaveCommits | base/id_map.h:154-163 | destroying the last iterator leaves just the live entries and nothing noted |
| IdMapModel.RemoveTakesOne | base/id_map.h:79-93 | at whatever depth, Remove takes the live entry with its id out of the live entries, and no other |
| IdMapRuns.StepValid | base/id_map.h:58-203 | every operation keeps the map (ids distinct, noted ids among them, none noted at depth 0, depth is the number of iterators) and all iterators valid |
| IdMapRuns.RunValid | base/id_map.h:58-203 | and so does every run |
| IdMapRuns.StopsAtLive | base/id_map.h:193-199 | where an iterator stops, the entry is not noted for removal |
| IdMapRuns.RunProgress | base/id_map.h:79-203 | while an iterator exists no entry leaves the table and none is deleted, and it only moves forward, over entries that were live |
| IdMapRuns.WholeIteration | base/id_map.h:130-203 | an iterator made or copied and run to its end among any removals, clears and other iterators yields every entry from its start on that stays live exactly once, none twice, none after it has been removed, in at most as many steps as there are entries from there |
| IdMapRuns.RunKeepsLive | base/id_map.h:79-203 | over every run without Clear in which its id is not added again, an entry is live at the end if and only if it was live at the start and no Remove named its id |
| IdMapRuns.PointersReleasedOnce | base/id_map.h:46-104 | over every run of an owning map up to its destruction each pointer is deleted just as often as it was added; a map that does not own deletes none |
| IdMapRuns.ClearEmpties | base/id_map.h:95-104 | Clear leaves no live entry if and only if the map owns its pointers, is iterated over, or was empty |
| IdMapRuns.ClearKeepsExternal | base/id_map.h:212-215 | a map of external pointers with one entry keeps it |
| IdMapRuns.LookupIsLive | base/id_map.h:111-117 | Lookup agrees with the live entries if and only if the id is not noted for removal or is stored with a NULL |
| IdMapRuns.AddedIsFound | base/id_map.h:58-77 | what is added under an id is found under it, and nothing else is found differently |
| IdMapRuns.LookupFindsRemoved | base/id_map.h:111-117 | an id removed during an iteration is found |
| LazyInstances.StepValid | base/lazy_instance.h:136-171 | every atomic action of a thread in Pointer() keeps: one creator for each word that is CREATING and none otherwise, and one exit registration for each created instance that wants one, done or about to be |
| LazyInstances.OnceProtocol | base/lazy_instance.h:136-171 | over every interleaving Traits::New runs at most once, the word is CREATING exactly while one thread creates, and every call that has returned gave the one constructed object; that calls do return is PointerReturns |
| LazyInstances.SpinningEnds | base/lazy_instance.cc:18-39 | whenever a thread spins on CREATING some creator can go on, and in at most two of its actions the spinning ends |
| LazyInstances.PointerReturns | base/lazy_instance.h:136-171 | a call on an instance that nobody is creating, if its thread goes on alone, returns within six actions; it constructs the object if and only if there is none, and returns the one there is |
| LazyInstances.CreatedIsMasked | base/lazy_instance.h:144-155 | the fast path takes a word to be an instance if and only if some bit but the lowest is set |
| LazyInstances.ExitDeletesAll | base/lazy_instance.h:200-205 | with no thread inside Pointer(), teardown deletes each created instance that registers once, the last registered first, and sets its word back to 0, so that it is created afresh |
| LazyInstances.ExitValid | base/lazy_instance.h:200-205 | the state after teardown is one from which everything above holds again |
| LazyInstances.ExitIsProcess | base/lazy_instance.cc:53-55 | teardown is OnExit run as the tasks that an AtExitManager with these registrations processes |
| AtExit.Process.Enter | base/at_exit.cc:24-31 | the new manager is on top, with nothing registered |
| AtExit.Process.RegisterTask | base/at_exit.cc:51-59 | the task goes onto the stack of the top manager; without one nothing happens |
| AtExit.Process.ProcessCallbacksNow | base/at_exit.cc:62-75 | the draining loop runs the top manager's tasks in reverse order and leaves its stack empty |
| AtExit.Process.Leave | base/at_exit.cc:33-42 | runs what is left and makes the next manager the top |
| AtExit.PlayKeeps | base/at_exit.cc:24-80 | for arbitrarily nested scopes each task registered has run or is pending, once, and the managers below are untouched |
| AtExit.ScopeRunsAll | base/at_exit.cc:24-80 | a manager that comes and goes runs each task registered meanwhile just once, what is left on its stack last and in reverse order, and leaves the managers below as they were |
| AtExit.LifoOrder | base/at_exit.cc:62-75 | tasks registered one after the other run in exactly the reverse order |
| Atomics.StepValid | base/atomicops_internals_gcc.h:15-100 | a call or a single access to the cell keeps the log and the cell in step |
| Atomics.Linearizable | base/atomicops_internals_gcc.h:15-100 | over every interleaving of loads, stores, exchanges, increments and compare-and-swaps the cell and all results are those of the log, one operation after the other; wherever the run is cut, the log so far stays, and what comes later is, for each thread in order, the operation pending at the cut and those called after it |
| Atomics.CasReturnsOldIffSwapped | base/atomicops_internals_gcc.h:15-25 | CompareAndSwap returns the old value if and only if it found it, and then, and only then, replaced it |
| Atomics.OthersReturnWhatTheyFind | base/atomicops_internals_gcc.h:27-100 | an exchange returns what it found and replaces it, a load returns and leaves it, a store replaces it |
| Atomics.SoloCompletes | base/atomicops_internals_gcc.h:15-53 | from wherever a thread is in an operation, three actions of its own complete it if nobody interferes, with its effect on the cell as it is |
| Atomics.RetryMeansProgress | base/atomicops_internals_gcc.h:27-53 | a loop goes round again only when another operation has taken effect meanwhile |
| Atomics.IncrementsAdd | base/atomicops_internals_gcc.h:41-53 | over every run of increments and loads the cell is the start plus all amounts called for but those still pending, modulo 2^32, and each increment returns its running sum |
| Atomics.SequenceNumbers | base/atomic_sequence_num.h:24-27 | over every run of GetNext calls the k-th to take effect gets k modulo 2^32; the numbers are pairwise distinct if and only if there are at most 2^32 |
| RefCounts.StepValid | base/atomic_ref_count.h:22-39 | when increments and loads are made by holders only (the first increment aside), decrements of no more than is held, and references may be handed over, every action keeps: the count is the number of references held or being released, modulo 2^32, and every thread inside a call vouches for one |
| RefCounts.CountIsReferences | base/atomic_ref_count.h:22-39 | and so over every run |
| RefCounts.ZeroResult | base/atomic_ref_count.h:31-39 | a change returns 0 if and only if it leaves a multiple of 2^32 references |
| RefCounts.OverflowLooksReleased | base/atomic_ref_count.h:22-39 | in a concrete run of one thread a decrement returns false while the thread still holds 2^32 references |
| RefCounts.LastReleaseSeesZero | base/atomic_ref_count.h:22-39 | over every run with fewer than 2^32 references in use no decrement returns false while there are references; when there are none left exactly one has, the last operation of all, and nobody may touch the count any more |
| RefCounts.OneMeansSole | base/atomic_ref_count.h:53-65 | a holder whose load returns 1 holds one reference, and no other thread holds or is releasing any |
| MessagePump.StepFrames | base/message_pump_default.cc:21-69 | every action keeps: all Runs but the innermost are inside a callback that has not quit, and keep_running_ is false just when the innermost one's callback has |
| MessagePump.StepValid | base/message_pump_default.cc:21-83 | and unless a callback is careless, once DoWork has said that it has no work, work that is queued has been or will be announced, or delayed work is overdue |
| MessagePump.DelayedIsTold | base/message_pump_default.cc:33-83 | over every run the time for delayed work is the one told last, by ScheduleDelayedWork or by DoDelayedWork as it returned, or none if a wait has found that past |
| MessagePump.WaitsUntilTold | base/message_pump_default.cc:48-59 | over every run a wait has a timeout if and only if there is such a time |
| MessagePump.RoundOfTheLoop | base/message_pump_default.cc:24-45 | in a round without Quit, DoDelayedWork follows DoWork whatever that said, DoIdleWork follows if neither did anything, and a wait only if that did nothing either |
| MessagePump.WaitEndsInDoWork | base/message_pump_default.cc:48-61 | there is no wait if delayed work is overdue, a timeout just if some is scheduled; and however it ends DoWork comes next, the signal used up if there was one |
| MessagePump.NoLostWakeup | base/message_pump_default.cc:24-75 | after any run without a careless return the pump is not blocked with work queued, no signal, and every producer past its ScheduleWork |
| MessagePump.CarelessnessLoses | base/message_pump_default.cc:24-75 | from every valid state, after an action a wakeup can be lost without further carelessness if and only if that action is a careless return, and lost in a wait without timeout if and only if it also leaves no delayed work scheduled |
| MessagePump.ConsiderateKeepsWakeups | base/message_pump_default.cc:24-75 | no wakeup is lost if callbacks that ran a nested loop report work unless the queue is empty |
| MessagePump.KeepRunningAtEntryAndExit | base/message_pump_default.cc:21-65 | keep_running_ is true wherever a Run is entered and wherever one has just returned, and it returns to the Run around it |
| MessagePump.QuitStep | base/message_pump_default.cc:67-69 | after Quit the next thing that happens to the loops is that the callback returns and the innermost Run ends |
| MessagePump.QuitEndsInnermost | base/message_pump.h:92-109 | from a Quit until the callback returns no delegate call is made and no Run begins or ends; then just the innermost ends, and those around it are untouched |
| MessagePump.CarelessIdleLosesWakeup | base/message_pump_default.cc:40-49 | an idle callback that runs a nested loop and returns false can leave the pump blocked with announced work |
| FileTree.ListedIsThere | base/file_util_win.cc:672-693 | a child is in the listing that the find calls report exactly when it lies at its path |
| FileTree.FindReports | base/file_util_win.cc:686-693 | the entries that match a pattern are distinct and lie in the tree |
| FileTree.SizeHalves | base/file_util.cc:269-271 | the two halves of a size are 32 bits each and make up the size |
| FileEnumeration.PoppedWeight | base/file_util_win.cc:670-679 | looking into a directory leaves less to do than it was itself, which bounds the traversal |
| FileEnumeration.FileTypes | base/file_util.h:441-444 | bit 0 of the file type asks for files, bit 1 for directories, bit 2 for the parent entry; the directory itself is never returned |
| FileEnumeration.EnumerationExact | base/file_util_win.cc:667-729 | an enumeration finds an entry if and only if it lies below the root (directly, unless it is recursive), is of a wanted kind, and its first name matches the pattern, or is the parent entry where that was asked for |
| FileEnumeration.EnumerationInOrder | base/file_util.h:453-456 | each path is found once; the entries of one directory come together; and before anything inside its subdirectories |
| FileEnumeration.EnumerationWalksTree | base/file_util_win.cc:670-720 | the loop with a stack is the recursive walk that goes through the last subdirectory first |
| FileEnumeration.NotBreadthFirst | base/file_util.h:524-527 | in a concrete tree an entry three levels down comes before one two levels down |
| FileEnumeration.BreadthFirstIffLevelled | base/file_util.h:453-456 | the results come level by level if and only if, among the subdirectories of each directory gone through, nothing wanted below a later one lies deeper than anything wanted below an earlier one |
| FileEnumeration.EnumerationTotal | base/file_util.cc:262-277 | the sizes of the files found add up to the size of the tree |
| FileEnumerators.FileEnumerator.constructor | base/file_util_win.cc:601-627 | everything is still to come |
| FileEnumerators.FileEnumerator.Next | base/file_util_win.cc:667-729 | returns the next result with its find data and leaves the rest; after the last one the empty path, for ever |
| FileEnumerators.FileEnumerator.Fetch | base/file_util_win.cc:671-698 | the find calls report the entries of the open directory, then those of the top pending one, one by one; nothing still to come is lost |
| FileEnumerators.FileEnumerator.GetFindInfo | base/file_util_win.cc:634-641 | the data of the result that Next returned last; before the first and after the last one the caller's data stay |
| FileEnumerators.ComputeDirectorySize | base/file_util.cc:262-277 | the sum of all file sizes in the tree, in 64 bits |

## Left out

- The Windows build of `command_line.cc` is modelled: three prefixes, names lower-cased, values and arguments quoted. The POSIX variant prints without quoting and promises nothing about parsing again.
- Unicode: characters are Dafny's; the conversions between narrow and wide names and the ASCII and UTF-8 checks are identities here.
- `CommandLineToArgvW` is a system call; it is given by its published rules. The undocumented treatment of two quotes in a row inside a quoted part is not modelled; the printer only prints such a pair from a switch name with quotes in it, which is not expressible anyway.
- CommandLines.CommandLine.AppendArguments: on the object itself it requires that there are no parameters, because otherwise the source loops for ever over a vector that it extends.
- `PrependWrapper` (its split routine is not part of this model), the process-wide instance, and the ASCII and path accessors, which only convert.
- MD5's hexadecimal form and `MD5String`.
- `unsigned` counts of `byteReverse` are natural numbers; the caller never passes 0, for which the source would wrap around.
- IdMap.IDMap.Add: requires that the next id is below the largest 32-bit number and, like AddWithID, that the id is not in use, as the source's assertions do.
- IdMapRuns.WholeIteration: is about runs without Add during an iteration, because an insertion may rehash the table and leave iterators without meaning.
- `IDMap::Iterator::operator=` refers to fields that do not exist and cannot be instantiated; thread checks and destructors that call back into the map are not modelled.
- Lazy instances, atomics and the message pump are state machines on values, with sequentially consistent memory; barriers are not modelled, nor is the update in place of the one word or cell.
- In the model of `LazyInstance`, the compare-and-swap is one action beside loads and stores; that the retry loop behind it behaves as one, at a moment within its call and in the company of such loads and stores, is `Atomics.Linearizable`.
- RefCounts.LastReleaseSeesZero: needs room in the 32-bit count; which threads may take the first reference, and what is done to the counted object, are not modelled.
- `Traits::New` may return any number but 0 and 1; what it constructs, and the alignment of the buffer, are not modelled.
- Exit callbacks that register or process callbacks themselves: the lock is held while they run.
- The time that a timed wait takes, and fairness between threads.
- The find calls, the attributes other than "directory", file times, and a tree that changes while it is read. Which names a pattern matches is the system's affair and is left open.
- FileEnumerators.ComputeDirectorySize: wraps around beyond 64 bits, where the source leaves the result undefined.
- Joining paths: a path is a list of names, so separators, drive letters and the special role of "." as a prefix do not appear.
- `base/file_util_win.cc` other than the enumerator, and all platform code beside these files.
