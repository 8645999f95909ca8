# Verified models of the torch_supa runtime support code

This project models the parts of `torch_supa` (a PyTorch backend for Biren devices) that
carry real state or real algorithms, and proves what they promise. One file holds one module.

| files | what they model |
|---|---|
| `EventForest`, `EventTree`, `EventNesting` | the profiler's event list: nesting events with a stack, collapsing duplicate nodes in place |
| `MemRecords`, `KernelLinks`, `KinetoParse` | turning raw Kineto events into `FunctionEvent`s: memory charged through a sorted index, device kernels handed to the operators that launched them, runtime events moved to their operator's thread |
| `TreeTotals`, `DeviceTotals`, `Profile`, `Conservation` | the accounting laws of the finished list: bytes, CPU time, kernel time; exactly when bytes are conserved |
| `KeyAverages` | `key_averages` and `total_average` |
| `ProfilerRun`, `StepTracker` | the profiler's schedule-driven protocol and the shared step count |
| `LazyInit`, `LazyCalls`, `DeviceScopes` | lazy initialisation under every interleaving and what becomes of its calls, scoped device and stream state |
| `SplitGroups`, `GroupRegistry` | process-group splitting and the registry of groups |
| `ConditionText`, `Conditions`, `ConditionSyntax`, `Preprocessor` | the code generator's preprocessor filter: what it finds of a condition, what the condition is worth by the standard, the grammar against its own printed form, and the filter itself |
| `BlockScanner` | the block scanners of the native code generator |
| `GraphedGrads` | gradient padding and reversal in graph capture |
| `StringLiteral`, `Utf8` | the escaping printer and the UTF-8 recogniser of the vendored gtest |
| `Sums`, `Picks`, `Sorting`, `Grouping`, `Strings`, `Wrappers` | sums, filtered lists, stable sorting, `itertools.groupby`, substrings, option and result types |

Code that updates objects is modelled by classes and methods that are proved against a
value-level specification; what the code promises is then proved about that specification.
Times are exact integers in nanoseconds, so the rounding of `/ 1000` and `* 1000` plays no
role; integers are unbounded as in Python. Text is ASCII. Native calls appear as parameters
or as small stated contracts.

## Main results

- **Accounting from raw events to the finished tree** (`Profile.EnsureFunctionEvents`). For every
  raw event list the self bytes of the finished list are the bytes of all records, record `j`
  counted once per top event whose closed interval holds its instant, or once on its own if no
  CPU event covers it. The total self CPU time is the sum of the durations of the top events.
  The kernel time is what the correlation pass handed out less exactly what duplicate removal
  loses. A linked runtime event that lies within its operator's time is never a top event.
- **How often a record counts**, decided on raw events. Without out-of-memory records the self bytes
  of the finished list are the sum over all records of their bytes times the number of outermost
  synchronous CPU events over their instant, twins (one thread, same time) taken once, or once if
  no CPU event covers them (`Conservation.BytesFromRaw`). So a record counts more than once if and
  only if two outermost events that are not twins share its instant
  (`Conservation.CountedTwiceIff`), and drops out if and only if asynchronous CPU events alone
  cover it (`Profile.DroppedIff`); where the former happens to no record, the self bytes are the
  record bytes less those that drop out (`Conservation.BytesLessDropped`). No instant at all lies
  in two top events if and only if any two outermost events are disjoint as closed intervals or
  twins (`Conservation.TopsApartIff`). By device type, host records make up the self CPU memory and
  records of PrivateUse1 and HIP the self device memory (`Conservation.BytesByType`).
- **The other totals from raw events.** The total self CPU time is the sum of the durations of the
  outermost synchronous CPU events, twins taken once (`Conservation.CpuTimeFromRaw`). The kernel
  time is that of the stand-in kernels and of the PrivateUse1 events, each once per event that its
  linked id names, less what duplicate removal loses (`Conservation.KernelTimeFromRaw`); every
  kernel before that removal is read off the raw events too (`Conservation.TreeKernelsFromRaw`).
- **The stack sweep finds innermost parents** (`EventNesting.InnermostParents`), for partial
  overlaps and zero-length events too, whenever `groupby` groups by thread and node, and
  `EventNesting.GroupsAreClassesIff` says exactly when that is.
- **Duplicate removal** takes an event off the list if and only if it was the only child of a parent
  with its own name in the tree the call began with; it keeps links sound, order and ancestry of
  survivors, and leaves nothing removable (`EventTree.EventList.RemoveDupNodes`,
  `EventForest.GoneIff`, `EventForest.CollapseRemoves`).
- **Lazy initialisation** is safe in every interleaving (`LazyInit`); which queued calls run is
  decided by the drain's last length test, whatever failed before (`LazyInit.QueuedCallRunsIff`).
  Every call of `_lazy_call` is run at once or queued, once, by its own test of `_initialized`
  (`LazyCalls.CallOutcome`, `LazyCalls.CallsAddUp`).
- **Nested device and stream scopes** restore the streams always and the device exactly if no entry
  leaks it, which is read off the program's text (`DeviceScopes.ScopesRestoreIff`).
- **The preprocessor filter** reads an `#if` line as section 19.1 of ISO C++17 does if and only if its
  text is of a stated kind (`Conditions.IfRightIff`): roughly, what is joined to the first comparison
  must not change its outcome, and that comparison must be between version names. It keeps the
  standard's lines on every file whose conditions, as far as they are reached, are of that kind, and
  else exactly as far as it takes the same parts (`Preprocessor.FilterIsStandard`). Files that only
  compare TORCH_VER with version names, without `#elif`, are such files
  (`Preprocessor.VersionFilesAreStandard`).
- **The block scanner** cuts a file at the right lines if and only if no header closes its own braces,
  or opens none and is followed by a line that opens none either (`BlockScanner.SegmentsRightIff`);
  then it removes exactly the blocks in whose text a skipped operator is registered, and no other
  line (`BlockScanner.SegmentsLeft`).
- **The printer's output reads back** as the same bytes if and only if no NUL directly precedes an
  octal digit (`StringLiteral.RoundTrip`), and `IsValidUTF8` accepts exactly UTF-8.

## Where the code differs from what one might expect

- `_remove_dup_nodes` replaces the parent's kernels instead of merging them, so kernel time is
  lost: exactly the kernel time of the original parents of the removed events
  (`EventForest.CollapseLosesKernelTime`, smallest case in `KernelTimeLossExample`).
- The comment above `groupby` says that events are grouped by thread and node, but the list is
  sorted by thread alone. The groups are what the comment says if and only if no event of another
  node stands between two events of one thread and node (`EventNesting.GroupsAreClassesIff`,
  smallest failure in `OtherNodeSplitsGroup`). Kineto results come from one node, where a group
  is a whole thread (`EventNesting.OneNodeGroup`).
- Two top events that share an instant both charge a record at that instant, so two operators back
  to back report an allocation between them twice (`Conservation.SharedInstantCountsTwice`, with
  numbers in `SharedInstantExample`); records covered only by asynchronous CPU events drop out of
  the totals (`Profile.DroppedIff`).
- Front-end events that share a correlation id each receive all kernels linked to it
  (`HandedOver` in `KernelLinks`).
- The step tracker registers a late requester at the current global count, so its first step
  moves the count on (`StepTracker.LateRequesterMovesOn`).
- Going from RECORD straight to WARMUP leaves the next trace start without a prepare
  (`ProfilerRun.PreparedIff` says that this is the only way).
- A call queued by a thread that saw "not initialised" can be appended after the drain's last
  length test; it is then never run (`LazyInit.LostCallExample`, `LazyInit.QueuedCallRunsIff`).
- `device.__enter__` switches the device first and calls `_lazy_init()` last. If that call raises,
  `__exit__` never runs and the device stays switched (`DeviceScopes.EntryLeakExample`). One scope
  restores if and only if this does not happen to it (`OneScopeRestoresIff`); in a nest, a scope
  around the leak puts the device back if it had changed it (`EnclosingScopeRestores`). Since
  initialisation is for good, only the first scope that is not a no-op can leak
  (`OnlyFirstScopeLeaks`). The native
  `_supa_getDevice` tries the initialisation before the switch, but only until it once returned
  normally, which a call from inside a queued call that fails later already does.
- The documentation of `device` says that a negative index is a no-op. It is one if and only if it
  is -1; every other negative index raises (`DeviceScopes.NegativeIndexNoOpIff`).
- A scope for the device that is already current does not undo a raw `set_device` in its body
  (`DeviceScopes.DeviceScopeLeaks`), and entering one `device` object twice forgets the device to
  go back to (`DeviceScopes.Reenter`).
- The documentation of `_abort_process_group` says that no group means all groups; the code
  aborts the default group alone, and a second such call fails
  (`GroupRegistry.AbortWithoutGroup`).
- The filter reads the first comparison of a condition and nothing behind it. A range
  `TORCH_VER >= A && TORCH_VER < B` of version names is read right if and only if the version is below
  `A` or below `B` (`Conditions.RangeRightIff`). The line at
  `torch_supa/csrc/distributed/symm_mem/SUPASymmetricMemory.su:689` reads as true at version 2.9.0
  (`Conditions.RangeExample`).
- It takes a number for 0, so a comparison with one is read right if and only if 0 would give the same
  (`Conditions.NumberRightIff`). The line at `torch_supa/csrc/distributed/ProcessGroupBCCL.cpp:682`
  reads as true at version 2.5.0 (`Conditions.NumberExample`). The filter only looks at the
  files under `ops` and `common`, where neither line stands.
- The condition patterns ask for `#if`, so the condition of an `#elif` is never evaluated. The line
  reads as true unless a false comparison stands behind an `#if` further on in it
  (`Preprocessor.ElifReadsFalseIff`); `Preprocessor.ElifExample` is a file of four lines on which
  the filter keeps a line that the standard drops.
- Directives are told by their beginning: blanks behind the `#` hide one, and a word that only begins
  like one counts (`Conditions.KindRightIff`).
- The block scanner takes a line behind every header before it looks at the braces. Behind a
  registration on one line it drops an unrelated line (`BlockScanner.LineBehindIsLost`, with text in
  `LineLostExample`); if neither the header nor the next line opens a brace, the block is cut short
  and a named registration stays (`BlockScanner.RegistrationStays`).
- The documentation of the step tracker says that the global step is the maximum of the dictionary's
  values. It is if and only if some requester drew level with it and has neither been erased nor
  outrun since (`StepTracker.MaximumIff`, smallest failure in `LeaderErased`).

## Model

| member | source | states |
|---|---|---|
| EventForest.LiftLinks | torch_supa/profiler/profiler_util.py:47-52 | lifting a sole same-named child keeps parent and child links mutual, closed and acyclic, and removes just that event |
| EventForest.LiftKeepsTests | torch_supa/profiler/profiler_util.py:43-52 | lifting one event changes neither the name, nor the rootness, nor the outcome of the removal test of any other |
| EventForest.LiftKeepsAncestry | torch_supa/profiler/profiler_util.py:47-52 | among the other events, ancestry is the same before and after |
| EventForest.CollapseRemoves | torch_supa/profiler/profiler_util.py:40-57 | a pass in any order removes exactly the events that pass the test in the original forest; links stay sound and acyclic; no survivor's test outcome changes |
| EventForest.GoneIff | torch_supa/profiler/profiler_util.py:43-57 | after a full pass an event is gone if and only if it had a parent with its own name whose list of children was just that event |
| EventForest.OwnNameStays | torch_supa/profiler/profiler_util.py:43-47 | an only child with a name of its own stays, with all its links |
| EventForest.CollapseLeavesNoDup | torch_supa/profiler/profiler_util.py:40-57 | after a full pass no sole child carries its parent's name, so the second sweep of the `while` loop finds nothing |
| EventForest.CollapseKeepsAncestry | torch_supa/profiler/profiler_util.py:40-57 | survivors are ancestors of each other exactly if they were before |
| EventForest.CollapseTakesFromBottom | torch_supa/profiler/profiler_util.py:48-49 | a survivor ends up with the children and kernels of the last event of its run of sole same-named children |
| EventForest.SelfTotalIsRootTotal | torch_supa/profiler/profiler_util.py:548-585 | self values telescope: their sum over a forest is the sum of the roots' values |
| EventForest.CollapseKeepsSelfTotal | torch_supa/profiler/profiler_util.py:39-57 | removal leaves the total of any self value unchanged, equal to the sum over the roots |
| EventForest.CollapseLosesKernelTime | torch_supa/profiler/profiler_util.py:49 | kernel time after a pass is the time before less the kernel time of the original parents of all removed events |
| EventForest.KernelTimeLossExample | torch_supa/profiler/profiler_util.py:49 | a concrete two-event tree that loses its only kernel |
| EventTree.FunctionEvent.constructor | torch_supa/profiler/profiler_util.py:454-517 | a new event holds the given values, no kernels, no children, no parent |
| EventTree.FunctionEvent.AppendKernel | torch_supa/profiler/profiler_util.py:519-521 | a CPU event's kernel list grows by the given kernel at the end |
| EventTree.EventList.LiftUp | torch_supa/profiler/profiler_util.py:48-51 | the in-place link update is the value-level lift on the whole live heap |
| EventTree.EventList.RemovePass | torch_supa/profiler/profiler_util.py:41-52 | one sweep marks exactly the positions that passed the test before the sweep, and leaves the collapsed links |
| EventTree.EventList.Keep | torch_supa/profiler/profiler_util.py:55 | the comprehension keeps exactly the events not marked, in order |
| EventTree.EventList.Refill | torch_supa/profiler/profiler_util.py:56-57 | the list is replaced and no event's links change |
| EventTree.EventList.RemoveDupNodes | torch_supa/profiler/profiler_util.py:39-57 | terminates; an event leaves the list if and only if it was the only child of a parent with its own name, and the rest keeps its order; links are the collapse of the old ones, sound and acyclic; nothing removable is left |
| EventTree.SurvivorElements | torch_supa/profiler/profiler_util.py:55 | the kept list has no repetition and holds all events but the removed ones |
| EventTree.SurvivorPlaces | torch_supa/profiler/profiler_util.py:55 | the kept list is what stands at the places that fail the removal test, in order |
| EventTree.KeptFields | torch_supa/profiler/profiler_util.py:43-57 | in the events' own fields: exactly the only children of same-named parents leave the list |
| EventTree.CollapsedList | torch_supa/profiler/profiler_util.py:39-57 | list and links fit together after removal and are a fixed point of the pass |
| EventNesting.LastFitMeaning | torch_supa/profiler/profiler_util.py:110-125 | characterises the wanted parent: the last earlier event that ends after the child starts and not before the child ends, or none |
| EventNesting.TopIsParent | torch_supa/profiler/profiler_util.py:110-125 | when popping stops, the stack top is that parent |
| EventNesting.PopKeeps | torch_supa/profiler/profiler_util.py:113-118 | a popped event can never be the innermost fit again; the stack stays a nested chain |
| EventNesting.PushKeeps | torch_supa/profiler/profiler_util.py:127 | pushing keeps the stack a nested chain and the invariant of the sweep |
| EventNesting.AddChild | torch_supa/profiler/profiler_util.py:120-124 | the event has no parent yet; linking it under its parent extends the parent's child list and leaves every other link |
| EventNesting.NestThread | torch_supa/profiler/profiler_util.py:104-127 | after the sweep of one sorted group every event has the wanted parent, and its children are exactly the events whose wanted parent it is, in sweep order |
| EventNesting.GroupsPartition | torch_supa/profiler/profiler_util.py:75-107 | the groups hold every synchronous CPU event exactly once, each group in sweep order |
| EventNesting.PopulateCpuChildren | torch_supa/profiler/profiler_util.py:59-127 | every group is nested as wanted; all other events stay unlinked |
| EventNesting.Populate | torch_supa/profiler/profiler_util.py:59-127 | the same, and no kernel list or thread changes |
| EventNesting.NestingBuildsForest | torch_supa/profiler/profiler_util.py:103-127 | the links form a sound acyclic forest in which parents cover their children in time |
| EventNesting.GroupsAreClassesIff | torch_supa/profiler/profiler_util.py:80-107 | every group is all synchronous CPU events of one thread and node if and only if, in the list sorted by thread, no event of another node stands between two events of one thread and node |
| EventNesting.OneNodeUninterrupted | torch_supa/profiler/profiler_util.py:80-89 | a list of one node is never interrupted |
| EventNesting.OneNodeGroup | torch_supa/profiler/profiler_util.py:80-107 | if all events come from one node, a group is all synchronous CPU events of one thread in sweep order |
| EventNesting.InnermostParents | torch_supa/profiler/profiler_util.py:59-127 | if no class of thread and node is interrupted, every synchronous CPU event has as parent the last earlier event of its thread and node that fits around it, or none if none does |
| EventNesting.InsideHasParent | torch_supa/profiler/profiler_util.py:59-127 | an event inside another event of its thread and node has a parent |
| EventNesting.OtherNodeSplitsGroup | torch_supa/profiler/profiler_util.py:80-89 | an event of another node between two events of one thread and node splits their group |
| Sorting.SortBySorts | torch_supa/profiler/profiler_util.py:104-107 | sorting by a key orders the list and keeps its elements |
| Sorting.SortByPermutes | torch_supa/profiler/profiler_util.py:80-83 | sorting permutes |
| Sorting.SortByStable | torch_supa/profiler/profiler_util.py:80-83 | elements with equal keys keep their order |
| Sorting.SortByKeepsFiner | torch_supa/profiler/profiler_util.py:80-83 | elements with equal values of a finer key keep their order too |
| Grouping.RunsConcat | torch_supa/profiler/profiler_util.py:87-89 | the groups of `groupby` put together are the list |
| Grouping.RunsAlternate | torch_supa/profiler/profiler_util.py:87-89 | each group has one key and its right neighbour another |
| Grouping.SortedRuns | torch_supa/profiler/profiler_util.py:87-89 | on a list sorted by the key the groups are the key classes, in rising order |
| Grouping.OneRunIff | torch_supa/profiler/profiler_util.py:87-89 | every key has one group if and only if no element with another key stands between two elements of one key |
| Grouping.RunsAreClassesIff | torch_supa/profiler/profiler_util.py:87-89 | each group is the whole class of its key under the same condition |
| MemRecords.MemRecordsAcc.constructor | torch_supa/profiler/profiler_util.py:421-427 | builds a sorted index that lists every record position once |
| MemRecords.MemRecordsAcc.InInterval | torch_supa/profiler/profiler_util.py:429-437 | selects exactly the records a linear scan of the closed interval would, each once, by start time and then position; empty for a reversed interval |
| MemRecords.MemRecordsAcc.SelectedRange | torch_supa/profiler/profiler_util.py:434-437 | the slice between the two bisections is that selection |
| MemRecords.BisectLeft | torch_supa/profiler/profiler_util.py:434 | the first position whose element is not below the bound |
| MemRecords.BisectRight | torch_supa/profiler/profiler_util.py:435 | the first position whose element is above the bound |
| KernelLinks.Correlate | torch_supa/profiler/profiler_kineto.py:560-570 | keeps `device_corr_map` the linked events by id in list order, and the front-end list the events with id 0 |
| KernelLinks.Attach | torch_supa/profiler/profiler_kineto.py:579-592 | one operator receives the kernels of its linked device events in order; its linked CPU events take its thread; others do not change |
| KernelLinks.Serve | torch_supa/profiler/profiler_kineto.py:573-592 | the same per event of the whole list, including operators without linked events and asynchronous ones |
| KernelLinks.Associate | torch_supa/profiler/profiler_kineto.py:572-592 | afterwards every event holds its old kernels and all kernels linked to it, and every linked CPU event has the thread of its last owner |
| KernelLinks.LastOwner | torch_supa/profiler/profiler_kineto.py:573-578 | the last front-end synchronous CPU event with the given id, if any |
| KernelLinks.SharesAddUp | torch_supa/profiler/profiler_kineto.py:572-592 | device time summed by operator equals device time summed by device event, each taken once per owner of its id |
| KinetoParse.ChargeMemory | torch_supa/profiler/profiler_kineto.py:505-512 | CPU and device bytes of exactly the records within the closed interval; exactly those are marked |
| KinetoParse.SelectedSum | torch_supa/profiler/profiler_kineto.py:507-512 | the sum over the selected positions is the sum over all records with the others at zero |
| KinetoParse.BytesByDevice | torch_supa/profiler/profiler_kineto.py:471-485 | the bytes of a record count for the host if its device is CPU, MKLDNN or IDEEP, for the device if it is PrivateUse1 or HIP, and else for neither |
| KinetoParse.FilteredNames | torch_supa/profiler/profiler_util.py:736-748 | exactly eight names never become events |
| KinetoParse.StepNames | torch_supa/profiler/profiler_util.py:754-760 | names of numbered profiler steps become one name, all others stay |
| KinetoParse.NamedPlaces | torch_supa/profiler/profiler_kineto.py:463-468 | the records are all raw events of that name, in order |
| KinetoParse.ListedPlaces | torch_supa/profiler/profiler_kineto.py:496-498 | the raw events that become events are all without a filtered name, in order |
| KinetoParse.BuildEvent | torch_supa/profiler/profiler_kineto.py:499-558 | the event of one raw event: relative times, rewritten name, asynchrony, charged bytes, stand-in kernel |
| KinetoParse.BuildEvents | torch_supa/profiler/profiler_kineto.py:496-570 | one event per unfiltered raw event, in order; marks exactly the covered records; `max_evt_id` is the largest id; fails exactly if an unfiltered event has a negative linked id |
| KinetoParse.BuildMain | torch_supa/profiler/profiler_kineto.py:496-592 | the same followed by the correlation pass: kernels and threads of every event |
| KinetoParse.ThreadsFromRaw | torch_supa/profiler/profiler_kineto.py:560-592 | the thread of every event after the correlation pass, read off the raw events: that of the last owner of its linked id, or its own |
| KinetoParse.RawThreadMeaning | torch_supa/profiler/profiler_kineto.py:573-592 | a linked CPU event ends up in the starting thread of the last unlinked synchronous CPU event that carries its linked id, every other in its own |
| KinetoParse.BuildTopLevel | torch_supa/profiler/profiler_kineto.py:594-627 | a zero-length CPU event with the record's bytes for each unmarked record, in order, numbered on from `max_evt_id` |
| KinetoParse.ParseKinetoResults | torch_supa/profiler/profiler_kineto.py:459-632 | all those events, pairwise different, by start and at equal starts the one that ends later first; the ids of the record events go on from the largest; fails exactly on a negative linked id |
| TreeTotals.SelfTotalIsTopTotal | torch_supa/profiler/profiler_util.py:548-585 | for each metric the self values of a list add up to the totals of its synchronous CPU events without parent |
| TreeTotals.CollapseKeepsSyncLinks | torch_supa/profiler/profiler_util.py:39-57 | after removal links still join synchronous CPU events only |
| TreeTotals.CountTwice | torch_supa/profiler/profiler_kineto.py:505-512 | charging summed by record equals charging summed by top event plus the uncovered records |
| TreeTotals.RecordEventIsTop | torch_supa/profiler/profiler_kineto.py:594-622 | the event of an uncovered record never gets a parent |
| TreeTotals.TopTotalAccounted | torch_supa/profiler/profiler_kineto.py:459-627 | the totals of the top events are the record bytes, each as often as the counting formula says, plus the out-of-memory events |
| DeviceTotals.DeviceTimeGranted | torch_supa/profiler/profiler_kineto.py:547-592 | the kernel time of the fresh tree is the stand-in kernels plus each linked device event once per owner |
| DeviceTotals.GrantedFromRaw | torch_supa/profiler/profiler_kineto.py:547-592 | the kernel time handed out, from the raw events: stand-in times, and each PrivateUse1 event once per unlinked synchronous CPU event that its linked id names |
| DeviceTotals.KernelsFromRaw | torch_supa/profiler/profiler_kineto.py:547-592 | the kernels of a parsed event one by one, with names, devices and durations, from the raw events |
| DeviceTotals.OneOwner | torch_supa/profiler/profiler_kineto.py:573-592 | if an id has at most one owner, its device events count once with an owner and not at all without |
| Profile.AfterRemoval | torch_supa/profiler/profiler_util.py:39-57 | removal leaves links sound and the set of top events unchanged |
| Profile.AllBalanced | torch_supa/profiler/profiler_kineto.py:346-378 | the finished list obeys the byte law and the CPU time law for every input |
| Profile.ChargedHasTop | torch_supa/profiler/profiler_kineto.py:505-512 | without asynchronous CPU events a charged record lies within some top event |
| Profile.CoveredHasTop | torch_supa/profiler/profiler_kineto.py:505-512 | a record that a synchronous CPU event covers lies within some top event |
| Profile.DroppedIff | torch_supa/profiler/profiler_kineto.py:505-512 | a record counts not at all if and only if asynchronous CPU events cover it and no other CPU event does |
| Profile.CountedOnce | torch_supa/profiler/profiler_kineto.py:459-627 | with top events disjoint as closed intervals as well, each record counts exactly once |
| Profile.BytesConserved | torch_supa/profiler/profiler_kineto.py:459-627 | under the three conditions the self bytes of the finished list are the bytes of all memory records |
| Profile.LinkedGetsParent | torch_supa/profiler/profiler_kineto.py:587-592 | a linked CPU event within its operator's time gets a parent, whatever thread it came from |
| Profile.InsideMainHasParent | torch_supa/profiler/profiler_util.py:103-127 | an event of the parse that lies inside another one of its final thread has a parent |
| Profile.LinkedStayBelow | torch_supa/profiler/profiler_kineto.py:587-592 | such an event is no top event of the finished list either |
| Profile.KernelTimeAccounted | torch_supa/profiler/profiler_kineto.py:547-592 | kernel time of the finished list = handed out, less what removal lost |
| Profile.ParseAndNest | torch_supa/profiler/profiler_kineto.py:346-367 | parse and nesting give a sound acyclic tree over exactly the parsed events, with the kernels handed out |
| Profile.MainFields | torch_supa/profiler/profiler_kineto.py:518-544 | a raw event's id, name, times, asynchrony and device are those of its parsed event |
| Profile.RecordFields | torch_supa/profiler/profiler_kineto.py:594-627 | the events of records have no length and carry the name of their kind |
| Profile.EnsureFunctionEvents | torch_supa/profiler/profiler_kineto.py:346-378 | the whole pipeline: list and links are the collapse of a tree with innermost parents; byte law, CPU time law, conservation under the three conditions, kernel time law, linked events below the top, no duplicate left; fails exactly on a negative linked id |
| Profile.AppendOldEvents | torch_supa/profiler/profiler_kineto.py:371-374 | with `acc_events` the earlier events are appended and the self totals add up, otherwise nothing changes |
| Conservation.ParentIsMain | torch_supa/profiler/profiler_util.py:103-127 | the parent of a parsed event is a parsed event of the same final thread around it |
| Conservation.TopTwin | torch_supa/profiler/profiler_util.py:103-127 | above an outermost event there is nothing but events of its thread over the same time |
| Conservation.SeparateIff | torch_supa/profiler/profiler_util.py:103-127 | for every assignment of parents that the sweep can make, top events are disjoint if and only if any two outermost events are disjoint or twins |
| Conservation.TopsApartIff | torch_supa/profiler/profiler_kineto.py:346-367 | no instant lies in two top events of the tree if and only if any two outermost synchronous CPU raw events are disjoint as closed intervals or twins |
| Conservation.TopsAreLeaders | torch_supa/profiler/profiler_util.py:103-127 | over every instant there are as many top events as outermost raw events, twins taken once, for every assignment of parents that the sweep can make |
| Conservation.TimesFromRaw | torch_supa/profiler/profiler_kineto.py:505-512 | how often a record counts, from the raw events alone: once per outermost event over its instant, twins taken once, or once on its own if no CPU event covers it |
| Conservation.CountedTwiceIff | torch_supa/profiler/profiler_kineto.py:505-512 | a record counts more than once if and only if two outermost synchronous CPU raw events that are not twins share its instant |
| Conservation.BytesFromRaw | torch_supa/profiler/profiler_kineto.py:346-378 | without out-of-memory records the self bytes of the finished list are the bytes of each record times that number |
| Conservation.BytesByType | torch_supa/profiler/profiler_kineto.py:471-512 | the same by device types: host types for the self CPU memory, PrivateUse1 and HIP for the self device memory, others nowhere |
| Conservation.CpuTimeFromRaw | torch_supa/profiler/profiler_kineto.py:346-378 | the total self CPU time of the finished list is the sum of the durations of the outermost synchronous CPU raw events, twins taken once |
| Conservation.TreeKernelsFromRaw | torch_supa/profiler/profiler_kineto.py:547-592 | the kernels of every parsed event in the tree before removal, from the raw events |
| Conservation.KernelTimeFromRaw | torch_supa/profiler/profiler_kineto.py:346-378 | the kernel time of the finished list: stand-in and linked device times of the raw events, less the kernel time of the original parents of removed events |
| Conservation.BytesLessDropped | torch_supa/profiler/profiler_kineto.py:346-378 | if no record's instant is shared in that way, and without out-of-memory records, the self bytes of the finished list are the bytes of all records less those covered by asynchronous CPU events alone |
| Conservation.SharedInstantCountsTwice | torch_supa/profiler/profiler_kineto.py:505-512 | for two operators back to back and a record at the shared instant, the finished list reports the record's bytes twice |
| Conservation.SharedInstantExample | torch_supa/profiler/profiler_kineto.py:505-512 | three concrete raw events with seven bytes, reported as fourteen |
| Conservation.DeviceRecordExample | torch_supa/profiler/profiler_kineto.py:479-485 | seven bytes of a PrivateUse1 record are the self device memory, and no CPU memory |
| Conservation.GroupedSelfTotals | torch_supa/profiler/profiler_util.py:305-335 | for every grouping the groups' self CPU time adds up to the durations of the top events, and their self bytes to the accounted bytes |
| KeyAverages.FunctionEventAvg.Add | torch_supa/profiler/profiler_util.py:685-719 | the key assertion holds exactly if there was no key or the same one; then all counters grow by the other's |
| KeyAverages.AddTotalsGet | torch_supa/profiler/profiler_util.py:697-718 | every counter of the sum is the sum of the counters, missing flops counting as none |
| KeyAverages.SameKeyIff | torch_supa/profiler/profiler_util.py:308-320 | two events share a group if and only if name, node, device type and both flags agree, and shapes and the first stack entries as far as the call asks for them |
| KeyAverages.AddEvent | torch_supa/profiler/profiler_util.py:322-325 | the event joins the group of its key or opens it; the key assertion never fires |
| KeyAverages.KeyAveragesOf | torch_supa/profiler/profiler_util.py:290-335 | each key once; each group's counters are the sums over exactly the events with its key; it shows the stack of its first event, cut to the entries asked for, and its shapes if asked for |
| KeyAverages.GroupCounters | torch_supa/profiler/profiler_util.py:322-323 | the ten counters of a group one by one, each the sum of the same counter over its events |
| KeyAverages.TotalAverage | torch_supa/profiler/profiler_util.py:337-348 | every counter is the sum over the list, and the key is "Total"; the key assertion never fires |
| KeyAverages.SharesAddUp | torch_supa/profiler/profiler_util.py:305-335 | group sums over all keys add up to the sum over the events |
| KeyAverages.GroupingKeepsTotals | torch_supa/profiler/profiler_util.py:305-348 | the total average of the grouped list equals that of the raw list in every counter |
| StepTracker.KinetoStepTracker.InitStepCount | torch_supa/profiler/profiler_kineto.py:691-695 | the requester starts at the global count |
| StepTracker.KinetoStepTracker.EraseStepCount | torch_supa/profiler/profiler_kineto.py:698-702 | the requester is removed; says whether it was there |
| StepTracker.KinetoStepTracker.MaxStep | torch_supa/profiler/profiler_kineto.py:715 | the maximum of the counts: attained, and bounding all |
| StepTracker.KinetoStepTracker.IncrementStep | torch_supa/profiler/profiler_kineto.py:705-726 | taking the maximum amounts to: the global count moves by one exactly if the requester was level with it; never a warning |
| StepTracker.CountStaysValid | torch_supa/profiler/profiler_kineto.py:690-726 | after every sequence of operations the count bounds all requesters, equals the number of `_kineto_step` calls, and no warning was issued |
| StepTracker.CountNeverDecreases | torch_supa/profiler/profiler_kineto.py:690-726 | the count never decreases and rises by at most one per increment |
| StepTracker.CountIsMaximum | torch_supa/profiler/profiler_kineto.py:645-726 | for requesters registered at the beginning, the count is the largest number of steps any of them made |
| StepTracker.LateRequesterMovesOn | torch_supa/profiler/profiler_kineto.py:711-713 | an unregistered requester's first step always raises the count |
| StepTracker.MaximumIff | torch_supa/profiler/profiler_kineto.py:645-726 | after a sequence of operations the count is the maximum of the dictionary's values if and only if some requester drew level with it and was neither erased nor outrun since |
| StepTracker.MaximumBreaksIff | torch_supa/profiler/profiler_kineto.py:698-726 | of single operations only the erasure of the one requester that is level makes the count differ from the maximum |
| StepTracker.MaximumWithoutErase | torch_supa/profiler/profiler_kineto.py:690-726 | without erasures the count is the maximum from the first operation on |
| StepTracker.LeaderErased | torch_supa/profiler/profiler_kineto.py:698-702 | after the leading requester is erased the count stays above all that are left |
| ProfilerRun.Profiler.Transit | torch_supa/profiler/profiler.py:705-709 | performs the effects of the table entry in order, none if there is no entry |
| ProfilerRun.Profiler.Start | torch_supa/profiler/profiler.py:655-661 | the effects so far are those of a run with no step |
| ProfilerRun.Profiler.Step | torch_supa/profiler/profiler.py:668-685 | the effects so far are those of a run with one step more |
| ProfilerRun.Profiler.Stop | torch_supa/profiler/profiler.py:663-666 | the effects are those of the whole run |
| ProfilerRun.TableMeaning | torch_supa/profiler/profiler.py:580-640 | when each effect stands in a table entry, and where: warnings first, ready directly after the stop, prepare directly before a start or last, no effect twice |
| ProfilerRun.TracesAlternate | torch_supa/profiler/profiler.py:580-640 | for every schedule, at every point of every run: starts and stops alternate and a trace is on exactly while the action is RECORD or RECORD_AND_SAVE |
| ProfilerRun.RunEndsOff | torch_supa/profiler/profiler.py:663-666 | after stop the trace is off |
| ProfilerRun.ReadyCount | torch_supa/profiler/profiler.py:580-640 | trace-ready fires once per RECORD_AND_SAVE step left, plus once if the run stops while recording |
| ProfilerRun.PreparedIff | torch_supa/profiler/profiler.py:580-640 | each start has exactly one prepare since the previous stop if and only if WARMUP never directly follows RECORD |
| ProfilerRun.MarkersNest | torch_supa/profiler/profiler.py:655-685 | step markers are entered and left in turn, the open one always that of the current step |
| ProfilerRun.MarkersClosed | torch_supa/profiler/profiler.py:663-666 | after stop no step marker is open |
| LazyInit.RunKeepsInv | torch_supa/supa/utils.py:78-154 | the invariant of lock, drain flag, queue and runtime holds in every state of every interleaving, failures included |
| LazyInit.OneDrainer | torch_supa/supa/utils.py:103-154 | at most one thread drains the queue |
| LazyInit.CleanRunsOnce | torch_supa/supa/utils.py:103-154 | without failures the runtime is initialised at most once and each queued call runs at most once, in order, those appended during the drain included |
| LazyInit.InitsBounded | torch_supa/supa/utils.py:103-154 | each failure costs at most one further initialisation |
| LazyInit.ReturnMeansInitialized | torch_supa/supa/utils.py:103-154 | a normal return to a thread that is not draining implies `_initialized` and that all calls up to the last length test ran |
| LazyInit.ReentrantCallReturns | torch_supa/supa/utils.py:116-117 | a call from inside a queued call returns at once and never waits for the lock |
| LazyInit.HolderCanMove | torch_supa/supa/utils.py:118-154 | the thread that holds the lock can always take a step |
| LazyInit.FailsIff | torch_supa/supa/utils.py:103-154 | the checks, the native call and a queued call can fail, and nothing else |
| LazyInit.FailureUnwinds | torch_supa/supa/utils.py:118-154 | an exception gives flag and lock back, initialises nothing and leaves the queue, so that a later call can begin anew |
| LazyInit.SettledForGood | torch_supa/supa/utils.py:78-154 | once initialised, nothing is drained or initialised again |
| LazyInit.QueuedCallRunsIff | torch_supa/supa/utils.py:78-83 | after initialisation, and whatever failed before, a queued call is run if and only if it stood before the last length test |
| LazyInit.LostCallExample | torch_supa/supa/utils.py:78-83 | a reachable state in which a queued call was appended too late and nobody will run it |
| LazyCalls.CallOutcome | torch_supa/supa/utils.py:78-83 | in every run, a completed call of `_lazy_call` is run at once if `_initialized` held at its test and is appended to the queue otherwise, and does nothing else; the same inside a queued call |
| LazyCalls.SettledCallRuns | torch_supa/supa/utils.py:78-80 | after initialisation every call is run at once |
| LazyCalls.CallsAddUp | torch_supa/supa/utils.py:78-83 | at every point of every run each call was begun as often as it stands in the queue, was run at once or is under way |
| LazyCalls.QueueIsAppended | torch_supa/supa/utils.py:78-83 | the queue is what the calls appended, in that order |
| DeviceScopes.DeviceScope.Enter | torch_supa/supa/utils.py:335-341 | remembers the device and sets its own if they differ; then `_lazy_init()` may raise with the device switched; fails on an unknown device; -1 is a no-op |
| DeviceScopes.DeviceScope.Exit | torch_supa/supa/utils.py:343-346 | goes back to the remembered device |
| DeviceScopes.StreamScope.Enter | torch_supa/supa/utils.py:383-396 | remembers the current stream of both devices and sets the new one |
| DeviceScopes.StreamScope.Exit | torch_supa/supa/utils.py:398-409 | sets the remembered streams again |
| DeviceScopes.Runtime.UseStream | torch_supa/supa/utils.py:424-437 | sets the stream of its device; no stream is a no-op |
| DeviceScopes.DeviceInBody | torch_supa/supa/utils.py:335-341 | in the body of a device scope its device is current, the streams are as before, and the scope remembers the device before |
| DeviceScopes.StreamInBody | torch_supa/supa/utils.py:384-396 | in the body of a stream scope its stream is the current one of its device and of no other, and the scope remembers the streams before |
| DeviceScopes.RawCalls | torch_supa/supa/utils.py:424-437 | the unscoped calls take effect on known devices, raise for unknown ones and leave all else alone |
| DeviceScopes.StreamRestores | torch_supa/supa/utils.py:383-409 | leaving a stream scope puts all streams back, whatever device is current by then, and the device too if setting a stream switches it |
| DeviceScopes.ScopesRestoreIff | torch_supa/supa/utils.py:331-409 | every program of nested new scopes ends with the streams it began with, and with the device too if and only if no entry leaks it past the scopes around; a program that leaks raises |
| DeviceScopes.ScopesRestore | torch_supa/supa/utils.py:331-409 | if no lazy initialisation raises, it ends in the state it began in, also if something else raises |
| DeviceScopes.OneScopeRestoresIff | torch_supa/supa/utils.py:335-346 | one device scope restores unless `_lazy_init()` raises on entry for a known device that is neither -1 nor current |
| DeviceScopes.EntryLeakExample | torch_supa/supa/utils.py:339-341 | concrete programs that end with the device switched |
| DeviceScopes.EnclosingScopeRestores | torch_supa/supa/utils.py:335-346 | a scope around the leak undoes it exactly if it had changed the device itself |
| DeviceScopes.OnlyFirstScopeLeaks | torch_supa/supa/utils.py:116-154 | as no `_lazy_init` raises once one has returned normally, a program leaks if and only if its first scope that is not a no-op leaks on entry; no scope around it helps |
| DeviceScopes.NegativeIndexRaises | torch_supa/supa/utils.py:335-341 | an index below -1 raises, changes nothing and never runs the body |
| DeviceScopes.NegativeIndexNoOpIff | torch_supa/supa/utils.py:324-341 | a scope for a negative index is a no-op around every body if and only if the index is -1 |
| DeviceScopes.Execute | torch_supa/supa/utils.py:331-409 | the scope objects carry out the value-level programs, so scoped programs restore the runtime exactly if they do not leak |
| DeviceScopes.DeviceScopeAroundAnything | torch_supa/supa/utils.py:335-346 | around an arbitrary body the device is put back exactly if the scope had changed it |
| DeviceScopes.DeviceScopeLeaks | torch_supa/supa/utils.py:335-346 | a raw `set_device` escapes from a scope for the current device |
| DeviceScopes.Reenter | torch_supa/supa/utils.py:335-346 | entering one scope object twice restores the state only if its device was current already |
| SplitGroups.SplitGroup | torch_supa/distributed/distributed_c10d.py:428-496 | each error case, no group for a rank in no split, otherwise the view of the rank's own sorted split |
| SplitGroups.MakeView | torch_supa/distributed/distributed_c10d.py:487-496 | global ranks in split order, own position and enumerated map; an unknown rank fails |
| SplitGroups.FindsOwnSplit | torch_supa/distributed/distributed_c10d.py:471-488 | with disjoint valid splits a rank finds its own split, sorted |
| SplitGroups.FindSplitMeaning | torch_supa/distributed/distributed_c10d.py:474-488 | for all splits: the search ends at the first that is the rank's own or fails a check, with the error of that check; without such a split there is no group |
| SplitGroups.OwnRankRegistered | torch_supa/distributed/distributed_c10d.py:552-556 | the registered map sends a rank's own global rank to its group rank |
| SplitGroups.MembersAgree | torch_supa/distributed/distributed_c10d.py:428-496 | members of one split, even if they list it in different orders, compute the same ranks and maps; group ranks follow parent ranks and differ for different members |
| SplitGroups.CallsAgree | torch_supa/distributed/distributed_c10d.py:428-496 | two calls of `split_group` by members of one split both return, with views that agree and registered maps that send each own global rank to its group rank, or both fail on an unknown rank |
| SplitGroups.EveryRankTaken | torch_supa/distributed/distributed_c10d.py:471-496 | every group rank below the size belongs to a member |
| GroupRegistry.Registry.RegisterSplit | torch_supa/distributed/distributed_c10d.py:543-556 | the new group is in all maps; the maps stay in step |
| GroupRegistry.Registry.AbortGroup | torch_supa/distributed/distributed_c10d.py:155-226 | no `del` fails; one group is removed, or all if the default group is named; the maps stay in step; on an error nothing changes |
| GroupRegistry.RegisterKeepsValid | torch_supa/distributed/distributed_c10d.py:543-556 | registration keeps the key sets equal and the tag lists inverse to the tags |
| GroupRegistry.RegisterStores | torch_supa/distributed/distributed_c10d.py:543-556 | each value goes into its own map, the group is listed under its own tag alone, and no other group changes |
| GroupRegistry.RemoveKeepsValid | torch_supa/distributed/distributed_c10d.py:204-226 | removal finds every key, keeps the maps in step and leaves the group in no tag list |
| GroupRegistry.AbortKeepsValid | torch_supa/distributed/distributed_c10d.py:155-226 | every abort keeps the maps in step and never misses a key |
| GroupRegistry.AbortLeavesNoTrace | torch_supa/distributed/distributed_c10d.py:172-226 | an aborted group is in none of the maps |
| GroupRegistry.AbortKeepsOthers | torch_supa/distributed/distributed_c10d.py:172-226 | aborting a group other than the default one leaves every entry of every other group; without a backend, or on an error, nothing changes |
| GroupRegistry.AbortErrors | torch_supa/distributed/distributed_c10d.py:155-171 | which error is raised when, and that nothing else fails |
| GroupRegistry.RegisterThenAbort | torch_supa/distributed/distributed_c10d.py:204-226 | registering a group and aborting it gives the registry back, but for an empty tag list |
| GroupRegistry.RegistryStaysValid | torch_supa/distributed/distributed_c10d.py:172-226 | every sequence of registrations and aborts keeps the maps in step |
| GroupRegistry.AbortWithoutGroup | torch_supa/distributed/distributed_c10d.py:139-226 | naming the default group clears everything; naming none removes the default group alone, and then fails |
| Preprocessor.CtrlState.constructor | script/codegen_supa/supa_utils.py:284-297 | an inactive group never records; an active one records by its condition, unrecognised ones counting as false |
| Preprocessor.CtrlState.CheckCondition | script/codegen_supa/supa_utils.py:315-325 | a recognised condition sets `record`, any other leaves it |
| Preprocessor.CtrlState.UpdateElse | script/codegen_supa/supa_utils.py:327-337 | the arm records if the group is active and no earlier part recorded |
| Preprocessor.CtrlState.UpdateElif | script/codegen_supa/supa_utils.py:339-342 | the same, then a recognised condition decides |
| Preprocessor.Directive | script/codegen_supa/supa_utils.py:380-398 | one directive line on the stack of groups |
| Preprocessor.FilterLines | script/codegen_supa/supa_utils.py:374-400 | the loop over the stack objects computes the value-level run |
| Preprocessor.Filter | script/codegen_supa/supa_utils.py:374-400 | the same from raw lines |
| Preprocessor.FilterMeaning | script/codegen_supa/supa_utils.py:380-400 | on every well-nested file the kept lines are those of the recursive reading of groups and arms |
| Preprocessor.NestsIff | script/codegen_supa/supa_utils.py:380-400 | the well-nested files are exactly the line lists that open before they close, continue no condition, have no arm outside a group, and leave nothing open |
| ConditionText.StripMeaning | script/codegen_supa/supa_utils.py:386 | stripping takes the blanks at both ends and nothing else |
| ConditionText.ContinuedIff | script/codegen_supa/supa_utils.py:384-392 | a line is continued if and only if its last character that is no blank is a backslash |
| Preprocessor.FilterSucceedsIff | script/codegen_supa/supa_utils.py:380-400 | on the text: the filter succeeds if and only if no condition is continued and no line closes a group that none before it opened |
| Conditions.FirstIsComparison | script/codegen_supa/supa_utils.py:280 | where the pattern matches at the beginning of a line, the condition's tokens begin with the same comparison |
| Conditions.PartsMeaning | script/codegen_supa/supa_utils.py:280 | a condition holds if and only if its first comparison and all that is joined to it hold, or an alternative does |
| Conditions.IfRightIff | script/codegen_supa/supa_utils.py:315-325 | an `#if` line is read as its condition is worth if and only if the text is of the stated kind: what the filter does not look at must not matter |
| Conditions.ComparisonRightIff | script/codegen_supa/supa_utils.py:299-313 | a leading comparison is misread if and only if it matters that what is no version name counts as 0 |
| Conditions.NamesComparedRight | script/codegen_supa/supa_utils.py:32-89 | comparisons of names of the version table, which are also what the version header defines, are never misread |
| Conditions.ComparisonValue | script/codegen_supa/supa_utils.py:299-313 | each of the six operators is worth 1 exactly if its relation holds of the two values |
| Conditions.LogicalValue | script/codegen_supa/supa_utils.py:280 | what negation, both connectives, `defined` and a name are worth |
| Conditions.VersionTestRead | script/codegen_supa/supa_utils.py:299-325 | the filter's answer to a comparison of TORCH_VER with a name of its table, for each operator that it knows |
| Conditions.BoundaryExample | script/codegen_supa/supa_utils.py:305-308 | at version 2.5.0 a test for at least 2.5.0 holds and one for more does not |
| Conditions.ForceMeaning | script/codegen_supa/supa_utils.py:282 | `1` and `true` are read as true, `0` and `false` as false, and no other text is forced |
| Conditions.DefinedCondition | torch_supa/csrc/core/supa/SUPADeviceAssertionHost.cpp:15 | #ifdef and #ifndef ask whether a name is a macro |
| ConditionSyntax.ConditionReadBack | torch_supa/csrc/profiler/record_function_wrapper.h:7 | every condition of the grammar, written out with its parentheses on an #if line, is read back as itself |
| ConditionSyntax.WrittenParses | torch_supa/csrc/profiler/record_function_wrapper.h:7 | the parser gives back every condition from its tokens |
| ConditionSyntax.LexText | torch_supa/csrc/profiler/record_function_wrapper.h:7 | the lexer gives back every list of tokens from its text |
| ConditionSyntax.AndInOr | torch_supa/csrc/distributed/symm_mem/SUPASymmetricMemory.su:689 | `&&` binds stronger than `||` on its right |
| ConditionSyntax.AndBeforeOr | torch_supa/csrc/distributed/symm_mem/SUPASymmetricMemory.su:689 | and on its left |
| ConditionSyntax.DecimalReadBack | torch_supa/csrc/distributed/ProcessGroupBCCL.cpp:682 | every decimal number is read back, with every suffix |
| ConditionSyntax.PrefixedReadBack | torch_supa/csrc/distributed/ProcessGroupBCCL.cpp:682 | and every hexadecimal and binary one |
| ConditionSyntax.OctalReadBack | torch_supa/csrc/distributed/ProcessGroupBCCL.cpp:682 | and every octal one |
| Conditions.ForceRight | script/codegen_supa/supa_utils.py:282 | the conditions 0, 1, true and false are read right |
| Conditions.RangeRightIff | script/codegen_supa/supa_utils.py:315-325 | of two comparisons of version names joined by `&&` the filter reads the first; that is right unless the first holds and the second does not |
| Conditions.NumberRightIff | script/codegen_supa/supa_utils.py:299-313 | a comparison with a number is read as one with 0, and right if and only if that makes no difference |
| Conditions.RangeExample | torch_supa/csrc/distributed/symm_mem/SUPASymmetricMemory.su:689 | this condition, a range that ends before version 2.9.0, is read as true at version 2.9.0 |
| Conditions.NumberExample | torch_supa/csrc/distributed/ProcessGroupBCCL.cpp:682 | this condition, a comparison with the number 20600, is read as true at version 2.5.0 |
| Conditions.KindRightIff | script/codegen_supa/supa_utils.py:380-394 | a line is taken for the right directive if and only if its word follows the `#` at once and is one, or nothing in it begins like one |
| Preprocessor.SameGroupsIff | script/codegen_supa/supa_utils.py:380-394 | the filter sees the directives that the standard sees if and only if that holds of every line |
| Preprocessor.LineRightIff | script/codegen_supa/supa_utils.py:315-342 | an `#if` or `#elif` line is read as its condition is worth if and only if its text is of the stated kind |
| Preprocessor.FilterIsStandard | script/codegen_supa/supa_utils.py:284-342 | on every well-nested file, grouped as the filter sees it, the kept lines are those of section 19.1 of ISO C++17 if every condition that is reached is read right, or at least the same parts are taken; for files whose text lines are all different, exactly if they are |
| Preprocessor.VersionFilesAreStandard | script/codegen_supa/supa_utils.py:284-342 | they are the standard's lines on every file whose conditions are `#if` lines that compare TORCH_VER with one version name |
| Preprocessor.SameEffectIff | script/codegen_supa/supa_utils.py:327-342 | for text lines that are all different, two readings keep the same lines if and only if at every group reached they take the same part, or parts with no effective line |
| Preprocessor.OnePartRecorded | script/codegen_supa/supa_utils.py:327-342 | a group keeps the lines of at most one part, of exactly one if it has an `#else`, and of none if its surroundings are not recorded |
| Preprocessor.ElifReadsFalseIff | script/codegen_supa/supa_utils.py:280-325 | an `#elif` line reads as false if and only if the first comparison behind an `#if` further on in it speaks of TORCH_VER and is false; its own condition is never looked at |
| Preprocessor.ElifReadsTrue | script/codegen_supa/supa_utils.py:280-282 | an `#elif` line without a further `#if` in it reads as true |
| Preprocessor.ElifExample | script/codegen_supa/supa_utils.py:339-342 | a file of four lines from whose text the filter keeps a line that the standard drops, whatever macros are defined |
| Preprocessor.RunSucceedsIff | script/codegen_supa/supa_utils.py:380-400 | the filter fails exactly on a continued condition or on a prefix that closes a group never opened |
| BlockScanner.StripQuantizedRegistrationBlocks | script/codegen_native/gen.py:75-103 | the scanner returns the lines of all segments but the blocks that name a skipped operator |
| BlockScanner.KeepLines | script/codegen_native/gen.py:79-103 | the same for the outer loop and any test on blocks |
| BlockScanner.ReadBlock | script/codegen_native/gen.py:88-96 | the scanner's block: the header, the line behind it, and on to the first line that leaves no brace open, or to the end |
| BlockScanner.BlockMeaning | script/codegen_native/gen.py:88-96 | read by braces, a block runs from its header to the first line by which a brace was opened and all are closed, or to the end |
| BlockScanner.SameBlockIff | script/codegen_native/gen.py:88-96 | the scanner takes that block if and only if nothing follows the header, or the header leaves a brace open, or it has no opening brace and the next line is the last or has one |
| BlockScanner.SegmentsRightIff | script/codegen_native/gen.py:79-103 | the scanner cuts the whole file as the braces have it if and only if that holds of every header |
| BlockScanner.SegmentsFlatten | script/codegen_native/gen.py:75-103 | cutting into segments loses nothing, by either reading |
| BlockScanner.CutAgain | script/codegen_native/gen.py:75-103 | segments found once are found again in their own text |
| BlockScanner.StripKeepsSegments | script/codegen_native/gen.py:75-103 | the scanner's segments of the result are those of the input without the named blocks |
| BlockScanner.StripKeepsBlocks | script/codegen_native/gen.py:75-103 | if every header is right, the result's blocks, read by braces, are the input's without those that name a skipped operator |
| BlockScanner.SegmentsLeft | script/codegen_native/gen.py:75-103 | which segments are left, by their text and in order: all lines outside blocks, and exactly the blocks in whose text `m.impl("op"` stands nowhere for any skipped operator; for the scanner's blocks always, for those by braces if every header is right |
| BlockScanner.NoNamedBlockLeft | script/codegen_native/gen.py:98-99 | so no block of the result has `m.impl("op"` of a skipped operator anywhere in its text |
| BlockScanner.JoinCons | script/codegen_native/gen.py:98 | a block's text is its lines one behind the other |
| BlockScanner.StripIsIdempotent | script/codegen_native/gen.py:75-103 | stripping twice is stripping once |
| BlockScanner.StripKeepsOutside | script/codegen_native/gen.py:75-103 | then every line outside blocks survives, in order |
| BlockScanner.LineBehindIsLost | script/codegen_native/gen.py:88-96 | behind a header that closes its own braces the next line is dropped with the block |
| BlockScanner.LineLostExample | script/codegen_native/gen.py:88-96 | two lines of text of which an unrelated one is lost |
| BlockScanner.RegistrationStays | script/codegen_native/gen.py:88-96 | a block whose first brace comes in its third line is cut short, and its registration stays |
| BlockScanner.TrailingChars | script/codegen_native/gen.py:308-324 | the characters behind a block that go with it |
| Strings.OccursIff | script/codegen_native/gen.py:99 | a pattern occurs in a text if and only if the text begins with it from some place on |
| BlockScanner.ExtractBalancedBlock | script/codegen_native/gen.py:308-324 | the slice up to the first balance after the first brace, with the longest run of trailing blanks and semicolons; fails exactly if there is no brace or it never closes |
| GraphedGrads.SlotHoldsInput | torch_supa/supa/graphs.py:367 | the slot of an input among the inputs that need gradients holds that input |
| GraphedGrads.Pad | torch_supa/supa/graphs.py:373-384 | the padded tuple has the surface's length, each gradient at its own input, None elsewhere; no index runs over |
| GraphedGrads.CaptureBackward | torch_supa/supa/graphs.py:347-391 | after both reversals entry i belongs to callable i |
| GraphedGrads.CapturedMeaning | torch_supa/supa/graphs.py:352-384 | position by position: an input that needs a gradient gets the one counted by the inputs before it that need one, if some output needs one; all else is None |
| StringLiteral.PrintCharsAsStringTo | third-party/gtest-1.10.0/src/gtest-printers.cc:267-289 | the loop prints the specified literal text; the returned format says whether a hex escape occurred |
| StringLiteral.LiteralMeaning | third-party/gtest-1.10.0/src/gtest-printers.cc:141-200 | how each byte is printed: printable ones as themselves but for the double quote and the backslash, eight with an escape of one character, all others in upper-case hexadecimal without padding |
| StringLiteral.BreakAfterHex | third-party/gtest-1.10.0/src/gtest-printers.cc:275-281 | after a hex escape the text never goes on with a hexadecimal digit |
| StringLiteral.ReadHex | third-party/gtest-1.10.0/src/gtest-printers.cc:179-190 | a hex escape followed by no hexadecimal digit reads as its byte |
| StringLiteral.ReadNul | third-party/gtest-1.10.0/src/gtest-printers.cc:149-151 | a NUL takes up to two following octal digits with it |
| StringLiteral.ReadBody | third-party/gtest-1.10.0/src/gtest-printers.cc:267-289 | what every printed byte string reads back as, by sections 5.13.3 and 5.13.5 of ISO C++17 |
| StringLiteral.RoundTrip | third-party/gtest-1.10.0/src/gtest-printers.cc:267-289 | reading back gives the original bytes if and only if no NUL directly precedes an octal digit |
| Utf8.IsValidUTF8 | third-party/gtest-1.10.0/src/gtest-printers.cc:380-415 | true exactly for encodings of sequences of scalar values under section 4 of RFC 3629; never reads past the length |
| Utf8.HeadIsEncoding | third-party/gtest-1.10.0/src/gtest-printers.cc:388-411 | every accepted head is the encoding of a scalar value |
| Utf8.EncodingIsHead | third-party/gtest-1.10.0/src/gtest-printers.cc:388-411 | the encoding of every scalar value is an accepted head of its own length |
| Utf8.AcceptsExactly | third-party/gtest-1.10.0/src/gtest-printers.cc:380-415 | both directions for whole strings |

## Left out

- Native code (`torch_supa._C`, the device runtime, BCCL, Kineto itself) is not modelled; its calls are parameters, stated contracts or effects in a log.
- `device_time_total` and `self_device_time_total`, the `is_legacy` flag they read, and the deprecated aliases: the kernel lists they add up are modelled, the properties are not.
- Event fields that no modelled computation reads (stacks, shapes, flops, scopes, sequence numbers), and the re-attachment of backward stack traces.
- Profile.EnsureFunctionEvents: leaves out the timing statistics; `acc_events` is a method of its own.
- Rounding of float times: times are exact, so ties that rounding would create or remove are not modelled.
- KeyAverages.FunctionEventAvg.Add: the shapes and stack copied from the first event and the device time counter's derivation are taken as given values.
- DeviceScopes: TorchScript branches are left out; whether a `_lazy_init` call on entry returns or raises is part of the program, and that none raises after one returned is a condition on it, not a run of `LazyInit`; an unknown device makes the native call raise; `_supa_setStream` is a stated contract with and without a device switch.
- SplitGroups: group names, colours, backend options and the creation of the native group are left out.
- GroupRegistry: backend shutdown is an effect without a result, and a failing native abort is not modelled.
- Preprocessor.Filter: the table of known Torch versions is a parameter, word characters are ASCII, blanks are the six of C (Python also strips the control characters 28 to 31), and the later search for implementation names in the kept text is left out.
- Preprocessor.FilterIsStandard: states both directions for files whose text lines are all different; with equal lines in different parts, different parts can yield the same text. That a line is a directive is decided as the filter does; `SameGroupsIff` says when that is the standard's view.
- Conditions: arithmetic, chained comparisons, `?:`, calls of function-like macros, `__has_include` and the alternative spellings of operators are outside the grammar, and the truth of such a condition is a parameter; macros are fixed for a file, stand for integers, and integers are unbounded. Comments over several lines and line splices are not modelled.
- Wide-character paths of the gtest printers, which add a platform-dependent width and no new idea.
- Table printing, trace and stack export, monkey patches, torchgen-based generators, build scripts, and the thin wrappers for memory, streams, random numbers and collectives: presentation, input and output, or forwarding, where only easy members would be added.
