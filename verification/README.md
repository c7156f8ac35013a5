# umpi: a verified model

umpi implements a subset of MPI 3.0 over shared memory. Every operation is a rendezvous on a shared
record, the cookie. A cookie moves between lists (a slot's box, a rank's private list, the four
lists of a process) and carries two counters: `busy_`, the transfers still owed to it, and `used_`,
the request handles still held. This project models the rendezvous protocols, the typed copies and
the pool allocator beneath them, and proves what they promise for every number of ranks that the
16-bit counters of a cookie can hold (`CounterFields`), every arrival order and every interleaving.

## How the pieces fit

**Collective slots.** `Ledger` describes one collective on one slot as a transition system. A rank's
steps are its locked join section, `move_to_pending`, the copy of one transfer, `notify_done` under
the owner's lock, the wait with its condition variable, leaving, and the reclaiming of a finished
cookie. Bcast, scatter and gather(v), allgather, the two forms of allreduce, and scan with exscan are
five kinds of the same system. `LedgerPlans`, `LedgerRuns` and `LedgerTheorems` prove the counting
invariant and its consequences over whole runs, `Completion` that every run can be completed. `Collect`
is the slot as a class: its methods are written in the source's order and proved to be the ledger's
steps.

**Error returns.** A rank whose transfer is refused returns the error from its call without waiting, and
with a root its private list goes, the nodes on it included. `RootedCalls` adds this step to the ledger
of bcast, scatter and gather(v). `CallTheorems` says what is left of the ledger's guarantees in every
run, `CallCompletion` exactly when nothing is lost.

**Results of the collectives.** `Rooted`, `Allgather`, `Allreduce` and `Scan` add the buffers and prove
what each operation delivers. In `Rooted` every transfer is checked against the size that the cookie's
owner registered. `RootedResults` says what every buffer holds in the operations' own arguments.
`GathervTotals` and `GatherPlacement` (over `RootUntouched`) say exactly when gatherv and gather deliver. `Allgatherv` is the barrier in front of one gatherv per root; `AllgathervRounds` runs
all rounds on shared buffers in any interleaving; `AllgathervLoop` puts barrier, rounds and error returns
together, and `AllgathervExact` says exactly when the whole loop keeps its promise.

**The ring and the nodes.** `SlotRing` and `SlotTable` are the ring of 16 slots with 32-bit tickets.
`SlotRuns` puts a ledger in every slot and proves what the ring takes for granted of a join section.
`NodeLife` follows the list nodes behind the cookies through many collectives and messages: from a free
list into a slot's box, a private list, the owner's pending list, and back, or to their destruction.

**Point to point.** `Matching` follows the history of sends and receives at one process through
first-fit matching with wildcards. `Process` is the process as a class with its four lists.
`PointToPoint` is the life of the nodes across
processes. `Probe` is the search of a process that waits for a message to come in.

**Typed copies.** `Layouts` flattens a type to addresses. `TypedCopy` builds scatter/gather lists and
takes the kernel's cross-memory copy as given. `Transfers` holds the three copying routines;
`TransferTheorems` and `Outcomes` say what they mean. `Datatypes` holds the type constructors with
their 64-bit arithmetic.

**Pool.** `Pool` and `PoolTheorems` treat the bookkeeping over runs; `MemoryPool` is the class whose
free lists are threaded through the free blocks.

`Basics`, `Folds` and `Words` hold shared facts, reductions and machine words.

Five promises fail on some inputs. They are stated with their exact condition and a concrete instance:

- that a gather(v) returns on every rank: with three ranks or more, a refused transfer of the root leaves
  the ranks behind it asleep for ever on nodes that have been destroyed
  (`CallCompletion.GathervCompletesExactly`, `CallCompletion.GatherCompletesExactly`). Gathering nothing
  does it (`CallCompletion.GatherOfNothingHangs`);
- gatherv, and with it allgatherv, when a segment ends past the sum of the counts, which MPI allows
  since segments may leave gaps (`GathervTotals.GathervExactly`, `GathervTotals.GapRefused`,
  `AllgathervExact.AllgathervExactly`, `AllgathervExact.RoundsDeliverExactly`);
- gather of more than one element when a leaf precedes the root (`GatherPlacement.GatherExactly`);
- the status, the bytes and the error of a message that is not a whole number of the receiver's elements
  or does not fit (`Outcomes.OutcomeIndependent`, `Outcomes.OrderShows`, `Outcomes.TruncationShows`);
- types built from negative or oversized blocks or from several scattered elements (`Datatypes`).

The same is done for more than 32767 ranks (`CounterFields.FieldsFitExactly`), for tags above 15 bits
(`Matching.TagLimit`) and for a pool constructed in too little memory
(`PoolTheorems.ConstructorExactly`).

## Model

| member | source | states |
|---|---|---|
| LedgerRuns.NextInv | umpi.cc:460-469 | Every step of a collective, an error return apart (`RootedCalls.AlwaysCalls`), keeps: `busy_` is transfers owed by joined ranks plus those by ranks still to come, `used_` is live handles, a place in the box or a private list is recorded once, and nobody sleeps on a count of 0 |
| LedgerPlans.ServeInOrder | umpi.cc:673-679 | A rank serves its private list from the front: each cookie is relinked, then its one transfer made |
| LedgerPlans.SweepInOrder | umpi.cc:831-849 | The sweep of scan and exscan relinks, fetches and answers each cookie in the order of the list |
| LedgerPlans.PlanSound | umpi.cc:641-902 | Each join section gives a new cookie exactly the count of transfers it will receive and leaves every other cookie's balance right, for all kinds and arrival orders |
| LedgerTheorems.TransferLedger | umpi.cc:460-469 | While no call returns an error: `busy_` is never negative, equals the transfers still to be made, and is 0 on all cookies once all have joined and finished |
| LedgerTheorems.NoTransferAfterCompletion | umpi.cc:514-604 | While no call returns an error: bytes move and counts drop only on a cookie with `busy_` > 0 whose owner is before or inside its wait, never on a reclaimed one |
| LedgerTheorems.NoLostWakeup | umpi.cc:1159-1169 | While no call returns an error: a rank asleep in `wait` has a transfer coming; signalled or returned owners have none |
| LedgerTheorems.HandleSafety | umpi.cc:441-458 | Within one collective, while no call returns an error: `used_` is the number of ranks that hold the request and have not left, and a cookie with a live handle is not reclaimed |
| NodeLife.HandleSafety | umpi.cc:414-458 | Over runs of many collectives and messages, with nodes reused and calls that fail: a live handle has exactly one node, its owner's, on exactly one of slot box, private list and pending list, unless a failed rank's private list has taken it down; no event resets, frees or erases it but the failure of the rank on whose private list it is |
| LedgerTheorems.BoxInUse | umpi.cc:631-639 | The box is non-empty exactly while some but not all ranks have joined, and no cookie is linked twice |
| LedgerTheorems.NoDeadlock | umpi.cc:1159-1169 | While no call returns an error, someone can take a useful step in every reachable state until all have left |
| LedgerTheorems.RunsAreBounded | umpi.cc:641-902 | A run makes at most n(6n+5) useful steps |
| Completion.Completes | umpi.cc:1159-1169 | While no call returns an error, every run has a continuation in which everybody's wait returns and everybody leaves |
| RootedCalls.AlwaysCalls | umpi.cc:944-951 | In every run with error returns: a refused rank is still in its call with only its report to make, a leaf has no other transfer, and exactly the nodes left on a failed root's private list are destroyed |
| RootedCalls.LedgerRun | umpi.cc:944-951 | Error returns aside, a run of calls is a run of the ledger in which the failed ranks have stopped |
| CallTheorems.TransferLedger | umpi.cc:460-469 | In every run of bcast, scatter and gather(v): `busy_` is the transfers still to come, and one more on a destroyed cookie, which nobody will report |
| CallTheorems.NoLostWakeup | umpi.cc:1159-1169 | A rank asleep has a transfer coming, or its cookie has been destroyed; signalled or returned owners have neither |
| CallTheorems.HandleSafety | umpi.cc:441-458 | A held cookie is not reclaimed; what is destroyed is held by its owner, still in its call, and only a root refused late among three ranks or more destroys anything |
| CallTheorems.NoTransferAfterReturn | umpi.cc:514-604 | Bytes move only on cookies that exist and whose owner's wait has not returned; only a root refused late can have returned its error before |
| CallCompletion.CompletesExactly | umpi.cc:944-951 | Every run can be carried on until all calls return, and destroys no node, exactly when there are two ranks or no leaf is refused late |
| CallCompletion.BcastAndScatterComplete | umpi.cc:1031-1070 | Bcast and scatter always do |
| CallCompletion.GatherCompletesExactly | umpi.cc:944-951 | Gather does exactly for two ranks or a count above 0 |
| CallCompletion.GathervCompletesExactly | umpi.cc:1006-1012 | Gatherv does exactly for two ranks or when every leaf's segment ends within the sum of the counts |
| CallCompletion.GatherOfNothingHangs | umpi.cc:944-951 | Three ranks gather nothing and the root comes last: whatever happens afterwards, rank 2 never returns |
| CallCompletion.NeverRefused | umpi.cc:944-951 | When nothing is refused no call fails, and the run is one of the ledger, whose theorems hold as they stand |
| CounterFields.FieldsFitExactly | umpi.hh:130-134 | In every run of every collective the 16-bit `busy_`, `used_` and `src_` keep their values exactly for up to 32767 ranks |
| CollectSlot.Collect.LeafRequest | umpi.cc:641-655 | The non-root section is the ledger's join: it serves itself from the root's cookie, retiring it when last, or posts a cookie owed one transfer; it reports nothing and touches no `err_` |
| CollectSlot.Collect.RootRequest | umpi.cc:658-680 | The root section is the ledger's join: it takes the box and owns a cookie owed size - joined transfers, or borrows the last leaf's; no `err_` changes |
| CollectSlot.Collect.AllgatherRequest | umpi.cc:692-737 | The allgather section is the ledger's join, with its transfer under the slot lock and first count of `size`; that transfer is reported as a success, so every `err_` stays and the new one is 0 |
| CollectSlot.Collect.AllreduceRequest | umpi.cc:746-797 | Both allreduce sections are the ledger's join, chained (count 2, with a success reported on the cookie before) and in place (count 1); every `err_` stays and the new one is 0 |
| CollectSlot.Collect.ScanRequest | umpi.cc:861-902 | The scan and exscan section is the ledger's join, the last rank sweeping the box by source; every `err_` stays and the new one is 0 |
| CollectSlot.Collect.Request | umpi.cc:682-690 | A call of any collective keeps the invariant and is the ledger's join |
| CollectSlot.Collect.MoveToPending | umpi.cc:606-611 | Relinking a served cookie keeps the invariant and is the ledger's step |
| CollectSlot.Collect.CopyBytes | umpi.cc:552-557 | A transfer whose bytes have moved is still to be reported: the ledger's copy step |
| CollectSlot.Collect.FinishTransfer | umpi.cc:460-469 | Reporting a transfer keeps the invariant and is the ledger's step; the first error of a cookie is the one kept, and no other cookie's changes |
| CollectSlot.FirstErrorOf | umpi.cc:463-463 | `err_` after any reports: 0 exactly when all were 0, else the first that was not |
| CollectSlot.Collect.BeginWait | umpi.cc:1159-1169 | The wait ends at once exactly when the rank borrowed its cookie or nothing is owed to its own; otherwise it sleeps on a positive count |
| CollectSlot.Collect.ResumeWait | umpi.cc:1164-1165 | Only an owner wakes up; the wait ends exactly when nothing is owed any more, and always after a signal |
| CollectSlot.Collect.Reclaim | umpi.cc:445-452 | A pending cookie that is taken has no handle that has not been left |
| CollectSlot.Collect.LeaveRequest | umpi.cc:1259-1262 | Leaving keeps the invariant, is the ledger's step, and returns the first error reported on the cookie: 0 exactly when every transfer on it succeeded |
| RootedCollectives.TransferMoves | umpi.cc:1031-1070 | Early or late, the copy that serves a leaf moves the same elements to the same place |
| RootedCollectives.LeafReceives | umpi.cc:1031-1070 | Bcast and scatter: when a rank's wait returns its buffer holds its block of the root's data, whoever came first |
| RootedCollectives.RootCollects | umpi.cc:969-1014 | Gather(v): when the root's wait returns every contribution is at its displacement and nothing else has changed, if no transfer that carries anything is refused |
| RootedResults.BcastResult | umpi.cc:641-680 | In every run of bcasts of `count` elements, when a rank's wait returns its first `count` elements are the root's and the others are as they were |
| RootedResults.ScatterResult | umpi.cc:1031-1070 | In every run of scatters of `count` elements a rank, when rank r's wait returns it holds the root's elements count * r up to count * r + count, and behind them what it had |
| RootedResults.GathervResult | umpi.cc:969-1014 | In every run, when the root's wait returns rank r's elements stand at displs[r] and elements in no leaf's segment are as they were, if the segments do not overlap and those that are not empty end within the sum of the counts |
| RootedResults.GatherResult | umpi.cc:913-952 | In every run, when the root's wait returns rank r's block stands at count * r, for counts up to one, or when rank 0 is the only leaf |
| RootedResults.GathervRefuses | umpi.cc:517-518 | A gatherv's transfer is refused exactly when the leaf's segment ends past the sum of the counts, whichever side makes it |
| RootedResults.GatherRefuses | umpi.cc:947-947 | A gather's is refused exactly when the root makes it and the leaf's rank plus the count passes count * size |
| RootedResults.NothingRefused | umpi.cc:1031-1070 | A bcast and a scatter refuse no transfer on either side |
| RootedCollectives.GathervAdmits | umpi.cc:988-1009 | No transfer of a gatherv is refused exactly when every leaf's segment ends within the sum of the counts |
| RootedCollectives.GathervFits | umpi.cc:986-1014 | With legal buffers a gatherv is an instance of RootCollects exactly when every non-empty segment of a leaf ends within the sum of the counts |
| RootUntouched.WaitDelivers | umpi.cc:986-1014 | The same over runs with error returns: whenever the root's wait returns, what was not to be refused is in its place |
| GathervTotals.GathervExactly | umpi.cc:986-1014 | Whenever the root's call has returned, with an error or without, every contribution is in its place, in every run and for all contents, exactly when every leaf's segment ends within the sum of the counts, or no leaf contributes anything |
| GathervTotals.RefusedIsLost | umpi.cc:517-518 | A contribution whose segment ends past the registered total is lost, whatever the order of arrival |
| GathervTotals.BehindIsLost | umpi.cc:1009-1011 | A root refused late returns its error, and the contribution behind the refused one is not there, even if the refused one was empty |
| GathervTotals.GapRefused | umpi.cc:988-1009 | Counts 1 and 1 at 0 and 5 in a buffer of six: the second element never arrives |
| GatherPlacement.GatherPlacementsAgree | umpi.cc:913-952 | The two seeks of gather agree for all leaves exactly when the count is at most 1, or rank 0 is the only leaf |
| GatherPlacement.GatherAdmits | umpi.cc:913-952 | A gather of one or more elements is refused nothing on either path, for every size and root |
| GatherPlacement.GatherFits | umpi.cc:913-952 | Under that condition gather is an instance of RootCollects |
| GatherPlacement.GatherMisplaces | umpi.cc:947-947 | For every size, root and larger count, any leaf but rank 0 that arrives just before the root is misplaced in a run that completes |
| GatherPlacement.GatherExactly | umpi.cc:913-952 | Gather delivers every contribution in every run and for all contents exactly when the count is at most 1, or rank 0 is the only leaf |
| GatherPlacement.GatherOfNothing | umpi.cc:947-947 | A gather of nothing is refused on the late path for every rank but 0 |
| Allgatherv.AlwaysFront | umpi.cc:1426-1448 | In every run of joins, barriers and waits nobody passes a barrier another rank has not begun, and a root leaves its round only after all have joined it |
| Allgatherv.RootJoinsFirst | umpi.cc:1426-1448 | The barriers make the root of a round join before any leaf of that round |
| Allgatherv.RoundsInOrder | umpi.cc:1426-1448 | Once a leaf has joined a round, all ranks have joined every earlier one and its root's wait has returned |
| Allgatherv.RegisteredFits | umpi.cc:1435-1438 | When every non-empty segment ends within the sum of the counts, the buffers registered in any round, in place or not, fit that round's gatherv |
| AllgathervRounds.RoundsAreSeparate | umpi.cc:1426-1448 | However the steps of the rounds interleave on the shared buffers, each buffer is what its own round alone makes of it |
| AllgathervRounds.EveryRankHoldsAllSegments | umpi.cc:1426-1448 | In every interleaving, a rank whose own round is over holds rank q's contribution at displs[q] for every q, in place or not, and between the segments what it had |
| AllgathervRounds.OwnSegmentKept | umpi.cc:1433-1434 | At every moment an in-place rank's own segment is the contribution it was given |
| AllgathervRounds.SegmentLost | umpi.cc:1435-1438 | A non-empty segment that ends past the sum of the counts reaches no other rank |
| AllgathervLoop.EventKeeps | umpi.cc:1426-1448 | Every event of the loop, refusals included, keeps barrier, rounds and ledgers in step: a rank is in a round's ledger exactly when it has joined it, and has left it exactly when it is past it |
| AllgathervLoop.GoesOn | umpi.cc:1426-1448 | While nobody has been refused some rank can go on, at a barrier or in a round, until all are through |
| AllgathervLoop.QuitIsFinal | umpi.cc:1437-1438 | A rank that has returned an error from the loop takes no further step in any round or at any barrier |
| AllgathervExact.AllgathervExactly | umpi.cc:1426-1448 | No rank is ever refused and every run can be carried on until all ranks are through all rounds, exactly when every segment, empty or not, ends within the sum of the counts |
| AllgathervExact.ThroughHoldsAll | umpi.cc:1426-1448 | In every run of the loop a rank that is past its own round holds rank q's contribution at displs[q] for every q, and between the segments what it had, when those that are not empty end within the sum of the counts |
| AllgathervExact.RoundsDeliverExactly | umpi.cc:1426-1448 | With the root first, as the barrier has it, all rounds deliver in every run and for all contents exactly when every non-empty segment ends within the sum of the counts |
| AllgatherCollective.EveryRankHoldsAll | umpi.cc:692-737 | When a rank's wait returns it holds the rank-ordered concatenation, in place or not |
| AllgatherCollective.OnlyCompleteDataMoves | umpi.cc:724-737 | The last rank reads the first one's buffer only when that is complete, and writes only complete data |
| Folds.ChainIsRankFold | umpi.cc:767-770 | Combining contributions in any arrival order gives the fold in rank order |
| Folds.Apply | funcs.hh:61-66 | The predefined operators' loop leaves invec op inoutvec elementwise in inoutvec and touches nothing beyond |
| Folds.FoldIsSum | funcs.hh:69-80 | Folding 64-bit numbers in rank order with the sum gives their sum modulo 2^64 |
| Folds.FoldIsProductOf | funcs.hh:69-80 | With the product it gives their product modulo 2^64 |
| Folds.FoldIsExtreme | funcs.hh:69-80 | With the maximum it gives a number that is among them and below none of them, with the minimum one that is above none |
| Folds.VectorizedReducible | funcs.hh:61-66 | Elementwise application of a commutative, associative operator is commutative and associative |
| Folds.ElementwiseFold | funcs.hh:61-66 | Folding vectors folds every element on its own |
| Folds.PredefinedReducible | funcs.hh:69-80 | Max, min, sum and product of unbounded integers meet what reductions assume |
| Folds.WrappingReducible | funcs.hh:69-80 | So do sum and product modulo 2^64 |
| AllreduceCollective.EveryRankHoldsTotal | umpi.cc:746-797 | When a rank's wait returns it holds the fold of all contributions, in the chained and the in-place form |
| AllreduceCollective.EveryRankHoldsSum | umpi.cc:746-797 | With sums of 64-bit numbers, every rank whose wait has returned holds the sum of all ranks' numbers modulo 2^64 |
| ScanCollective.SortedBySource | umpi.cc:829-829 | However the sort works, rank k's cookie ends up at index k |
| ScanCollective.EveryRankHoldsPrefix | umpi.cc:808-902 | When a rank's wait returns it holds the fold of ranks 0..r (scan) or 0..r-1 (exscan) |
| ScanCollective.EveryRankHoldsPartialSum | umpi.cc:808-902 | With sums of 64-bit numbers, rank r holds the sum of ranks 0..r, or of the ranks below r, modulo 2^64 |
| SlotRing.TurnSurvivesWrap | umpi.cc:615-615 | The ticket is the number of the collective modulo 2^32, and both name the same one of the 16 slots |
| SlotRing.RingSafety | umpi.cc:613-629 | Given join sections that leave only their own cookies, and none exactly as the last: in every run a slot in use holds one collective, counts exactly the ranks that entered it and stores its ticket; no two ranks are more than 16 apart |
| SlotRuns.SectionFaithful | umpi.cc:631-639 | The join section of every kind of collective is such a section |
| SlotRuns.SlotsAreSafe | umpi.cc:613-639 | In every run of whole collectives in the ring: a box is in use exactly while 0 < `joined_` < size, `joined_` is the length of the ledger in the slot, which lists just the ranks that have passed its ticket, and no two ranks are more than 16 apart |
| SlotRuns.EntersOwnCollective | umpi.cc:613-629 | A rank joins the ledger of its own next collective and no other, or exits, exactly when some rank is 16 collectives behind |
| SlotRuns.DisplacementsRead | umpi.cc:976-992 | Once a gatherv's root has returned from its wait, no leaf will read the displacements it stored in the slot |
| SlotRing.AtMostSixteenApart | umpi.cc:613-629 | Two ranks' collectives differ by at most 16 in every safe state |
| SlotRing.AbortsExactly | umpi.cc:621-625 | The program exits with "too many outstanding requests" exactly when some rank is still 16 collectives behind |
| SlotTable.Shared.GetCurrentSlot | umpi.cc:613-629 | The slot claimed, its ticket and count, the rank's wrapped ticket, and when the process exits |
| SlotTable.Shared.EnterCollective | umpi.cc:613-629 | With the ledger's join section the call is the ring's step and keeps it safe |
| Matching.MatchDuality | umpi.cc:1087-1095 | `recv_match` and `send_match` accept the same pairs, for tags 0..32767: those with equal source and tag, a wildcard of -1 in the receive standing for any |
| Matching.TagLimit | umpi.hh:130-131 | A tag survives its 16-bit field exactly up to 32767; a posted receive with a tag of 65535 modulo 65536 becomes a wildcard |
| Matching.NothingMatchableWaits | umpi.cc:1097-1133 | In every history no waiting message matches a waiting receive |
| Matching.EachUsedOnce | umpi.cc:1097-1133 | In every history each message and each receive either waits in its box or is in one pair, not both, and in no second one |
| Matching.NonOvertaking | umpi.cc:1097-1133 | When a pair is made, every earlier message the receive could take and every earlier receive the message could satisfy is already used |
| Processes.Process.CreateNode | umpi.cc:414-424 | A request is the front free node, reset, or a new one; it is on no other list |
| Processes.Process.RecvRequest | umpi.cc:1097-1112 | The first matching message moves to the front of pending with one more handle and is else unchanged, or a new request, owed one transfer and without error, joins the end of the outbox; every other node is as it was |
| Processes.Process.SendRequest | umpi.cc:1114-1133 | The first matching receive moves to the front of pending, labelled with the sender and with one more handle, its count and error unchanged, or a new request joins the end of the inbox and wakes an owner that probes; every other node is as it was |
| Processes.Process.Finalize | umpi.cc:441-458 | Pending becomes its filter by `used_`, finished nodes are pushed onto free, and a free list longer than the trigger is cut to its first trigger / 2 nodes |
| Processes.SplitInOrder | umpi.cc:445-452 | That filter keeps the order of the pending list, and the nodes pushed stand in front of the free list, the last of the pending list first |
| Processes.Process.Sweep | umpi.cc:445-452 | The in-place loop computes exactly that filter and those pushes |
| Processes.SplitByUse | umpi.cc:445-452 | The split separates by `used_` and loses no cookie |
| Processes.SplitNoDup | umpi.cc:445-452 | The split keeps every node on one list |
| Probe.Search | umpi.cc:1271-1274 | The search between two waits stops at the first unseen match or at the end of the inbox |
| Probe.NoLostProbe | umpi.cc:1265-1279 | A prober asleep has no matching message in its inbox; a match is found by the next wake-up at the latest |
| Probe.ProbeFindsFirst | umpi.cc:1265-1279 | The message reported is the first match of the inbox, however arrivals and wake-ups fell |
| PointToPoint.HandleSafety | umpi.cc:1154-1157 | In every run across processes `used_` is the number of live handles and no live handle refers to a free or erased node; an unmatched receive lies with the process that posted it |
| PointToPoint.ReuseIsSafe | umpi.cc:415-424 | A node is reset for a new request only when no handle and no transfer is outstanding on it |
| PointToPoint.NoTransferAfterCompletion | umpi.cc:514-604 | A message's bytes move only while its creator is before or inside its wait |
| PointToPoint.AnyoneCanPost | umpi.cc:1097-1133 | In every reachable state a message can be left with any process and a receive posted, on a new node or a free one of that process |
| PointToPoint.LeavingReclaims | umpi.cc:441-452 | Giving up a handle leaves no node without handles on the pending list of the process that owns the request |
| PointToPoint.SignalsSleepers | umpi.cc:465-467 | Only a creator asleep is signalled, and only by the report of its transfer |
| PointToPoint.RequestCompletes | umpi.cc:1154-1169 | From every reachable state every request can be brought to its end: matched, its bytes moved and reported, its creator back from the wait, and both handles given up |
| PointToPoint.NoLostWakeup | umpi.cc:460-469 | A creator asleep has an unfinished transfer; a returned one has none |
| Layouts.StreamLength | umpi.hh:50-67 | `count` elements have count * len bytes |
| Layouts.ContiguousStream | umpi.hh:50-67 | Elements of a contiguous type are one range |
| Layouts.BlockAddrsAt | umpi.cc:531-533 | Byte j of block i of an element comes behind all the bytes of the blocks listed before it |
| Layouts.StreamAt | umpi.cc:529-535 | So in the stream of several elements, byte j of block i of element k is byte k * len + (lengths of the blocks before) + j |
| Layouts.StreamFromElement | umpi.cc:527-551 | The stream from element k on is the whole stream with k * len bytes dropped |
| Layouts.StreamWithin | umpi.cc:804-804 | `count` elements touch only the first count * stride bytes |
| Layouts.StreamNoDup | umpi.cc:527-551 | When the blocks of an element do not overlap, no byte is covered twice |
| TypedCopy.ScatteredIov | umpi.cc:529-535 | The nested loops list the ranges of the stream of elements first..end, in order |
| TypedCopy.AddrsAt | umpi.cc:494-496 | The bytes of a list of ranges are those of its ranges, in the order of the list |
| TypedCopy.StoreReads | umpi.cc:552-557 | Bytes stored at distinct addresses are read back, and no other byte changes |
| Transfers.Posted.WriteToOwner | umpi.cc:514-558 | Succeeds exactly when the bytes fit; then the local stream is poured into the owner's from `seek`, and `count_` stays if the bytes reach past it and else becomes the number of whole elements in them |
| Transfers.Posted.ReadFromOwner | umpi.cc:560-604 | Succeeds exactly when both sizes allow; moves the count asked for, or as many whole elements as remain when it is 0 |
| Transfers.ReadMoves | umpi.cc:562-563 | A read of n elements moves the bytes of n local elements; without a number, of as many whole ones as remain behind `skip` |
| Transfers.UmpiCopy | umpi.cc:471-512 | Returns 0 and changes nothing when the destination is too small; otherwise the `memcpy` path and the general path pour the same stream |
| TransferTheorems.CopyJoinsStreams | umpi.cc:471-604 | The destination's byte stream from `seek` becomes the source's from `skip`, the rest of it is unchanged, and bytes no block covers keep their values |
| Outcomes.SendThenReceive | umpi.cc:1097-1112 | Error, status (source, tag, length; none when the read is refused) and buffer when the send comes first |
| Outcomes.ReceiveThenSend | umpi.cc:1114-1133 | Error, status (source, tag, length; the posted length when the write is refused) and buffer when the receive comes first |
| Outcomes.OutcomeIndependent | umpi.cc:1193-1201 | Error, status and memory are the same in both orders exactly when the message is a whole number of the receiver's elements and fits |
| Outcomes.OrderShows | umpi.cc:519-519 | Five bytes into elements of four: the two orders differ in bytes moved and in the status |
| Outcomes.TruncationShows | umpi.cc:517-518 | Eight bytes into room for four: both orders fail, one without a status and one with a status of four bytes |
| Datatypes.CreateHindexed | umpi.cc:197-223 | A type is built exactly when the old one is contiguous, there is a block, no block length is 0 and no displacement negative; every entry, the stride and the length, in 64-bit arithmetic |
| Datatypes.CreateStruct | umpi.cc:225-252 | The same with a type for each block |
| Datatypes.ReachAttained | umpi.cc:216-216 | The stride is 0 or the end of some entry, and no entry ends beyond it |
| Datatypes.FaithfulExactly | umpi.cc:208-220 | The type built has the lengths asked for, inside its stride, exactly when no block is negative or reaches 2^63 and the lengths add up below 2^64 |
| Datatypes.NegativeBlock | umpi.cc:201-203 | The guard accepts a block length of -1, and its block then passes the stride |
| Datatypes.Footprint | umpi.cc:197-252 | A representable request gives a type whose `count` elements stay inside count * stride bytes |
| Datatypes.StagingFits | umpi.cc:811-812 | What passes the staging guard stays inside the 64-byte buffers |
| Datatypes.ResizedSound | umpi.cc:254-275 | A resized type is as sound as the old one, for both branches |
| Datatypes.ResizedRefuses | umpi.cc:254-257 | Refused exactly: a lower bound other than 0, or an extent below the old stride |
| Datatypes.ResizedStream | umpi.cc:254-275 | The elements of a resized type are the old ones, `extent` apart |
| Datatypes.TypeContiguous | umpi.cc:175-195 | A contiguous type gets count times its length, modulo 2^64; the loop repeats the blocks of a scattered one as they stand |
| Datatypes.ContiguousShape | umpi.cc:175-195 | The derived type's length modulo 2^64, its extent, and its blocks: block b of every copy is the old block b |
| Datatypes.ContiguousExactly | umpi.cc:190-191 | One element of the derived type is `count` old elements exactly when: for a contiguous type, count * len stays below 2^64; for a scattered one, count is at most 1 or there are no bytes |
| Datatypes.ContiguousMisplaces | umpi.cc:190-191 | Two elements of one byte in every second: the derived type covers the first byte twice |
| Pool.RoundedCovers | memory_pool.hh:96-97 | Rounding gives a multiple of 16 that covers the request exactly when it does not wrap, and whose free list is the one of its size |
| PoolTheorems.NextInv | memory_pool.hh:30-70 | Every allocation and deallocation keeps the blocks laid out, the lists sorted and the bytes balanced |
| PoolTheorems.BlocksDisjoint | memory_pool.hh:30-53 | In every run blocks are disjoint, 16-aligned and inside the pool |
| PoolTheorems.Handed | memory_pool.hh:30-53 | A block handed out was not in use, is as long as asked, and no other block changes |
| PoolTheorems.FreeOnce | memory_pool.hh:55-70 | A free block is on one list, once, that of its size |
| PoolTheorems.BytesConserved | memory_pool.hh:25-70 | Bytes in use, on free lists and never cut add up to the pool |
| PoolTheorems.BlockKept | memory_pool.hh:81-93 | A block keeps its address and size class for the rest of the run |
| PoolTheorems.LastInFirstOut | memory_pool.hh:81-93 | Freeing a block and asking for its size returns that block and restores the pool |
| PoolTheorems.GivingBackRestores | memory_pool.hh:81-93 | Returning a reused block restores the pool |
| PoolTheorems.ConstructorExactly | memory_pool.hh:25-28 | The start is aligned and inside the given memory, or nothing can be cut, exactly when an aligned block fits or the memory is shorter than one; the start is the first aligned address when a block fits there |
| PoolTheorems.NullHandedOut | memory_pool.hh:25-28 | Twenty bytes at address 8: the first request is served at the null pointer |
| MemoryPools.Acyclic | memory_pool.hh:81-95 | Following the links of free list i visits count_[i] different blocks |
| MemoryPools.WordInOneBlock | memory_pool.hh:84-84 | No word lies in two blocks, so writing a link changes no other block |
| MemoryPools.MemoryPool.constructor | memory_pool.hh:25-28 | A new pool is valid, empty and starts where `std::align` says |
| MemoryPools.MemoryPool.Alloc | memory_pool.hh:30-53 | Null for nothing; else the front of the free list of its class when there is one; else a cut off the free space when the rounded length is at most that; else exit. The pool stays valid and no memory is written |
| MemoryPools.MemoryPool.Dealloc | memory_pool.hh:55-70 | Exits exactly for oversized classes; otherwise the block is pushed and only its own first word is written |
| MemoryPools.MemoryPool.Use | memory_pool.hh:81-86 | A caller's write into a block it holds leaves every free list intact |

## Left out

- Matched collectives are assumed: all ranks issue them in the same order with the same root and equal byte totals, and at least two ranks take part (one is enough for scan). A lone bcast, scatter or gather would read the back of an empty list and a lone allgather would wait for ever.
- Operators are an abstract commutative, associative function, as `MPI_Op_create` demands the first and reductions need the second; floating-point rounding is not modelled.
- A join section is one atomic step, since it runs under the slot lock; `used_` updates are atomic, although `join` and `leave` run under different locks.
- Error paths that return with the slot still locked, which are those on arguments a collective rejects outright.
- CollectSlot.Collect.FinishTransfer: the return of the error from the caller is not a method of the class; `RootedCalls` has it as a step. After an error the request is not waited for, as in the blocking calls, and is never left.
- What a sleeping rank makes of a destroyed node when its condition variable returns without a signal: it goes back to sleep.
- Staging buffers and `displs_` are assumed not to be recycled by a second collective in the same slot while an unlocked rank still reads them. A root that waits for its gatherv first cannot do so (`SlotRuns.DisplacementsRead`); one that enters 16 further collectives without waiting can.
- Exscan in place at rank 0, where the cookie registers the marker for its buffer.
- Gather and gatherv: the root's own block is placed before the collective starts.
- AllgathervLoop.EventKeeps: a root whose wait reports another rank's refusal need not return from the loop; to stop there is a run in which it takes no further step.
- SlotRing.RingSafety: takes the shape of a join section's box as given; `SlotRuns` proves it of every kind and then the ring's safety without it.
- NodeLife.HandleSafety: says nothing of a message's own handles, which `PointToPoint.HandleSafety` covers; which free node is reused and when a call fails are left open, `RootedCalls` says the latter.
- Collective buffers are sequences of elements; the byte-level meaning of one transfer is the subject of `Transfers`.
- ScanCollective.SortedBySource: the list sort is modelled by its result, a permutation in ascending order of source.
- `MPI_Waitany`: `notify_done` does not signal a process waiting for any cookie, and the index it returns is not re-based, so no wake-up and no index is claimed.
- Eventual reclamation: cookies of messages sent first stay in the receiver's pending list until that process finalizes; safety is proved, not a memory bound.
- Matching.NonOvertaking: covers tags 0..32767 and ranks below 32768, beyond which the 16-bit fields fail (`Matching.TagLimit`, `CounterFields.FieldsFitExactly`).
- PointToPoint.HandleSafety: which matching cookie is taken and which free node is reused is left open there; `Process` fixes both.
- Probe.NoLostProbe: the inbox only grows while its owner sleeps, since a process takes messages off its own inbox only.
- `process_vm_readv` and `process_vm_writev` are taken as given: they move the smaller of the two totals in list order and do not fail; limits on the number of ranges are not modelled.
- Counts, `skip` and `seek` are naturals, and products of counts and lengths do not wrap, except in the type constructors.
- Datatypes.TypeContiguous: counts are not negative, the stride of a repeated scattered type is not wrapped, and a scattered type has at least one block.
- Transfers.Posted.ReadFromOwner: a default count (0) is asked for only with `skip` inside the posted buffer, as all callers do; otherwise the source's unsigned difference wraps.
- Types are values, so the interning of committed types and `MPI_Type_free` do not appear.
- TransferTheorems.CopyJoinsStreams: asks that the destination's blocks do not overlap; with overlapping blocks the later byte of the stream wins.
- The pool's memory is counted in 8-byte words, the size of a link, and a pointer is an offset from the mapping's start; `max_size` is left out.
- `mpiexec`, `MPI_Init`, `MPI_Finalize`, communicators, packing, clocks, `based_ptr` arithmetic, and the mutex, condition variable and barrier themselves.
