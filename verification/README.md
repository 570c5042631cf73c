# A verified model of pysnmp's engine core

The parts of pysnmp whose correctness depends on state kept over many calls, or on an
encoding or an order being exact, modelled in Dafny and proved for every input, every run
and every interleaving. Where the code changes things step by step the model is a class
whose methods are proved against a specification function, and the promises are lemmas
about that function and about runs of it.

`dafny verify dfyconfig.toml` checks the project.

| file | what it models |
|---|---|
| `Lifecycle.dfy`, `LifecycleSafety.dfy`, `LifecycleRuns.dfy`, `LifecycleRetries.dfy`, `LifecycleTimely.dfy`, `Engine.dfy` | requests from send to final callback: dispatcher cache, pending requests, jobs, sweeps, retries, and when a callback comes |
| `NextId.dfy`, `Ticks.dfy` | the handle generator; the clock that timeouts are counted on and its timers |
| `SetMachine.dfy`, `SetAtomicity.dfy`, `ReadRuns.dfy`, `ScalarSet.dfy`, `ScalarReads.dfy` | the machine behind GET, GETNEXT and SET, what it promises and answers, and what scalar instances make of it |
| `OidKey.dfy`, `Corpus.dfy`, `CompositeCorpus.dfy`, `Revision.dfy` | the OID byte codec, the ownership-filtered walk and search over several corpora, the choice between copies of a module |
| `OrderedIndex.dfy`, `LabelView.dfy` | the lazily sorted dictionary; the one-pass label index |
| `Bulk.dfy` | GETBULK, on the stack or from a coroutine, and what a failing request leaves |
| `Filter.dfy`, `NotifyOrder.dfy`, `InformFanIn.dfy`, `InformRuns.dfy` | notification filtering, binding order, and INFORM completion over the lifecycle of the requests sent |
| `ExecContext.dfy`, `SuspendedRequests.dfy` | execution points entered and left a turn at a time; requests that suspend while others are served |
| `TypeDecl.dfy` | building a module's types in dependency order |
| `Lex.dfy`, `Wrappers.dfy` | lexicographic order, stable sorting, Option and Result |

## How the request lifecycle is modelled

A state holds the dispatcher's cache, the command generator's pending requests, the job
count and the ticks. A step is what runs between two callbacks: a send (also one made from
inside a callback), a response, a dropped report, a tick, and the turns of a sweep, which
works on a snapshot while callbacks send or raise. A run is any sequence of steps that one
thread can take. Message processing, security, transport and observers enter as the result
of a send: delivered, or an exception, by the place it is raised (looking the message
processing model up, preparing the message, an observer at `rfc3412.sendPdu`, the transport)
and by its kind (`StatusInformation`, another `PySnmpError`, any other). An observer of
`rfc3412.receiveMessage:response` may raise as well. Handles are the generator's, and their
distinctness is proved, not assumed: the one condition on a run is that fewer handles are
drawn during the life of a request than the generator issues before it may repeat one. The
objects of `Engine.dfy` record the steps they take, so whatever holds of runs holds of them.
`InformRuns.dfy` puts the fan-in of notifications on top of the same runs.

## How suspended requests are modelled

Code is a tree of awaits, looks at an execution point, exceptions, handlers and `with` blocks.
A turn runs it to its next await or its end over the running task's map, as a stack of points
to leave and code to go on with; what it leaves open stays in that task's map. A run is any
sequence of arriving messages, turns and cancellations.

## Where the code and its promises part

Each is proved as an exact condition on the input or the run, or shown by a concrete one.

- A retry that fails with an error other than `StatusInformation` loses its request without a
  callback; so does a failure the command generator cannot read, as a report without bindings
  brings one (`LifecycleRuns.NoneLostIff`, `LifecycleRuns.BrokenRetryLosesRequest`,
  `LifecycleRuns.BlankReportLosesRequest`). One such target and an INFORM is never called back
  (`InformRuns.NotificationCalledBackIff`, `InformRuns.OneBlankReportSilences`).
- A send leaves a cache entry nobody waits for if an observer raises at `rfc3412.sendPdu`, or
  anything that is not a `PySnmpError` comes out of preparing or the transport. Where that is
  a retry's observer raising a `StatusInformation`, the sender is told that it failed while the
  entry stays (`LifecycleRuns.StoresAgreeIff`, `LifecycleRuns.StrayingSendStrandsEntry`,
  `LifecycleRuns.ObservedRetryToldAndStranded`).
- An observer that raises at `rfc3412.receiveMessage:response` leaves a request pending for
  good, with no cache entry to time out and a job that never finishes
  (`LifecycleRuns.NoneForsakenIff`, `LifecycleRuns.ForsakenForGood`,
  `LifecycleRuns.InterruptedResponseForsakes`).
- The two retry counts reset each other, so a request has a bound on its transmissions if and
  only if one of the two limits is zero (`LifecycleRetries.BoundedIff`,
  `LifecycleRetries.AlternatingNeverEnds`).
- A dropped report for a handle that is no longer cached raises `TypeError`
  (`Engine.Manager.ReceiveReport`).
- `handleTimerTick` says that a callback due fractionally early is not held back a whole tick.
  A timer registered without an interval is held back one whenever two ticks are closer than
  the resolution (`Ticks.TickRunsTimerIff`, `Ticks.DefaultTimerMissesTick`). The asyncio
  dispatcher sleeps a whole resolution between calls; the polls of the example are those of
  a dispatcher of one's own.
- The label pass is right if and only if neighbouring OIDs fit; a skipped parent costs a name
  (`LabelView.PassIsRightExactly`, `LabelView.SkippedParentLosesName`).
- `MibScalarInstance.writeUndo` puts its backup back even where no commit took one, so a failed
  commit empties every instance after it (`ScalarSet.UndoLosesUncommitted`,
  `ScalarSet.RollbackIsExactIff`). Reading an emptied instance back is an `AttributeError`,
  which hides the commit's error unless another error stops the reading first
  (`ScalarSet.CommitErrorReportedIff`, `ScalarSet.FirstCommitErrorHidden`); a later SET cannot
  write it again (`ScalarSet.EmptiedStaysEmptied`).
- `flipFlopFsm` catches only `SmiError`: a commit that raises anything else is neither undone
  nor cleaned up, and the writes made by then stay (`SetAtomicity.AllOrNothing`,
  `ScalarSet.BrokenCommitHalfDone`).
- The SET table's comment says that read errors are ignored. They are reported, with every
  write in force, exactly when a written binding cannot be read back
  (`SetAtomicity.ErrorWithWritesInForce`): as for a scalar that the requester's view lets it
  write and not read (`ScalarSet.UnreadableWritesError`, `ScalarSet.WriteOnlyScalarErrors`).
- A request that fails with anything but a `PySnmpError` is never answered and its state is
  kept for good; so is one whose error status cannot be made or sent, and one that suspends
  and is never taken up again (`Bulk.StateLeftBehindIff`, `Bulk.ForeignFailureLeavesState`,
  `Bulk.AbandonedWorkLeavesState`).
- An INFORM that meets an exception other than `StatusInformation` before anything was sent
  never calls back (`InformFanIn.CalledBackIff`).
- A walk shows one row per OID and corpus, and hides an owned row behind one that sorts before
  it (`Corpus.WalkIsOwnedRows`, `Corpus.ShadowingHappens`).
- `subtree_bound`'s fallback for a key of 0xFF bytes leaves descendants out; no encoded OID
  reaches it (`OidKey.SubtreeRangeExact`, `OidKey.SubtreeOfOid`).
- A caller who lists several uptimes can have a second one sent (`NotifyOrder.SingleUptimeIff`).
- A request whose task is cancelled before its first step leaves its transport info behind
  (`SuspendedRequests.EntryGoneUnlessCancelledEarly`,
  `SuspendedRequests.CancellingEarlyLeaks`).
- An undated module ranks with one stamped all zeros (`Revision.UndatedRanksLast`).

## Model

| member | source | states |
|---|---|---|
| LifecycleSafety.StepSound | pysnmp/proto/rfc3412.py:185-284 | no legal step, whatever it sends, answers, expires or retries, breaks the agreement of cache, pending requests and jobs or the sweep under way; cache and pending requests, where they have the same keys, part exactly at a send that leaves its entry behind or a response an observer interrupts |
| LifecycleSafety.RunSound | pysnmp/proto/rfc3412.py:653-716 | in every reachable state each pending request is one job, and what is cached under its handle is for its own request and peer, with the deadline its last transmission gave it |
| LifecycleSafety.FreshHandle | pysnmp/proto/rfc3412.py:185-194 | the handle the generator draws next belongs to no outstanding request |
| LifecycleSafety.FinishSound | pysnmp/proto/cache.py:46-56 | deleting a swept index after its callback deletes nothing that a retry or callback has cached since |
| LifecycleSafety.BeginSweep | pysnmp/proto/cache.py:46-56 | a snapshot in any order of the dictionary starts a sweep with every cached request ahead of it |
| LifecycleRuns.OneFinalCallback | pysnmp/entity/rfc3413/cmdgen.py:113-250 | in every run each accepted request is pending under one handle, or has had exactly one final callback, or was lost, and no other request is any of these |
| LifecycleRuns.NoneLostIff | pysnmp/entity/rfc3413/cmdgen.py:128-219 | no request is dropped without its callback if and only if no retry fails with an error other than `StatusInformation` and no failure is one the command generator cannot read |
| LifecycleRuns.BrokenRetryLosesRequest | pysnmp/entity/rfc3413/cmdgen.py:168-219 | a run in which a retry that meets a transport error loses an accepted request |
| LifecycleRuns.BlankReportLosesRequest | pysnmp/proto/mpmod/rfc3412.py:842-857 | a run in which a report without bindings loses an accepted request |
| LifecycleRuns.NoneForsakenIff | pysnmp/proto/rfc3412.py:676-734 | every pending request can still be answered or timed out if and only if no observer interrupted the response to one |
| LifecycleRuns.ForsakenForGood | pysnmp/proto/rfc3412.py:676-734 | an interrupted request stays pending in every later state, never called back, its job unfinished |
| LifecycleRuns.InterruptedResponseForsakes | pysnmp/proto/rfc3412.py:698-712 | a run in which an observer that raises does that |
| LifecycleRuns.StoresAgreeIff | pysnmp/proto/rfc3412.py:185-284 | cache keys and pending keys are equal in every state of a run if and only if no send of it leaves its entry behind, by an observer at `rfc3412.sendPdu` or an exception that is not a `PySnmpError`, and no observer interrupts a response |
| LifecycleRuns.StrayingSendStrandsEntry | pysnmp/proto/rfc3412.py:224-268 | a run, for each such place and exception, that leaves an entry cached for a request never accepted |
| LifecycleRuns.ObservedRetryToldAndStranded | pysnmp/proto/rfc3412.py:246-268 | a run in which the sender is told that its retry failed while the entry of the retry stays |
| LifecycleRuns.JobsCountPending | pysnmp/carrier/base.py:282-297 | jobs number the pending requests, so none is pending exactly when the loop may exit |
| LifecycleRuns.NoHandleIsMissing | pysnmp/entity/rfc3413/cmdgen.py:128-130 | where no send leaves its entry behind and no response is interrupted, "Missing sendPduHandle" is unreachable: every cached handle and every handle still to be swept is pending |
| LifecycleRuns.RunFaithful | pysnmp/entity/rfc3413/cmdgen.py:168-205 | however often it is sent again, a request keeps the peer, timeout and retry count it was first sent with, and the callback about it is its sender's |
| LifecycleRuns.CallbackSaysWhy | pysnmp/entity/rfc3413/cmdgen.py:136-250 | a step makes at most one final callback, to the sender of the request it answers or fails; a failure is told as itself if and only if the retries for it are spent, and as a failed send if and only if they are not and the retry raised a `StatusInformation` |
| LifecycleRuns.FailureSendsAgain | pysnmp/entity/rfc3413/cmdgen.py:141-205 | any other failure that can be read sends the request again under the next handle, its own kind counted and the other kind's count starting over |
| LifecycleRuns.RetiredStaysRetired | pysnmp/proto/rfc3412.py:679-692 | a handle once given up is not cached again before the generator may repeat itself |
| LifecycleRuns.LateResponseIgnored | pysnmp/proto/rfc3412.py:679-692 | a late or duplicate response changes nothing and is never matched to another request |
| LifecycleRuns.ResponseEndsItsRequest | pysnmp/entity/rfc3413/cmdgen.py:221-250 | a response in time that no observer interrupts ends its own request with one callback saying what it is, and touches no other |
| LifecycleRuns.SweepSparesTheRest | pysnmp/proto/rfc3412.py:750-791 | nothing that is not due is touched from the start of a sweep to its end, whatever callbacks send or raise |
| LifecycleRuns.NoEarlyTimeout | pysnmp/proto/rfc3412.py:750-763 | no sweep fails a request while the timeout of its last transmission still runs |
| LifecycleRuns.OtherPeersUntouched | pysnmp/proto/rfc3412.py:793-829 | a lost transport fails requests to that peer and no other |
| LifecycleRuns.SweepIsThorough | pysnmp/proto/cache.py:46-56 | a sweep that ends has failed everything due that was outstanding when it began |
| LifecycleRetries.RunFair | pysnmp/entity/rfc3413/cmdgen.py:141-205 | at most one retry count of a pending request is above zero, none is past its limit, no failure is reported before its kind's retries are spent, and transmissions stay within the budget |
| LifecycleRetries.TransmissionBound | pysnmp/entity/rfc3413/cmdgen.py:141-205 | with at most D discovery failures a request is transmitted at most (D + 1) * (retryCount + 1) times, and exactly retryCount + 1 times if it fails having seen none |
| LifecycleRetries.AlternatingNeverEnds | pysnmp/entity/rfc3413/cmdgen.py:143-148 | failures of alternating kinds keep one request pending through any number of transmissions |
| LifecycleRetries.BoundedIff | pysnmp/entity/rfc3413/cmdgen.py:143-154 | transmissions are bounded over all runs if and only if retryCount or discoveryRetries is zero |
| LifecycleTimely.NothingOverdue | pysnmp/proto/rfc3412.py:750-763 | from a clock sweep that comes to its end until the next tick nothing cached is overdue |
| LifecycleTimely.PendingIsRecent | pysnmp/entity/rfc3413/cmdgen.py:141-205 | where every tick is followed by a complete sweep, a request that saw at most D discovery failures and no interrupted response is pending for fewer than (D + 1) * (retryCount + 1) timeouts, each rounded up to a tick |
| LifecycleTimely.ToldInTime | pysnmp/entity/rfc3413/cmdgen.py:113-250 | by then it has had its one final callback, if nothing was dropped and no response interrupted |
| LifecycleTimely.SilentPeerTimesOut | pysnmp/proto/rfc3412.py:750-791 | where nothing ever comes back, a request is told that it timed out, once, after exactly retryCount + 1 transmissions and at most that many timeouts |
| Engine.Cache.Add | pysnmp/proto/cache.py:22-25 | the request is remembered under its handle |
| Engine.Cache.Pop | pysnmp/proto/cache.py:27-38 | the request is taken out, or nothing where the handle is unknown |
| Engine.Cache.Update | pysnmp/proto/cache.py:40-44 | what is remembered is added to, or an error and no change |
| Engine.Manager.DispatchPdu | pysnmp/proto/rfc3412.py:185-284 | adding, popping and updating the cache around a send leaves what the specification says for each place and kind of failure |
| Engine.Manager.DrawHandle | pysnmp/proto/rfc3412.py:185-187 | an unconfirmed PDU uses a handle up and nothing else |
| Engine.Manager.SendPdu | pysnmp/entity/rfc3413/cmdgen.py:252-341 | a send takes the machine's Submit step; it is accepted exactly when the dispatcher did not raise |
| Engine.Manager.ProcessResponsePdu | pysnmp/entity/rfc3413/cmdgen.py:113-250 | the method body, counters and retry included, leaves the specified state and raises exactly when specified |
| Engine.Manager.ReceiveResponse | pysnmp/proto/rfc3412.py:676-734 | the response branch takes the machine's Respond step, observers that raise after the cache was popped included |
| Engine.Manager.ReceiveReport | pysnmp/proto/rfc3412.py:508-521 | a dropped report takes the Report step, and raises for an unknown handle with nothing changed |
| Engine.Manager.SweepNext | pysnmp/proto/rfc3412.py:750-791 | one item of a sweep takes the Next step |
| Engine.Manager.SweepFinish | pysnmp/proto/cache.py:53-56 | the deletion after the callback takes the Finish step |
| Engine.Manager.SendAll | pysnmp/entity/rfc3413/cmdgen.py:252-341 | a callback's sends take one Submit step each, in order |
| Engine.Manager.SweepItem | pysnmp/proto/cache.py:46-56 | one turn of the loop takes the item, then what its callback sends, then the deletion, or ends the sweep where the callback raised |
| Engine.Manager.Expire | pysnmp/proto/rfc3412.py:793-834 | a whole sweep, with callbacks that send and callbacks or retries that raise, takes exactly the machine's steps, and stays a run of it where there is room for all the handles it may draw |
| Engine.AmpleSweepIsLawful | pysnmp/proto/cache.py:46-56 | a sweep whose retries and callbacks draw no more handles than there is room for finds room throughout |
| Engine.Manager.AdvanceClock | pysnmp/carrier/base.py:276-277 | a tick changes the tick count only |
| Engine.Manager.Consistent | pysnmp/carrier/base.py:282-297 | after any sequence of calls, each of which found room, the objects' own fields satisfy the run theorems: jobs number the pending requests, those are cached unless a response was interrupted, and each accepted request has one end |
| NextId.Issued | pysnmp/nextid.py:14-47 | every value issued is below maximum plus threshold |
| NextId.IssuedCounts | pysnmp/nextid.py:14-47 | the first value is the start, and each later one is the one before plus one, or zero after one that has reached the maximum |
| NextId.ConsecutiveValuesDistinct | pysnmp/nextid.py:14-47 | any maximum + 1 consecutive values are pairwise distinct, wraps included, for every start and every increment from 2 up below the maximum |
| NextId.RefillLeavesMore | pysnmp/nextid.py:36-47 | when the next refill comes due something is still behind the value popped |
| NextId.Integer.constructor | pysnmp/nextid.py:14-27 | a new generator has issued nothing and holds its first bank |
| NextId.Integer.Next | pysnmp/nextid.py:34-47 | no call finds the bank empty, and call i returns the i-th value of the cycle |
| Ticks.TicksTakeTime | pysnmp/carrier/base.py:264-280 | however often the loop polls, n ticks take more than n times the resolution less the delta |
| Ticks.TimersAreSpaced | pysnmp/carrier/base.py:34-43 | two runs of a timer are never closer than its interval |
| Ticks.PollTicksIff | pysnmp/carrier/base.py:264-280 | a poll ticks, once, if and only if more than 0.95 of the resolution has passed since the last tick or the first poll |
| Ticks.TickRunsTimerIff | pysnmp/carrier/base.py:264-280 | a tick runs a timer the first time at once and later exactly when its interval has passed since it last ran; between ticks none runs |
| Ticks.DefaultTimerMissesTick | pysnmp/carrier/base.py:264-280 | a run of the default clock in which a default timer is held back a tick |
| Ticks.TransportDispatcher.HandleTimerTick | pysnmp/carrier/base.py:264-280 | the method computes the specified clock, each timer called at most once |
| Ticks.TransportDispatcher.RegisterTimerCbFun | pysnmp/carrier/base.py:190-194 | a timer without an interval gets the resolution |
| SetMachine.MibInstrumController.FlipFlopFsm | pysnmp/smi/instrum.py:242-311 | the loop over table, phases and bindings leaves the objects and the outcome the run specification says, an exception that is not an `SmiError` coming out at once, or an unresolved state |
| SetMachine.MibInstrumController.ReadVars | pysnmp/smi/instrum.py:313-315 | GET is the run of the read table that `ReadRuns.GetReads` is about |
| SetMachine.MibInstrumController.ReadNextVars | pysnmp/smi/instrum.py:317-319 | GETNEXT is the run of the read-next table that `ReadRuns.GetNextReads` is about |
| SetMachine.MibInstrumController.WriteVars | pysnmp/smi/instrum.py:321-323 | SET runs the write table to its end |
| SetMachine.WriteTable | pysnmp/smi/instrum.py:83-100 | where the write table leads from every state and status, exact keys before `*` |
| SetMachine.WriteDescends | pysnmp/smi/instrum.py:83-100 | no SET goes round in circles |
| SetMachine.ReadDescends | pysnmp/smi/instrum.py:69-75 | no GET goes round in circles |
| SetMachine.ReadNextDescends | pysnmp/smi/instrum.py:76-82 | no GETNEXT goes round in circles |
| ReadRuns.PhaseIs | pysnmp/smi/instrum.py:279-303 | a phase calls its handler for each binding in order, on what the call before left, up to the first that does not return |
| ReadRuns.ReadRunIs | pysnmp/smi/instrum.py:69-75 | following the read table is testing every binding, then getting every one |
| ReadRuns.ReadNextRunIs | pysnmp/smi/instrum.py:76-82 | following the read-next table likewise, with its own handlers |
| ReadRuns.GetReads | pysnmp/smi/instrum.py:242-315 | every binding of a GET is tested before any is got; if all return, the answer is the bindings handed back, in the order asked; otherwise the exception of the first that does not return, nothing being called after it |
| ReadRuns.GetNextReads | pysnmp/smi/instrum.py:242-319 | and of a GETNEXT |
| ReadRuns.AnsweredIff | pysnmp/smi/instrum.py:242-319 | a read by handlers that leave the objects alone leaves them alone, and is answered if and only if no test and no get of any binding raises |
| ReadRuns.AnswerIsValues | pysnmp/smi/instrum.py:242-319 | where each get hands a value back the answer is those values, one for each binding and in order |
| ReadRuns.GetAnswers | pysnmp/smi/instrum.py:313-315 | the two together for GET |
| SetAtomicity.WriteRunIs | pysnmp/smi/instrum.py:83-100 | following the table is test, commit if the tests passed, clean up or undo, read back |
| SetAtomicity.SetRunsPhases | pysnmp/smi/instrum.py:83-100 | the calls of a SET are whole phases: tests, then commits if all passed, then cleanup of every binding after a failed test or a full commit and undo of every one after a failed commit, then test reads and reads |
| SetAtomicity.SetTrace | pysnmp/smi/instrum.py:242-311 | for any handlers no binding is committed before every one passed its test, there are at most five calls per binding, nothing is called after an exception that is not an `SmiError`, and what comes out is that exception, else the first `SmiError`, else the bindings |
| SetAtomicity.AllOrNothing | pysnmp/smi/instrum.py:242-311 | for handlers that keep the phase contract a SET leaves every value as it was, or every write in force, unless a commit raises what is not an `SmiError`: then some first writes are in force and the others not made |
| SetAtomicity.WrittenMeans | pysnmp/smi/instrum.py:242-311 | with distinct names, in force means each name holds what was asked and no other name changed |
| SetAtomicity.ErrorWithWritesInForce | pysnmp/smi/instrum.py:95-99 | once tests and commits passed every write is in force, and if the cleanup passed too the SET ends in an exception if and only if reading some written binding back raises |
| ReadRuns.SetAnswers | pysnmp/smi/instrum.py:321-323 | a SET that is answered has passed its tests, commits and cleanup, and its answer is what reading each binding back hands over, in order |
| ReadRuns.SetEchoes | pysnmp/smi/instrum.py:321-323 | for handlers that keep the phase contract that is each name asked with the value now in force under it |
| ScalarSet.UndoLosesUncommitted | pysnmp/smi/mibs/SNMPv2-SMI.py:959-1004 | after a failed commit and an undo, bindings committed before have their values back and every other binding has lost its value |
| ScalarSet.RollbackIsExactIff | pysnmp/smi/mibs/SNMPv2-SMI.py:959-1004 | a failed commit is rolled back exactly if and only if it was the last binding's and had taken its backup |
| ScalarSet.CommitErrorReportedIff | pysnmp/smi/mibs/SNMPv2-SMI.py:837-880 | a failed commit's error is the SET's outcome if and only if the undo emptied nothing or a read stops with an error before it reaches an emptied instance; otherwise an `AttributeError` comes out |
| ScalarSet.FirstCommitErrorHidden | pysnmp/smi/mibs/SNMPv2-SMI.py:837-880 | a SET of two scalars whose first commit fails, which empties both and hides the error |
| ScalarSet.EmptiedStaysEmptied | pysnmp/smi/mibs/SNMPv2-SMI.py:932-968 | a SET that reaches an emptied instance first breaks out of its test and changes nothing |
| ScalarSet.BrokenCommitHalfDone | pysnmp/smi/instrum.py:281-299 | a commit that raises anything but an `SmiError` leaves the bindings committed by then with the new values and the others with the old ones |
| ScalarSet.UnreadableWritesError | pysnmp/smi/mibs/SNMPv2-SMI.py:690-701 | a SET of scalars that passes tests and commits puts every value in force, and is answered with an error if and only if the requester may not read one it wrote |
| ScalarSet.WriteOnlyScalarErrors | pysnmp/smi/mibs/SNMPv2-SMI.py:690-701 | one scalar whose SET is answered with an error and whose new value is in place |
| ScalarReads.GetReturnsValues | pysnmp/smi/mibs/SNMPv2-SMI.py:837-927 | a GET of scalars leaves them alone, is answered if and only if each name may be read and each instance there has a value, and then with those values, or for a name without an instance its exception value, in order |
| ScalarReads.SetReturnsWritten | pysnmp/smi/mibs/SNMPv2-SMI.py:932-1004 | a SET of scalars that goes through and may be read back is answered with exactly the bindings asked |
| ScalarReads.RefusedSetLeavesTree | pysnmp/smi/mibs/SNMPv2-SMI.py:932-1004 | a SET that a test refuses, a name without an instance included, leaves the tree exactly as it was, no write outstanding, and its outcome is the first failing test's error |
| OidKey.KeyEmbedsOrder | pysnmp/smi/corpus.py:128-177 | byte order of keys is numeric order of OIDs, both ways |
| OidKey.KeyEmbedsPrefix | pysnmp/smi/corpus.py:128-177 | one key is a byte prefix of another exactly when the OID is a prefix |
| OidKey.WidthFromBits | pysnmp/smi/corpus.py:168-177 | the width byte is what `bit_length` gives |
| OidKey.WidthIsLeast | pysnmp/smi/corpus.py:168-177 | the width is the least number of bytes that holds the arc |
| OidKey.DecodeRecovers | pysnmp/smi/corpus.py:180-210 | decoding a key recovers the OID |
| OidKey.ReencodingIsExact | pysnmp/smi/corpus.py:180-210 | a byte string decodes to an OID that encodes to it again exactly when it is canonical |
| OidKey.EncodeOid | pysnmp/smi/corpus.py:128-177 | which OIDs are refused and with what error; any other gets its key |
| OidKey.DecodeKey | pysnmp/smi/corpus.py:180-210 | the empty key is refused, a truncated one reported, any encoded one recovered |
| OidKey.SubtreeBound | pysnmp/smi/corpus.py:213-236 | the loop over trailing 0xFF bytes computes the specified bound |
| OidKey.SubtreeRangeExact | pysnmp/smi/corpus.py:213-236 | the range from key to bound is exactly the strings beginning with the key if and only if the key is not all 0xFF |
| OidKey.SubtreeOfOid | pysnmp/smi/corpus.py:213-236 | for encoded OIDs the fallback is never taken and the range is exactly the subtree |
| Revision.BestIsNewestThenFirst | pysnmp/smi/corpus.py:239-278 | configured order unless revisions decide; then nothing is newer and everything earlier is older |
| Revision.BuilderAndCorpusAgree | pysnmp/smi/builder.py:1097-1118 | the builder's first candidate is the copy the corpora pick, for every list dated or not |
| Revision.FoundInOrder | pysnmp/smi/builder.py:1082-1096 | the candidates are the copies of the sources that answered, all and only those, in source order |
| Revision.CandidatesNewestFirst | pysnmp/smi/builder.py:1108-1118 | the builder tries copies newest first and equally dated ones in source order |
| Revision.Candidates | pysnmp/smi/builder.py:1059-1118 | the collecting loop and the sort give the specified order |
| Revision.RankOpposesStringOrder | pysnmp/smi/corpus.py:281-297 | on well-formed stamps the rank is exactly opposite to string order |
| Revision.UndatedRanksLast | pysnmp/smi/corpus.py:281-297 | an undated module ranks after every one stamped other than all zeros |
| Revision.RanksAsUndatedIff | pysnmp/smi/corpus.py:281-297 | a stamp ranks as none if and only if one of its first twelve characters is no digit or all of them are zeros |
| Corpus.OwnerMeans | pysnmp/smi/corpus.py:947-972 | a module carried nowhere has no owner; otherwise the owner carries it, and is the first to unless dates decide: then nothing carried is newer and everything carried earlier is older |
| Corpus.NextRowIsLeast | pysnmp/smi/corpus.py:668-681 | a corpus answers the least row above the OID in (key, module) order |
| Corpus.NextNodeIsLeast | pysnmp/smi/corpus.py:1162-1196 | the composite answers the least visible OID above, or none if there is none |
| Corpus.NextNodeIsFirst | pysnmp/smi/corpus.py:1181-1196 | and the row there is the one shown by the first corpus that shows one at that OID |
| Corpus.WalkVisitsVisible | pysnmp/smi/corpus.py:1162-1196 | repeating `next_node` ends, ascends strictly and visits exactly the visible OIDs |
| Corpus.WalkIsOwnedRows | pysnmp/smi/corpus.py:1162-1196 | the walk visits exactly the OIDs of owned rows if and only if no owned row above the start is shadowed |
| Corpus.OneRowPerOidNeverShadows | pysnmp/smi/corpus.py:1162-1196 | with one row per OID in each corpus nothing is shadowed |
| Corpus.ShadowingHappens | pysnmp/smi/corpus.py:668-681 | two corpora in which an owned row is never shown |
| Corpus.SubtreeHolds | pysnmp/smi/corpus.py:1198-1215 | a subtree is exactly the owned rows at or below the root |
| Corpus.SubtreeInOrder | pysnmp/smi/corpus.py:1208-1215 | its rows come in order of OID, arc for arc, and at one OID of module name, whichever corpora they come from |
| Corpus.SubtreeCounts | pysnmp/smi/corpus.py:1208-1215 | each as often as the corpus that answers for its module lists it, and no other row at all |
| Corpus.SubtreeOids | pysnmp/smi/corpus.py:1198-1215 | its OIDs are exactly those of owned rows below the root |
| Corpus.WalkMatchesSubtree | pysnmp/smi/corpus.py:1162-1215 | walk and subtree show the same OIDs under a root if and only if none of them is shadowed |
| CompositeCorpus.RankInjective | pysnmp/smi/corpus.py:988-1038 | no two modules share a rank |
| CompositeCorpus.RankSettles | pysnmp/smi/corpus.py:988-1038 | the lesser rank is that of the module not wholly obsolete; else of the one whose tier is listed sooner, an unlisted tier last; else of the newer revision; else of the lesser name |
| CompositeCorpus.StandardOutranksVendor | pysnmp/smi/corpus.py:70-74 | a vendor's module does not take an arc from a live standard one |
| CompositeCorpus.BestAnchorOutranks | pysnmp/smi/corpus.py:1040-1074 | the anchor found is the module that so outranks every other anchored there |
| CompositeCorpus.LongestAnchorMeans | pysnmp/smi/corpus.py:1076-1101 | the search returns the best anchor of the longest prefix anchored in any corpus, or none |
| CompositeCorpus.LongestAnchorUnique | pysnmp/smi/corpus.py:1076-1101 | that answer is unique |
| CompositeCorpus.OneCorpusAgrees | pysnmp/smi/corpus.py:595-623 | with one corpus the composite's search has the one answer that corpus's own search gives, for every OID |
| CompositeCorpus.FindInOne | pysnmp/smi/corpus.py:595-623 | a corpus's loop finds its longest anchored prefix |
| CompositeCorpus.CompositeMibCorpus.Open | pysnmp/smi/corpus.py:870-882 | a composite of nothing is refused |
| CompositeCorpus.CompositeMibCorpus.Owner | pysnmp/smi/corpus.py:947-972 | memoised or not, the owner is the specified one |
| CompositeCorpus.CompositeMibCorpus.Rank | pysnmp/smi/corpus.py:988-1038 | memoised or not, the rank is the specified one, whose meaning is `CompositeCorpus.RankSettles` |
| CompositeCorpus.CompositeMibCorpus.BestByCorpusRank | pysnmp/smi/corpus.py:300-314 | the unique minimum of the rank, whatever order the candidates come in |
| CompositeCorpus.CompositeMibCorpus.AnchorAt | pysnmp/smi/corpus.py:1040-1074 | the best-ranked module anchored at an OID in any corpus |
| CompositeCorpus.CompositeMibCorpus.FindModule | pysnmp/smi/corpus.py:1076-1101 | the longest anchored prefix's best anchor |
| CompositeCorpus.CompositeMibCorpus.StepOver | pysnmp/smi/corpus.py:1162-1196 | a corpus is stepped past rows it does not own, and the stepping ends |
| CompositeCorpus.CompositeMibCorpus.NextNodeAfter | pysnmp/smi/corpus.py:1162-1196 | the merge over corpora computes the specified node, or refuses the OID |
| CompositeCorpus.CompositeMibCorpus.OwnedRows | pysnmp/smi/corpus.py:1103-1118 | exactly the rows a corpus answers for, in order |
| CompositeCorpus.CompositeMibCorpus.SubtreeAt | pysnmp/smi/corpus.py:1198-1215 | the merged and sorted subtree is the specified one, or the root is refused |
| OrderedIndex.OidOrderedDict.Perform | pysnmp/smi/indices.py:16-158 | any one operation answers as a plain map that is sorted afresh |
| OrderedIndex.OidOrderedDict.PerformAll | pysnmp/smi/indices.py:16-158 | so does any sequence of writes and reads |
| OrderedIndex.PlainStepDetermined | pysnmp/smi/indices.py:16-158 | the plain map's answers are unique, so agreement is exact |
| OrderedIndex.BisectFindsNext | pysnmp/smi/indices.py:124-148 | the search finds the least key above, whether or not the key asked about is present |
| OrderedIndex.VisitsAllLater | pysnmp/smi/indices.py:124-148 | repeating `nextKey` visits every later key once, ascending, and then raises |
| OrderedIndex.OidOrderedDict.SetItem | pysnmp/smi/indices.py:174-185 | the value is stored and only a new key spoils the order |
| OrderedIndex.OidOrderedDict.DelItem | pysnmp/smi/indices.py:187-191 | the key goes, or `KeyError` and no change |
| OrderedIndex.OidOrderedDict.Clear | pysnmp/smi/indices.py:48-52 | empty, the conversion cache kept |
| OrderedIndex.OidOrderedDict.NextKey | pysnmp/smi/indices.py:124-148 | the least key above, or `KeyError` when there is none |
| OrderedIndex.OidOrderedDict.GetKeysLens | pysnmp/smi/indices.py:150-158 | the distinct key lengths, descending, as of now |
| LabelView.PassIsRightExactly | pysnmp/smi/view.py:144-175 | every one-pass label is the recursive one if and only if every two neighbours in OID order fit |
| LabelView.ClosedFits | pysnmp/smi/view.py:144-175 | where every parent is indexed, neighbours fit |
| LabelView.ClosedLabel | pysnmp/smi/view.py:144-175 | there a label is the parent's label and the node's own name |
| LabelView.SkippedParentLosesName | pysnmp/smi/view.py:150-158 | two OIDs for which the pass loses a name |
| LabelView.NextBase | pysnmp/smi/view.py:149-170 | the branches on the key difference compute the specified base |
| LabelView.IndexLabels | pysnmp/smi/view.py:144-175 | the loop, rewriting both indices in place, computes the specified pass |
| LabelView.LabelsEndInNames | pysnmp/smi/view.py:171-175 | every label indexed ends in a node's own name and leads back to a node of that name |
| LabelView.PassInverse | pysnmp/smi/view.py:171-175 | each label indexed is that of the OID it leads to, and every OID's label leads to it or, where two share one, to a later one |
| LabelView.SplitsAtLongestPrefix | pysnmp/smi/view.py:213-233 | an OID is split into its longest indexed prefix, that prefix's label and the arcs after it; no arc is lost |
| LabelView.ViewSplitsOid | pysnmp/smi/view.py:144-233 | so it is over the very indices the pass builds from names that are words, and where neighbours fit the label is the recursive one |
| LabelView.LabelSplitsAsOid | pysnmp/smi/view.py:213-233 | where the two indices undo each other a label with arcs after it is split as the OID it stands for with those arcs |
| LabelView.ViewSplitsLabel | pysnmp/smi/view.py:144-233 | so it is with the indices the pass builds, for every node's label |
| Bulk.BulkCommandResponder.Read | pysnmp/entity/rfc3413/cmdrsp.py:575-626 | whichever reads suspend the synchronous loop gives the one answer |
| Bulk.BulkCommandResponder.AnswerOnceBulkRead | pysnmp/entity/rfc3413/cmdrsp.py:628-667 | carried on from any read that suspended, the coroutine gives the one answer |
| Bulk.BulkCommandResponder.FailedMgmtOperation | pysnmp/entity/rfc3413/cmdrsp.py:264-363 | an `SmiError` is answered with its status and another `PySnmpError` dropped, releasing the state; anything else comes out and keeps it |
| Bulk.BulkCommandResponder.ProcessPdu | pysnmp/entity/rfc3413/cmdrsp.py:154-262 | answer, error and release are the same whichever reads suspend, as long as suspended work is taken up again; work that never is leaves the state |
| Bulk.StateLeftBehindIff | pysnmp/entity/rfc3413/cmdrsp.py:222-363 | a request's state is left behind if and only if it suspended and was never taken up again, or what it raised is not a `PySnmpError`, or is an `SmiError` whose status cannot be made or sent |
| Bulk.AbandonedWorkLeavesState | pysnmp/proto/rfc3412.py:372-414 | a first read that suspends where the deferred work is refused, or cancelled before its first step, leaves the state although the operation raised nothing |
| Bulk.ForeignFailureLeavesState | pysnmp/entity/rfc3413/cmdrsp.py:357-363 | instrumentation that raises a `ValueError` or is cancelled leaves the state behind |
| Bulk.BulkShape | pysnmp/entity/rfc3413/cmdrsp.py:547-626 | with one result per binding read: the successors of the first N bindings, N as many as asked for and there are, then M rows of the other R, M as many as asked for or as many as fit under the cap, and an error exactly where there is nothing at all |
| Bulk.BulkFails | pysnmp/entity/rfc3413/cmdrsp.py:575-626 | the first read that raises, whichever it is, is the failure of the request |
| Bulk.SuspendedIff | pysnmp/entity/rfc3413/cmdrsp.py:575-619 | the operation suspends if and only if one of the reads it makes does, up to the first that raises |
| Bulk.ServedAs | pysnmp/entity/rfc3413/cmdrsp.py:154-363 | an `SmiError` is refused with its own status and an empty gathering with genErr, any other `PySnmpError` goes unanswered, and only what was sent counts as answered |
| Bulk.RowsFollow | pysnmp/entity/rfc3413/cmdrsp.py:590-619 | each row is the successors of the row before it |
| Filter.RfcMatchUnique | pysnmp/entity/rfc3413/ntforg.py:145-164 | the rule of section 6 of RFC 3413 has one answer for every table and OID |
| Filter.PreparedFilterIsRfc | pysnmp/entity/rfc3413/ntforg.py:89-142 | zeroing masked arcs, sorting and letting the last match win is that rule, short masks extended with ones |
| Filter.PreparedAgrees | pysnmp/entity/rfc3413/ntforg.py:93-135 | comparing zeroed arcs is comparing the arcs the mask selects |
| Filter.PrepareFilterEntries | pysnmp/entity/rfc3413/ntforg.py:89-120 | the preparing loop and sort compute the specified list |
| Filter.MatchPreparedFilter | pysnmp/entity/rfc3413/ntforg.py:123-142 | the last entry that contains the OID decides |
| Filter.MatchFilter | pysnmp/entity/rfc3413/ntforg.py:145-164 | the two together answer by the rule |
| Filter.Passes | pysnmp/entity/rfc3413/ntforg.py:551-596 | a target is sent to exactly when the notification is specifically included and no object specifically excluded |
| NotifyOrder.OrderNotificationVarBinds | pysnmp/entity/rfc3413/ntforg.py:25-86 | the inserting, deleting and moving loops compute the specified order |
| NotifyOrder.OrderIsRfc | pysnmp/entity/rfc3413/ntforg.py:25-86 | refused exactly when snmpTrapOID.0 is missing; otherwise an uptime first, the trap second, nothing lost or out of order but the uptimes |
| NotifyOrder.OrderInFull | pysnmp/entity/rfc3413/ntforg.py:25-86 | the whole list: the caller's first uptime past a leading one in front, or that one, or the agent's own; the first trap name; then the caller's bindings without these in the caller's order, repeated names included |
| NotifyOrder.SingleUptimeIff | pysnmp/entity/rfc3413/ntforg.py:48-67 | a single uptime goes out if and only if the caller listed at most one, or two with one leading |
| NotifyOrder.RestKeepsOrder | pysnmp/entity/rfc3413/ntforg.py:25-86 | behind the two are exactly the caller's other bindings in the caller's order |
| InformFanIn.NotificationOriginator.SendVarBinds | pysnmp/entity/rfc3413/ntforg.py:532-704 | the loop over targets, some rejected or failing, leaves the specified bookkeeping |
| InformFanIn.NotificationOriginator.ProcessResponseVarBinds | pysnmp/entity/rfc3413/ntforg.py:443-472 | one settled target leaves the specified bookkeeping, an unknown one is a `KeyError` |
| InformFanIn.FanSays | pysnmp/entity/rfc3413/ntforg.py:532-704 | sending out leaves an INFORM open on exactly the targets reached and a trap on none; a trap calls back only to say that a send failed, an INFORM that nothing could be sent or there was nobody to send to; and which exceptions come out |
| InformFanIn.CalledBackExactlyOnce | pysnmp/entity/rfc3413/ntforg.py:443-704 | in any interleaving in which each send settles at most once a notification has had its one callback exactly when nothing sent for it is open, at once if nothing was sent, except one abandoned |
| InformFanIn.LastTargetCallsBack | pysnmp/entity/rfc3413/ntforg.py:443-472 | the callback comes with the last target to settle and no earlier |
| InformFanIn.CalledBackIff | pysnmp/entity/rfc3413/ntforg.py:443-704 | once every target has settled a notification was called back once, unless an exception other than `StatusInformation` came out before anything was sent; then never |
| InformRuns.BooksLinked | pysnmp/entity/rfc3413/ntforg.py:193-472 | over whole runs of sends, answers, retries and sweeps that once is proved: every request of a notification is accepted for it alone and settles there exactly if its final callback came, so the one-callback invariant holds with nothing assumed of the sends |
| InformRuns.NoAnswerUnawaited | pysnmp/entity/rfc3413/ntforg.py:443-472 | `processResponseVarBinds` never meets a handle that is not outstanding |
| InformRuns.NotificationCalledBackIff | pysnmp/entity/rfc3413/ntforg.py:193-704 | a notification that was not abandoned has had one callback if no request sent for it is pending or was dropped, and otherwise none |
| InformRuns.NotificationToldInTime | pysnmp/entity/rfc3413/ntforg.py:193-472 | it has had it once the last of its targets has had as long as its retries take, where every tick is followed by a complete sweep and nothing was dropped or interrupted |
| InformRuns.OneBlankReportSilences | pysnmp/entity/rfc3413/ntforg.py:243 | an INFORM to two targets, one of which answers: the other's report has no bindings, nothing is pending any more and no callback came |
| ExecContext.TurnRestores | pysnmp/entity/observer.py:70-110 | however a turn enters, re-enters, raises through or stops inside points, leaving those left open restores the map there was |
| ExecContext.NestingRestores | pysnmp/entity/observer.py:70-110 | any nesting that does not await restores the map that was there, observers and bodies raising, caught or not |
| ExecContext.TellsAt | pysnmp/entity/observer.py:175-180 | a point's observers are told its variables, each once and in order, up to one that raises |
| ExecContext.EnteringTurn | pysnmp/entity/observer.py:27-69 | a turn that enters the request point tells its observers once if it notifies and never if it resumes, and sees only its own variables there |
| ExecContext.TurnStaysInside | pysnmp/entity/observer.py:130-150 | a later turn inside the request point sees only those variables there, tells nobody of it, and if it waits waits inside |
| ExecContext.TurnInside | pysnmp/entity/observer.py:70-110 | entering, running code that does not await and leaving is one turn of the `with` block |
| ExecContext.PointsAreScopes | pysnmp/entity/observer.py:27-110 | over however many turns, entering and leaving points comes to reading them as scopes: code ends, sees and tells as its text says, and the map is as it was |
| ExecContext.MetaObserver.StoreExecutionContext | pysnmp/entity/observer.py:175-180 | the point is stored and its observers called in order, up to one that raises |
| ExecContext.MetaObserver.Enter | pysnmp/entity/observer.py:70-104 | on an observer's exception everything is as it was; a resumed point calls nobody |
| ExecContext.MetaObserver.Unwind | pysnmp/entity/observer.py:91-94 | the point is forgotten and what it hid put back |
| ExecContext.Interpreter.TakeTurn | pysnmp/entity/observer.py:70-110 | entering and leaving points on the observer as the code goes is the specified turn, and every point left open can be left |
| ExecContext.Interpreter.LeaveAll | pysnmp/entity/observer.py:107-110 | an exception nothing catches leaves every open point |
| SuspendedRequests.MessageDispatcher.ReceiveMessage | pysnmp/proto/rfc3412.py:600-674 | entering, serving and leaving the request point leaves the specified state whether observers raise, the application answers, raises or suspends, and the dispatcher can or cannot run a task |
| SuspendedRequests.MessageDispatcher.DeferRequest | pysnmp/proto/rfc3412.py:372-414 | a task in its own copy of the context, or the work abandoned and nothing left open |
| SuspendedRequests.MessageDispatcher.CompleteRequest | pysnmp/proto/rfc3412.py:416-443 | a turn runs over the task's own context; the first puts the transport info back and the last drops it |
| SuspendedRequests.MessageDispatcher.CancelRequest | pysnmp/carrier/asyncio/dispatch.py:218-229 | a cancelled task leaves its points and drops its transport info only if it had begun |
| SuspendedRequests.EveryTaskIsolated | pysnmp/proto/rfc3412.py:416-443 | in every interleaving the loop's context is as it began, a suspended task waits with its own request at the request point under whatever it left open, and a task that ends leaves the map it was created with |
| SuspendedRequests.SeesOwnRequest | pysnmp/entity/rfc3413/cmdrsp.py:365-377 | whatever turn looks at the request point finds the variables of the request it serves |
| SuspendedRequests.FinishedAsAlone | pysnmp/proto/rfc3412.py:416-443 | a request whose task comes to its end has seen, and had heard of it, exactly what it would have if served alone and in one go, whatever came between its turns |
| SuspendedRequests.HeardOncePerMessage | pysnmp/proto/rfc3412.py:427-434 | each observer of the request point hears of each message once, in order, up to one that raises, however often it suspends |
| SuspendedRequests.RoomKeepsFresh | pysnmp/proto/mpmod/cache.py:18-41 | state references are the generator's, and while it is called no more often than it takes to repeat itself during the time a request holds its transport info, no message comes in under a reference in use |
| SuspendedRequests.HoldersApart | pysnmp/proto/rfc3412.py:621-669 | then no two requests that hold transport info share a state reference |
| SuspendedRequests.InfoIsHeld | pysnmp/proto/rfc3412.py:621-669 | and the transport info held is exactly that of open tasks and of those cancelled before their first step, each its own, and jobs count the open tasks |
| SuspendedRequests.EntryGoneUnlessCancelledEarly | pysnmp/proto/rfc3412.py:436-443 | a request that has ended leaves an entry behind if and only if it was cancelled before its first step; one found under its reference otherwise is a later request's, and never both |
| SuspendedRequests.CancellingEarlyLeaks | pysnmp/carrier/asyncio/dispatch.py:218-229 | a run that leaves one behind |
| TypeDecl.ModuleLoader.Declare | pysnmp/smi/synthesis.py:617-659 | terminates on every graph, builds nothing or the type and its bases, each once and after its base, and reports only a type that is in a cycle |
| TypeDecl.ModuleLoader.DeclareAll | pysnmp/smi/synthesis.py:661-663 | every type is built if and only if no in-module base chain has a cycle of two or more; a reported type is in one |
| TypeDecl.BuiltIsNotCircular | pysnmp/smi/synthesis.py:617-659 | what is built on its base's class is not defined in terms of itself |
| TypeDecl.CircularNeverEnds | pysnmp/smi/synthesis.py:628-632 | the chain of a circular type has no end |

## Left out

- Sockets, event loops and transports: a send is its result, time is ticks, a task is a private copy of the context.
- BER, message processing, security and access control models: their results are inputs.
- Re-entering the dispatcher from a callback other than to send (running the loop inside one): steps are one thread's.
- Several command generators or notification originators sharing one dispatcher: each is modelled with a dispatcher of its own; an unconfirmed PDU's handle is a step of its own.
- Observers of other points than those two of the lifecycle, and observers that act on the engine: observers raise or return.
- The message processing models' own caches and their expiry: state references are theirs, and only that they are drawn in order is modelled.
- The checks that make a response mismatched (models, names, request-id): whether they pass is an input.
- `getNextVarBinds`: a single pass over a response, with nothing kept between calls.
- Moving default timers with `setTimerResolution`, and rounding in the tick arithmetic: the resolution is fixed and time is real.
- SQLite, header checks and JSON in `MibCorpus`: a corpus is its rows and a query its meaning over them.
- Dotted text for OIDs: OIDs are sequences of numbers.
- Dictionary values and keys other than tuples of integers in `OrderedDict`, and `update`: the index holds OIDs.
- The view's per-module indices, corpus fallback and name resolution: they read the index modelled here.
- The search of the managed objects' tree that GETNEXT's handlers make: the machine is stated for any handlers.
- Table columns' write handlers: the phase contract is stated for any handlers, and scalar instances are modelled.
- InformFanIn.CalledBackExactlyOnce: takes a callback as given, because without one the last answer is a `TypeError`; that each send settles at most once is a condition here and is proved in `InformRuns`.
- InformRuns.BooksLinked: takes notification handles and request handles, both from `getNextHandle`, not to come round again while in use.
- SuspendedRequests.EveryTaskIsolated: takes only the dispatcher to enter the request point, and messages not to arrive while another is being served on the stack; observers that enter or clear points themselves are not modelled.
- SetMachine.MibInstrumController.FlipFlopFsm: takes tables that do not go round, as all three of the class's do not, because on one that does the loop need not end.
- Which status each clause of `_failedMgmtOperation` gives: a failure carries the status it is mapped to.
- LifecycleSafety.RunSound: holds while fewer handles are drawn during a request's life than the generator issues before repeating itself, because past that two requests may share a handle.
- TypeDecl.ModuleLoader.Declare: building one type is taken to succeed, because why it might not lies in the type classes.
- Module execution, file sources and compilation in the builder; configuration tables and reference counts in `hlapi/lcd.py`.
