# A verified model of the reactor

This project models the event-driven core of the library in `log/` and proves properties of it in
Dafny. `dafny verify dfyconfig.toml` checks everything.

| file | what it models |
|---|---|
| `Timestamps.dfy` | microsecond time, truncating intervals, the delay given to the kernel timer |
| `TimerEntries.dfy` | the ordered set of (expiration, address) pairs |
| `TimerModel.dfy` | the timer queue as a state machine: explicit heap with address reuse, twin sets, marks, kernel timer, callbacks that re-enter |
| `TimerInvariant.dfy`, `TimerLifecycle.dfy` | what every step keeps; what one step does to one timer |
| `TimerRuns.dfy`, `TimerCancel.dfy`, `TimerFirings.dfy` | theorems over whole runs: ownership, wakeups, cancellation, firing |
| `TimerSchedule.dfy`, `TimerWakeups.dfy` | when each callback is due by what was asked for; what the kernel timer is set to |
| `TimerQueue.dfy` | the class, its methods proved against the state machine |
| `LoopProtocol.dfy` | the functor queue, the eventfd and quit, any number of threads interleaved |
| `EventLoop.dfy` | the class, its methods proved to be runs of that protocol |
| `StartHandshake.dfy` | starting a loop thread and waiting for its loop |
| `Registry.dfy`, `Poller.dfy` | the poll slots, the channel map and the slot numbers in the channels |
| `ByteQueue.dfy`, `Buffer.dfy` | the growable buffer and the byte queue it stands for |
| `Decimal.dfy`, `LogStream.dfy` | integer printing in place and the bounded log buffer |

The timer queue is a machine of small steps (an operation by user code, the start of `handleRead`,
the start of the next callback, the end of `handleRead`). The body of a callback is whatever user
operations come before the next step, so re-entry is arbitrary. (The machine also lets user operations
happen between the start of `handleRead` and its first callback, which the code does not; every claim
covers those runs too.) Steps are total: reading or deleting
through a dead pointer sets `crashed`, an address still in use is one the allocator does not return,
and anyone may cancel any id. Theorems about runs therefore quantify over all sequences of steps.
Timers made by other queues advance the shared count of timers at any time. The clock is one clock,
shared by time stamps and the kernel timer, and it is positive.

Results where the code does less than its users may expect, each with the exact condition:

- A mark in `cancelingTimers_`, which is never cleared, ends a live timer exactly if its id was
  cancelled during a batch before it was issued, which the public constructor of `TimerId` permits
  (`LiveTimerIsMarkedIffForged`, `ForgedIdEndsALaterTimer`; `ForgedIdHappens` is such a run). With
  issued ids alone the marks are harmless (`LeftoverMarksNameFreedTimers`, `SurvivesUnlessCancelledNow`).
- A functor that the loop thread queues outside `loop()`, from whatever state and with any
  interleaving up to the next poll, waits for `poll` to time out exactly if nothing was waking before
  and no other thread pushes or quits on the way (`EarlyPushIsStranded`); over all runs functors are
  stranded in no other way (`StrandedIffQueuedOutside`, `NoStrandedFunctor`; `EarlyPushHappens` is
  such a run).
- After `loop()` is entered quit is set exactly if some `quit()` took effect since; whatever was set
  before is forgotten (`QuitCountsFromEntry`; `QuitBeforeLoopHappens` is such a run).
- A channel whose interest once becomes empty is not polled again until it is removed, even when
  its interest is enabled again (`MaskingIsForGood`, `ReenabledChannelStaysMasked`).
- An update through the stale index of a removed channel keeps the layout exactly if it asks for
  some event or hits a slot of its own descriptor (`StaleUpdate`; `StaleUpdateHappens` is a run that
  breaks it); a removal through one exactly if it hits such a slot (`StaleRemove`); a second channel
  for a registered descriptor never does (`DoubleRegistration`).
- A text goes into the log buffer whole or not at all exactly if it is shorter than 2^31 characters,
  or its length as an int is zero or too long for the room left (`TextIsWholeOrAbsentIff`; of
  2^32 + 5 characters an empty buffer takes five, `LongTextIsCut`).
- `ensureWritableBytes` decides rightly exactly when the room is there or its two sums do not wrap
  (`PlanIsRightUnlessSumsWrap`; `WrongPlanHappens` is a request it decides wrongly).

## Model

| member | source | states |
|---|---|---|
| Timestamps.PositiveIntervalMayStandStill | log/Timestamp.h:34-38 | a positive interval never moves time backward, and not at all exactly below one microsecond |
| Timestamps.AddTimeIsTheInterval | log/Timestamp.h:34-38 | in real arithmetic, what is added is the interval, less the fraction of a microsecond that is dropped, toward zero for either sign |
| Timestamps.HowMuchTimeFromNow | log/TimerQueue.cc:32-46 | the timespec denotes exactly max(when - now, 100) microseconds, with 0 <= nsec < 10^9, and never the zero that would disarm |
| TimerEntries.LowerBoundSplits | log/TimerQueue.cc:106-107 | the lower bound splits the ordered set, and finds a member if it is there |
| TimerEntries.InsertKeepsOrder | log/TimerQueue.cc:153-163 | insertion keeps the order, adds exactly one entry, and changes the earliest time exactly when the entry is earlier |
| TimerEntries.EraseKeepsOrder | log/TimerQueue.cc:200 | erasure keeps the order and takes out exactly the entry named |
| TimerInvariant.StepKeepsInv | log/TimerQueue.cc:88-210 | every step keeps the invariant: no dead pointer used, twin sets equal, batch apart, nothing lost, each timer freed once, the earliest timer covered by a wakeup |
| TimerInvariant.AddSound | log/TimerQueue.cc:168-188 | adding at any free address, reused or not, keeps ownership and numbering |
| TimerInvariant.CancelSound | log/TimerQueue.cc:190-210 | cancelling any id, live or dead, keeps ownership and frees at most once |
| TimerInvariant.ResetKeepsInv | log/TimerQueue.cc:120-151 | after reset every timer is in the sets or freed, and the kernel timer covers the earliest, also when the valid() test skips the arming |
| TimerInvariant.ExpiredSplit | log/TimerQueue.cc:103-109 | what getExpired takes is exactly the entries due by now; what stays is later |
| TimerLifecycle.ActiveFate | log/TimerQueue.cc:88-210 | a timer in the sets leaves them only by its own cancellation or by falling due; its record does not change there |
| TimerLifecycle.BatchFate | log/TimerQueue.cc:120-137 | a batch member stays as it is until reset, which renews it exactly when it repeats and is not marked, and frees it otherwise |
| TimerLifecycle.FreedFate | log/TimerQueue.cc:168-173 | an issued id that names no timer never names one again, even when its address is reused |
| TimerRuns.EveryTimerHasOneOwner | log/TimerQueue.cc:88-210 | in every run no dead pointer is used, and each timer is in exactly one of the twin sets, the batch, or the freed timers, there once |
| TimerRuns.TwinSetsHoldTheSameTimers | log/TimerQueue.cc:103-166 | timers_ is the set of (expiration, timer) for exactly the timers in activeTimers_, and is disjoint from the batch |
| TimerRuns.DestructorFreesEverythingOnce | log/TimerQueue.cc:79-86 | outside handleRead the destructor frees every timer left, and each timer ever made is freed exactly once |
| TimerRuns.DueTimerIsReadable | log/TimerQueue.cc:139-147 | outside handleRead a due timer, 100 microseconds past the last arming, finds the timerfd fired |
| TimerRuns.EarliestTimerHasAWakeup | log/TimerQueue.cc:180-188 | outside handleRead the timerfd is fired or armed no later than max(earliest expiration, last arming + 100 microseconds) |
| TimerCancel.CancelTouchesOnlyItsTimer | log/TimerQueue.cc:190-210 | cancelling an id frees, moves and marks no other timer |
| TimerCancel.CancelDoes | log/TimerQueue.cc:190-210 | exactly what cancelling frees or marks, and that the kernel timer and the rest stay as they are |
| TimerCancel.SurvivesItsBatch | log/TimerQueue.cc:120-137 | a due timer survives exactly if its interval is positive, it carries no old mark and no callback of the batch cancels it; then only its expiration changes, to one interval after the batch time, to the microsecond |
| TimerCancel.LeftoverMarksNameFreedTimers | log/TimerQueue.cc:88-101 | if only issued ids are cancelled, every mark left outside handleRead names a freed timer |
| TimerCancel.SurvivesUnlessCancelledNow | log/TimerQueue.cc:120-137 | then a due timer survives exactly if it repeats and this batch does not cancel it |
| TimerCancel.LiveTimerIsMarkedIffForged | log/TimerQueue.cc:190-210 | in every run, outside handleRead a live timer is marked exactly if its id was cancelled during a batch before any timer had its sequence number |
| TimerCancel.ForgedIdEndsALaterTimer | log/TimerId.h:10-13 | in every run, a due repeating timer that its batch does not cancel is freed by that batch exactly if its id was cancelled that early |
| TimerCancel.ForgedIdHappens | log/TimerId.h:10-13 | such a run |
| TimerCancel.CancelIsFinal | log/TimerQueue.cc:190-210 | after cancel the callback runs once more exactly if its batch had yet to reach it, never if it was in the sets or outside callbacks, and the timer is freed |
| TimerFirings.FiringsAreDue | log/TimerQueue.cc:88-118 | in every run no callback runs before its timer is due |
| TimerFirings.FiringsAreSpaced | log/Timer.cc:7-18 | in every run only repeating timers run twice, and their batch times are an interval apart, less the fraction of a microsecond dropped |
| TimerFirings.HandleReadRunsExactlyTheDueTimers | log/TimerQueue.cc:88-101 | one handleRead runs exactly the timers due at its start, once each, in (expiration, address) order, whatever callbacks do |
| TimerFirings.HandleReadIsARun | log/TimerQueue.cc:88-101 | handleRead as one call is a run of the small steps |
| TimerSchedules.AddIssues | log/TimerQueue.cc:168-173 | the new timer has the time, the interval and the next number, under a fresh id |
| TimerSchedules.FiringsFollowTheSchedule | log/Timer.cc:7-18 | in every run each callback is due first at the time asked of addTimer, and then one asked interval, to the microsecond, after the batch of its run before |
| TimerSchedules.RequestsAreAdds | log/TimerQueue.cc:168-173 | each of those requests is a call of addTimer in the run, with the id it returned |
| TimerSchedules.NumbersAreConsecutive | log/Timer.h:12 | in every run the shared count goes up by one for each timer made |
| TimerWakeups.ArmsForTheTimeMeant | log/TimerQueue.cc:48-60 | the kernel timer is armed for max(when, now + 100) and nothing else changes |
| TimerWakeups.StepSetsTheTimer | log/TimerQueue.cc:88-188 | for every step, exactly what it makes of the kernel timer: which additions and batch ends set it and for when, that reading quiets it, and that the rest leave it alone |
| TimerWakeups.NoWakeupWithinTheFloor | log/TimerQueue.cc:36-39 | in every run the kernel timer never fires within 100 microseconds of being set |
| TimerWakeups.ReadingQuietsTheTimer | log/TimerQueue.cc:24-30 | after a handleRead whose callbacks add nothing the kernel timer is set for the earliest timer left, and quiet if there is none |
| TimerQueues.TimerQueue.Insert | log/TimerQueue.cc:153-166 | the method is the model's insertion, and answers whether the earliest time changed |
| TimerQueues.TimerQueue.ResetTimerFd | log/TimerQueue.cc:48-60 | arms the kernel timer for max(expiration, now + 100) |
| TimerQueues.TimerQueue.AddTimerInLoop | log/TimerQueue.cc:180-188 | inserts, and arms for its time exactly when the earliest time changed |
| TimerQueues.TimerQueue.AddTimer | log/TimerQueue.cc:168-173 | returns the fresh id of a timer that is in the sets with the time and interval asked for |
| TimerQueues.TimerQueue.CancelInLoop | log/TimerQueue.cc:190-210 | frees a timer in the sets, else marks during callbacks; keeps the invariant |
| TimerQueues.TimerQueue.GetExpired | log/TimerQueue.cc:103-118 | the loop takes the due entries out of both sets |
| TimerQueues.TimerQueue.Reset | log/TimerQueue.cc:120-151 | the loop restarts or deletes each batch member and arms at the end |
| TimerQueues.TimerQueue.HandleRead | log/TimerQueue.cc:88-101 | with callbacks that re-enter, the method is the model's handleRead, keeps the invariant, and leaves the kernel timer set for the earliest timer |
| LoopProtocol.StepKeepsInv | log/EventLoop.cc:87-179 | every action of every thread keeps the protocol invariant |
| LoopProtocol.NoStrandedFunctor | log/EventLoop.cc:155-179 | in every interleaving, at poll with functors queued, the eventfd is positive or a producer is between push and wakeup, unless the loop thread pushed outside loop() |
| LoopProtocol.StrandedIffQueuedOutside | log/EventLoop.cc:155-179 | in every interleaving functors are stranded at poll exactly if the loop thread pushed outside loop(), no swap took that push, and no wakeup is there or under way |
| LoopProtocol.EarlyPushIsStranded | log/EventLoop.cc:155-166 | from every state outside loop(), a functor the loop thread pushes is stranded at the poll that follows exactly if nothing was waking and no other thread pushes or quits on the way |
| LoopProtocol.EarlyPushHappens | log/EventLoop.cc:155-166 | such a run |
| LoopProtocol.FunctorsRunInPushOrderOnce | log/EventLoop.cc:105-119 | executed, rest of batch and queue are together the sequence of all functors that were queued |
| LoopProtocol.BatchIsClosed | log/EventLoop.cc:105-119 | nothing joins a swapped batch; each of its functors starts once, in order |
| LoopProtocol.OneIterationDrainsTheQueue | log/EventLoop.cc:91-100 | all that was pushed when the loop was at poll has run when that iteration ends |
| LoopProtocol.QuitIsNotLost | log/EventLoop.cc:72-79 | at poll with quit set, the eventfd is positive or the quitter is between store and wakeup |
| LoopProtocol.QuitBeginsNoIteration | log/EventLoop.cc:91-102 | once quit is set inside loop(), no further iteration begins |
| LoopProtocol.QuitCountsFromEntry | log/EventLoop.cc:87-102 | from every state outside loop(): a quit set before is forgotten; afterwards quit is set exactly if some quit() took effect since the entry, and then no iteration begins |
| LoopProtocol.QuitBeforeLoopHappens | log/EventLoop.cc:87-91 | a run in which a quit before loop() does not stop it |
| LoopProtocol.EventFdCounts | log/EventLoop.cc:168-179 | in every step the eventfd goes up by one for a wakeup, to zero for a read, and otherwise stays; poll reports it exactly if positive |
| LoopProtocol.WakeupEndsOnePoll | log/EventLoop.cc:168-172 | in every interleaving a later poll finds the eventfd readable only if it was written to in between |
| LoopProtocol.QuietIterationComesBackToRest | log/EventLoop.cc:91-100 | if nobody queues or quits, the loop comes back to poll with the eventfd at zero |
| LoopProtocol.QueueInLoopElsewhere | log/EventLoop.cc:155-166 | undisturbed, another thread's queueInLoop leaves one functor more and one wakeup |
| LoopProtocol.QuitElsewhere | log/EventLoop.cc:72-79 | undisturbed, another thread's quit leaves quit set and one wakeup |
| LoopProtocol.QueueInLoopHere | log/EventLoop.cc:155-166 | the loop thread's queueInLoop leaves one functor more, and a wakeup exactly while functors run |
| EventLoops.EventLoop.Wakeup | log/EventLoop.cc:174-179 | a write adds one to the eventfd, unless it is full |
| EventLoops.EventLoop.HandleRead | log/EventLoop.cc:168-172 | a read leaves the eventfd at zero |
| EventLoops.EventLoop.QueueInLoop | log/EventLoop.cc:155-166 | on the loop thread: push at the end, then wake only while functors run |
| EventLoops.EventLoop.QuitInLoop | log/EventLoop.cc:72-79 | on the loop thread quit is set without a wakeup |
| EventLoops.EventLoop.Other | log/EventLoop.cc:155-179 | the atomic sections of queueInLoop and quit on other threads |
| EventLoops.EventLoop.DoPendingFunctors | log/EventLoop.cc:105-119 | exactly what was queued at the swap is run, in order, whatever functors and other threads queue meanwhile |
| EventLoops.EventLoop.OneTurn | log/EventLoop.cc:91-100 | one turn of loop() is a run of the protocol, and at its end all that was pushed before it has run |
| EventLoops.EventLoop.Loop | log/EventLoop.cc:87-103 | loop() is exactly the run that enters, passes a check and does the turn n times, each turn running the functors it swapped out, and leaves at the first check that finds quit set |
| StartHandshake.StartLoopIsSafe | log/EventLoopThread.cc:23-50 | in every interleaving startLoop returns only a published loop and is never in the wait set after the notification |
| StartHandshake.AlwaysProgress | log/EventLoopThread.cc:23-50 | no deadlock; every action but a spurious wakeup brings the end nearer |
| Registry.InterestRunsOut | log/Channel.h:22-25 | channel masks stay among four values, and which requests leave no interest |
| Registry.RequestsSwitchTheirInterest | log/Channel.h:22-25 | each request switches reading or writing on or off as named and leaves the other alone |
| Registry.SwapRemoveKeeps | log/Poller.cc:80-100 | swap-with-last removal deletes one channel and keeps every other slot's contents, masked ones too |
| Registry.StaleUpdate | log/Poller.cc:34-43 | an update through a stale index overwrites another's slot, and keeps the layout exactly if it asks for something or the slot is its own descriptor's |
| Registry.StaleRemove | log/Poller.cc:80-100 | a removal through a stale index takes out another's slot, and keeps the layout exactly if that slot is its own descriptor's |
| Registry.DoubleRegistration | log/Poller.cc:19-33 | a second channel for a registered descriptor breaks the layout |
| Registry.RunRefines | log/Poller.cc:16-45 | over any updates and removals slots and channels stay one for one and hold what a plain map would |
| Registry.OperationsKeepToTheirSlot | log/Poller.cc:34-43 | an updated slot asks for exactly the events of the update; no operation changes the slot of another descriptor |
| Registry.LastOperationDecides | log/Poller.cc:16-45 | over any run the last operation on a descriptor decides whether it has a slot and what events that asks for |
| Registry.SlotIsUnique | log/Poller.cc:29-32 | a channel's index is the only slot that stands for its descriptor |
| Registry.MaskingIsForGood | log/Poller.cc:34-43 | a slot is masked exactly if some update since registration asked for nothing |
| Registry.ReenabledChannelStaysMasked | log/Poller.cc:34-43 | enabling again does not unmask |
| Registry.ReadyIsTheFilter | log/Poller.cc:64-78 | the ready descriptors are those of slots with events, none twice |
| Pollers.Poller.UpdateChannel | log/Poller.cc:16-45 | in order, the slot of this channel asks for its events, no other slot changes, and the map gains at most this channel; out of order, what it does instead and exactly when the registry survives |
| Pollers.Poller.ChangeInterest | log/Channel.h:22-25 | the enable and disable requests, through to the events the slot asks for, in order and out of order |
| Pollers.Poller.RemoveChannel | log/Poller.cc:80-100 | takes out a registered channel's slot, and no other; its own index stays stale; through a stale index, what it does instead and exactly when the registry survives |
| Pollers.Poller.PerformAll | log/Poller.cc:16-100 | any sequence of requests by the owners of any channels, by the indices the channels hold, up to the first that is out of order: slots, map and channels stay one for one, the map holds the channels asked for, the slots are those of the plain map, and each asks for the events its channel has now |
| Pollers.StaleUpdateHappens | log/Poller.cc:34-43 | a run that ends with a registered channel that has no slot: enable two channels, remove the first, then disable it |
| Pollers.Poller.FillActiveChannels | log/Poller.cc:64-78 | the early-exit scan finds the first numEvents ready channels in slot order, each with its own revents, and every lookup hits |
| Pollers.Poller.Poll | log/Poller.cc:46-62 | under the poll() contract the active channels are all the ready ones, none twice |
| ByteQueue.PlanIsRightUnlessSumsWrap | log/Buffer.h:129-142 | the keep, compact or grow decision is right exactly if the room is there or neither sum wraps size_t |
| ByteQueue.WrongPlanHappens | log/Buffer.h:129-142 | a buffer as it starts out, asked for 2^64 - 1 bytes, compacts |
| ByteQueue.PlanBounds | log/Buffer.h:129-142 | exactly when it compacts, and then with the reader above 8; growth is to writer + len and leaves size < readable + 2 len + 8; exactly when it refuses |
| ByteQueue.WrittenIsTakenOrLeft | log/Buffer.h:38-58 | without prepends, retrieved and readable bytes are together what was there and what was written |
| Buffers.Buffer.EnsureWritableBytes | log/Buffer.h:74-80 | room for len, readable bytes unchanged, or the length_error of a vector too long |
| Buffers.Buffer.MakeSpace | log/Buffer.h:129-142 | carries out the decision, keeping the readable bytes |
| Buffers.Buffer.CopyDown | log/Buffer.h:138 | the forward copy to position 8 is right although the ranges overlap |
| Buffers.Buffer.HasWritten | log/Buffer.h:82-94 | what was stored at beginWrite becomes readable, after what was |
| Buffers.Buffer.Retrieve | log/Buffer.h:38-41 | drops the first len readable bytes |
| Buffers.Buffer.RetrieveUntil | log/Buffer.h:42-45 | drops the readable bytes before a position |
| Buffers.Buffer.RetrieveAsString | log/Buffer.h:53-58 | returns all readable bytes and empties the buffer |
| Buffers.Buffer.Prepend | log/Buffer.h:96-101 | puts bytes before the readable ones |
| Buffers.Buffer.Swap | log/Buffer.h:103-108 | exchanges contents, storage and indices |
| Buffers.Buffer.PerformAll | log/Buffer.h:38-101 | any sequence of operations on one buffer is the byte queue's; prepend-free ones conserve bytes and keep the reader at 8 or above |
| Buffers.PerformPair | log/Buffer.h:38-108 | any sequence of operations on two buffers, swaps among them: each stream of bytes is a byte queue wherever it is, with the same conservation and reader bound |
| Decimals.PrintThenParse | log/LogStream.cc:10-30 | decimal text is canonical and parses back |
| Decimals.ParseThenPrint | log/LogStream.cc:10-30 | every canonical text is what its number prints as |
| Decimals.DifferentNumbersPrintDifferently | log/LogStream.cc:10-30 | no two numbers print alike |
| Decimals.DecimalIsShort | log/LogStream.cc:38-46 | a 32-bit number takes at most 11 characters |
| Decimals.LastDigit | log/LogStream.cc:8-20 | the mirrored table and the truncating operators give the last digit for either sign |
| Decimals.Reverse | log/LogStream.cc:27 | reverses a range in place and nothing else |
| Decimals.Convert | log/LogStream.cc:10-30 | leaves the decimal text and a NUL, for every 32-bit number, and writes nowhere else |
| LogStreams.ItemsAreWholeOrAbsent | log/LogStream.h:25-32 | with texts shorter than 2^31, the buffer is its old contents and then each item exactly as given or not at all, and stays below 4000 |
| LogStreams.ShortStreamsAreKept | log/LogStream.h:64-80 | items that fit with 32 bytes to spare are all kept |
| LogStreams.NumberIsTakenWithRoomForAny | log/LogStream.cc:38-46 | a number is taken exactly if 32 of the 4000 bytes are left |
| LogStreams.TextIsTakenWithAByteToSpare | log/LogStream.h:25-32 | a text shorter than 2^31 is taken exactly if a byte stays free |
| LogStreams.TextIsWholeOrAbsentIff | log/LogStream.h:69-78 | a text goes in whole or not at all exactly if it is shorter than 2^31, or its narrowed length is zero or too long for the room left |
| LogStreams.LongTextIsCut | log/LogStream.h:69-78 | a text of 2^32 + 5 characters leaves five |
| LogStreams.LoggingKeepsThePrefix | log/LogStream.h:25-32 | whatever the lengths, as long as no narrowed one is negative, the buffer keeps its prefix and stays below 4000 |
| LogStreams.FixedBuffer.Append | log/LogStream.h:25-32 | appends all of the text if more room than its length is left, and otherwise nothing |
| LogStreams.LogStream.PutChar | log/LogStream.h:64-68 | a character is a text of length one |
| LogStreams.LogStream.PutText | log/LogStream.h:69-78 | a text is inserted as its narrowed length says, or not at all |
| LogStreams.LogStream.PutInt | log/LogStream.cc:38-52 | number and NUL are written in bounds, or nothing is |
| LogStreams.LogStream.PutAll | log/LogStream.h:64-80 | any sequence of insertions leaves what the specification says |

## Left out

- Sockets, acceptor, addresses, thread and mutex wrappers: thin layers over system calls. Of these only the eventfd counter, the timerfd, the result contract of poll(), the lock and the condition variable appear, as model state.
- TcpConnection and TcpServer: sending depends on `Buffer::append(const char*, size_t)`, whose body is empty (log/Buffer.h:64-67), and closing never calls the close callback.
- `Buffer::append`, `Buffer::shrink` and the overflow branch of `Buffer::readFd`: the first does nothing, the second leaves the indices of the old layout (log/Buffer.h:109-114), the third calls the first. Writing goes through ensureWritableBytes, beginWrite and hasWritten.
- The indices of a new Buffer: the constructor leaves them unset (log/Buffer.h:15-17); the model starts where retrieveAll puts them.
- AddTimer: is the call on the loop thread. From another thread the code queues the insertion and then reads the timer after handing it over (log/TimerQueue.cc:170-172); that race is not modelled. `handleRead` is not re-entered.
- Timer objects as Dafny objects: the heap is a map from addresses to timer values, because reuse of an address after delete is the point.
- 64-bit overflow of time stamps and rounding of double intervals: times are unbounded integers and intervals are reals, truncated toward zero as the code does. The library code for time formatting is not modelled.
- Difference between the time-of-day clock and the monotonic clock of the timerfd, and failures of timerfd_settime: one clock, no failures.
- A fairness claim for timers: adding ever earlier timers moves the arming instant, and with it the 100 microsecond floor, on and on; the bound proved names the last arming instant for that reason.
- Loop: takes a finite list of turns, each with what other threads and callbacks do in it; the time poll waits and channels other than the eventfd's are covered by letting poll return at any time. Functors still queued when the loop stops are never run, as in the code.
- Data races on `quit_` (a plain bool): loads and stores are taken to be atomic and in program order.
- UpdateChannel: a stale index past the end of the vector is excluded by its precondition; reading there has no defined effect. ChangeInterest excludes the same.
- RemoveChannel: excludes, for a channel that is not registered, an index that names no slot and the case in which the channel of the last slot is looked up after its entry was erased: the first reads outside the vector, the second calls through a null pointer.
- EnsureWritableBytes: lengths for which the size_t sums wrap are excluded by its precondition, since what follows may write out of bounds; PlanIsRightUnlessSumsWrap says that these are exactly the lengths the code decides wrongly.
- MakeSpace: excludes the same lengths.
- Append: its length is within the text, as its callers pass it.
- PutText: text whose narrowed length is negative is excluded, since copying it has no defined effect. The lemmas about what is logged exclude the same, and TextIsWholeOrAbsentIff covers the rest.
- PutAll: excludes the same texts.
- `Channel::handleEvent`, EventLoopThreadPool, log line assembly, Fmt: dispatch and formatting with little state.
- The end of an EventLoopThread: only its start is modelled.
