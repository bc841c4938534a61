# Easy_Network: verified models

Easy_Network is a C++ library for TCP and UDP clients and servers.  This project models its
hand-built synchronisation, the server loops that rely on it, the resumable file transfer and
the codecs, and proves what they keep.  `dafny verify dfyconfig.toml` checks all of it.

**Concurrency.**  Every synchronisation object is a step machine: one step per mutex, atomic,
condition-variable or queue operation, any number of threads, an explicit wait set.  A schedule
is any finite sequence of actions, so a theorem about `Run(Do, init, schedule)` is about every
interleaving (`Machines`).  Progress is stated for infinite fair schedules and proved by a rank
(`Fairness`).  Beside each machine a class holds the fields of the source; its methods perform
the next operation of a member function in place, and are proved to do what the machine does.

- `CrossWalk`, `CrossWalkSpec`, `CrossWalkService`, `CrossWalkLimits`, `ThreadCrossWalk`: many cars,
  one pedestrian.
- `Gate`, `GateHistory`, `GateSpec`, `GateTheorems`, `GateProgress`, `GateTimeouts`, `GateLimits`,
  `ThreadGate`: EN_ThreadGate and EN_TimeThreadGate, refined to an auto-reset event; CloseFor and
  CloseUntil differ only in the kind of limit.  `RecursiveGate`, `RecursiveGateProgress`,
  `RecursiveThreadGate`: the counting gate, refined to a semaphore.
- `UdpServer`, `UdpHistory`, `UdpTheorems`, `UdpDelivery`, `UdpShutdown`, `UdpWorker`: receiver and
  workers in Queue mode, over that event.
- `TcpServer`, `TcpHistory`, `TcpShutdown`, `ThreadTcpServer`: the life of the client set, over the
  crosswalk's lock.
- `Barrier`, `ThreadBarrier`; `ParallelFor`, `ParallelForProgress`, `ParallelForLoop`;
  `BackgroundTimer`, `TimerProgress`, `TimerThread`.

A history (`GateHistory`, `UdpHistory`, `TcpHistory`) records what was asked of a machine and what
happened to it beside the machine itself, so that theorems can compare the two.

**Data.**  A connected socket is a queue of bytes that will still arrive and room for bytes that
will still be taken (`Sockets`); cutting either models a connection lost at any point.  Files are
a map from names to bytes.  Loops of the source are loops here, over the same buffers.

- `Framing`: the length-prefixed TCP messages.
- `Scanners`, `ScannerTheorems`: the four substring scanners; `Fields`, `Decimal`: the
  space-separated messages and their numbers.
- `Base64`.
- `FileNames`, `FileBlocks`, `FileTransfer`, `TransferTheorems`: sending and receiving a file;
  `Negotiation`, `NegotiationTheorems`, `TransferRuns`, `TransferWitness`: the resume
  negotiation of the blocking file transmitter, over any number of broken sessions.

## Assumptions the source makes

- Atomics are sequentially consistent and `try_lock` fails only when the mutex is held
  (`SpuriousFailureLosesAnOpen` shows what happens otherwise).
- The threads of a barrier wait on one condition variable with a different mutex each, their own
  local one (EN_ThreadBarrier.cpp:9-20).  The C++ standard forbids that for threads that wait at
  the same time; the model takes the wait set to work all the same.
- A condition variable wakes nobody by itself; the source never looks again after waking
  (`SpuriousWakeupBreaksExclusion` shows what happens otherwise).
- A gate has one closer (`TwoClosersDeadlock`), a barrier serves one round at a time
  (`EarlyReentryPassesAlone`), a thread never nests car sections (`NestingIsReachable`,
  `NestedCarBlocks`), StartTimer is called after IsSleep returned false
  (`UnaskedStartChangesTheSleep`), and accept returns no descriptor that is still in the client
  set (`EarlyReuseLosesAHandler`).

## What the code does otherwise than it says

- The worker of the UDP server reads the fronts of its lists without the mutex after looking at
  the message list alone; the receiver pushes the message first.  The read of the time or the
  address can meet an empty list (`EarlyReadIsReachable`; `ReadTimeIsDefined` and
  `ReadAddressIsDefined` say exactly when).
- `operator()` of the parallel loop waits without a condition; a notification that comes first is
  lost.  Until it waits that can always happen (`MissedIsReachable`, `EveryLoopCanMiss`), from
  then on never (`WaitingInTimeReturns`).
- FindAllOccurrences is documented to find all occurrences; it skips those that overlap a found
  one (`AllFoundWhenApart`).  A separator ending in a zero byte is matched against the string's
  terminator (`TerminatorIsTaken` says exactly when, `WhenTheTerminatorIsTaken` for the usual
  separators).
- The counts that send and recv return are kept in an `int` and compared as sizes.  The limit of a
  message can be set to any size, but one of 2^31 bytes or more closes the receiver's connection
  though it has arrived whole, and its sender reports failure though it has left whole
  (`WhenFramesAreReceived`, `SuccessIsReceived`; `IntKeeps` says exactly which counts survive).
- A length of ten bytes or more can wrap around 64 bits on decoding (`TenByteLengthWraps`),
  exactly when its tenth digit is more than 1 or a later one is not 0 (`WrapsAround`,
  `AtMostOne`).
- A name with a space is refused by the receiver (`HeaderReadsBack`).
- The part that is there is measured under the whole name and appended to under the base name.  A
  finished session leaves a copy of the source exactly when the two agree (`UploadIsExactWhen`,
  `DownloadIsExactWhen`); with a slash in the name resuming breaks (`SlashedNamesDoNotResume`).
- An offset beyond the end of the file makes the remaining size wrap around (`BlocksAgree`), and
  the receiver appends padding to what it has (`OffsetBeyondTheFile`).

## Model

| member | source | states |
|---|---|---|
| `CrossWalk.ReachableInv` | EN_ThreadCrossWalk.cpp:13-52 | for any number of threads and every interleaving: the counter is the number of threads between increment and decrement, every mutex holder stands where it holds it, the flag is raised exactly by the pedestrian in its section, no notification is sent but with an empty road, and a sleeper with an empty road has a notifier |
| `CrossWalk.DoKeepsInv` | EN_ThreadCrossWalk.cpp:13-52 | every operation of every thread keeps that invariant |
| `CrossWalk.Exclusion` | EN_ThreadCrossWalk.cpp:13-52 | no car is on the road while a pedestrian crosses, and at most one pedestrian crosses |
| `CrossWalk.SomeoneAdvances` | EN_ThreadCrossWalk.cpp:22-47 | in every unfinished reachable state some thread can take a step that is not an idle turn of the notify loop: no deadlock |
| `CrossWalk.AdvanceRank` | EN_ThreadCrossWalk.cpp:13-52 | every step other than an idle turn of the notify loop lowers a rank, and an idle turn keeps it |
| `CrossWalk.SpinsDoNotDisable` | EN_ThreadCrossWalk.cpp:22-31 | idle turns of the loop never take another thread's progress away |
| `CrossWalk.FairRunsDrain` | EN_ThreadCrossWalk.cpp:13-52 | from every reachable state, with no new arrivals, every fair schedule brings all cars off the road and all pedestrians across |
| `CrossWalkService.PedestrianCrosses` | EN_ThreadCrossWalk.cpp:35-47 | from every reachable state and whatever new calls arrive, a pedestrian that has Mtx crosses under every fair schedule |
| `CrossWalkRefinement.InitAbs` | EN_ThreadCrossWalk.cpp:5-9 | a new crosswalk is the free lock |
| `CrossWalkRefinement.StepRefines` | EN_ThreadCrossWalk.cpp:13-52 | each step of the machine is one move of a shared/exclusive lock, or invisible; a notification is the move of the pedestrian it wakes |
| `CrossWalkRefinement.CallsRefine` | EN_ThreadCrossWalk.cpp:13-52 | beginning a call leaves the lock alone |
| `CrossWalkRefinement.SectionsAreLocked` | EN_ThreadCrossWalk.cpp:13-52 | a thread inside a section holds the lock in that role, a crossing pedestrian alone |
| `CrossWalkLimits.SpuriousWakeupBreaksExclusion` | EN_ThreadCrossWalk.cpp:44 | a reachable run with one spurious wake-up puts a pedestrian among driving cars: the bare wait needs the assumption |
| `CrossWalkLimits.NestingIsReachable` | Examples/TCP_Chat_Server.cpp:39-45 | a thread that enters as a car a second time while a pedestrian waits reaches a jam |
| `CrossWalkLimits.NestedCarBlocks` | Examples/TCP_Chat_Server.cpp:39-45 | from every reachable jam and under every later schedule, its first entry not being left before the second is made, the thread, its second entry and the pedestrian stay as they are, the sleeper keeps Mtx, nobody crosses and no car comes onto the road |
| `ThreadCrossWalkObject.ThreadCrossWalk.constructor` | EN_ThreadCrossWalk.cpp:5-9 | a new object is in the initial state |
| `ThreadCrossWalkObject.ThreadCrossWalk.CarStartCrossRoad` | EN_ThreadCrossWalk.cpp:13-20 | the next operation of the call updates the fields as the machine does and keeps the invariant; it returns with the car counted and nobody crossing |
| `ThreadCrossWalkObject.ThreadCrossWalk.CarStopCrossRoad` | EN_ThreadCrossWalk.cpp:22-31 | the same; the notification is only reached with an empty road, and the last car off the road leaves no pedestrian asleep |
| `ThreadCrossWalkObject.ThreadCrossWalk.PedestrianStartCrossRoad` | EN_ThreadCrossWalk.cpp:35-47 | the same; the call returns only with an empty road, no car driving and nobody else crossing |
| `ThreadCrossWalkObject.ThreadCrossWalk.PedestrianStopCrossRoad` | EN_ThreadCrossWalk.cpp:49-52 | the same for leaving; no car has come onto the road in between |
| `Gate.DoKeepsInv` | EN_ThreadGate.cpp:5-40 | with one closer every operation of Close, CloseFor, CloseUntil, Open and OpenIfClosed and every expiry keeps mutexes, wait set and flag consistent |
| `GateHistory.DoKeepsInv` | EN_ThreadGate.cpp:5-40 | every operation keeps the bookkeeping that assigns to each Open exactly one fate |
| `GateTheorems.Refines` | EN_ThreadGate.cpp:5-40 | the gate with one closer and any number of openers is an auto-reset event: each action is one operation of the event or invisible |
| `GateTheorems.EachCloseHasItsOwnOpen` | EN_ThreadGate.cpp:5-40 | each returned Close consumed its own Open; every other returned Open is the one stored signal or was replaced by a later one; OpenIfClosed stores nothing |
| `GateTheorems.PlainClosesNeverGiveUp` | EN_ThreadGate.cpp:5-40 | in EN_ThreadGate every Close that returns has taken an Open |
| `GateTheorems.TimedOutStaysActivated` | EN_ThreadGate.h:69-91 | a Close that gives up with no Open behind it returns with the gate activated, and under every schedule it stays so until an Open that came later leaves it open |
| `GateTheorems.OnlyOpenLeavesOpen` | EN_ThreadGate.cpp:94-122 | only an Open leaves the gate open, only with no closer behind condVarMutex; OpenIfClosed never does |
| `GateTheorems.RacingOpenIsAbsorbed` | EN_ThreadGate.cpp:94-110 | an Open that finds the closer behind condVarMutex, timed out or not, is that closer's and leaves no signal |
| `GateTheorems.FedUntilReturn` | EN_ThreadGate.cpp:11-21 | what releases a Close stays with it until it returns, and is counted once |
| `GateTheorems.NotifyWakesItsOwnClose` | EN_ThreadGate.cpp:32-38 | repeated notifications never reach the closer's next Close |
| `GateTimeouts.ExpiryIsPossible` | EN_ThreadGate.h:69-115 | in every reachable state in which the closer sleeps, the sleep can expire exactly when the call was begun as CloseFor or CloseUntil |
| `GateTimeouts.LimitedCloseReturns` | EN_ThreadGate.h:69-115 | from every reachable state inside CloseFor or CloseUntil every run, with whatever new calls, comes to the call's return, counted once as opened or as given up, and as opened if an Open fed it: if the threads get their steps and the expiry happens, and the closer, competing for mtx, is not passed over for ever |
| `GateTimeouts.GivingUpIsReachable` | EN_ThreadGate.h:69-115 | either kind of call does give up at a new gate that nobody opens, and returns with the gate activated and nothing held |
| `GateProgress.FairRunsSettle` | EN_ThreadGate.cpp:5-40 | from every reachable state, without new calls, every fair schedule returns every Open and OpenIfClosed, and a Close that some call feeds; if the closer still sleeps then, no call feeds it, none is stored, and every call was taken by another Close, replaced, or found nobody asleep |
| `GateLimits.DeadlockIsForever` | EN_ThreadGate.h:10-13 | with one closer asleep and another holding mtx for condVarMutex, no schedule ever unblocks anything |
| `GateLimits.TwoClosersDeadlock` | EN_ThreadGate.h:10-13 | two closers reach that state from a fresh gate: the single closer is needed |
| `GateLimits.SpuriousFailureLosesAnOpen` | EN_ThreadGate.cpp:98-104 | if try_lock may fail with condVarMutex free, an Open of a gate with nobody asleep returns and leaves everything as it was: the assumption is needed |
| `ThreadGateObject.TimeThreadGate.constructor` | EN_ThreadGate.h:57-63 | a new gate is activated and satisfies the invariant for any closer |
| `ThreadGateObject.TimeThreadGate.Close` | EN_ThreadGate.h:73-115 | the next operation of Close, CloseFor or CloseUntil updates the fields as the machine does and keeps the invariant; a call begun with a limit has it until it returns, and while it waits the expiry is possible exactly then; it never opens the gate, sleeps only with the gate closed, and returns with no mutex held |
| `ThreadGateObject.TimeThreadGate.Open` | EN_ThreadGate.cpp:94-110 | the same for Open; it leaves the gate open, or ends its loop, only when the closer is not asleep |
| `ThreadGateObject.TimeThreadGate.OpenIfClosed` | EN_ThreadGate.cpp:112-122 | the same for OpenIfClosed, which never clears the activation |
| `ThreadGateObject.TimeThreadGate.TimeLimitExpires` | EN_ThreadGate.h:82-82 | the expiry removes the closer from the wait set and keeps the invariant |
| `RecursiveGate.DoKeepsInv` | EN_ThreadGate.cpp:42-73 | every operation keeps the counting invariant |
| `RecursiveGate.CountsOpens` | EN_ThreadGate.cpp:42-73 | whenever mtx is free the amount is completed opens less completed closes, never negative, and the closer sleeps only at amount 0 |
| `RecursiveGate.RefinesSemaphore` | EN_ThreadGate.cpp:42-73 | the gate is a counting semaphore: its value, never negative, grows by one at the attempt of an Open, falls by one from a positive value when the closer takes, and changes at no other step; the closer goes to sleep only at value 0, and once woken it finds the value positive |
| `RecursiveGateProgress.FairRunsSettle` | EN_ThreadGate.cpp:42-73 | from every reachable state, without new calls, every fair schedule returns every Open, each counted once, and the Close too unless every Open has been used up |
| `RecursiveThreadGateObject.RecursiveThreadGate.Close` | EN_ThreadGate.cpp:42-56 | the next operation of Close on the fields, keeping the invariant; it takes only what is there and goes to sleep only when nothing is |
| `RecursiveThreadGateObject.RecursiveThreadGate.Open` | EN_ThreadGate.cpp:58-73 | the next operation of Open on the fields, keeping the invariant; the amount grows only with no closer asleep |
| `UdpServer.ReachableInv` | EN_UDP_Server.cpp:21-61 | receiver, any number of workers and openers keep lists, mutex, log and gate consistent in every reachable state; what comes in is the subject of `WhatIsAcceptedIsQueued`, what is read of `WhatIsHandled` |
| `UdpHistory.WhatIsAcceptedIsQueued` | EN_UDP_Server.cpp:116-145 | in every reachable state the datagrams accepted, in the order in which they were received, are the ones pushed, in the order of pushing, followed by the one in hand; each was pushed once, whole, to the worker chosen for it; every receive but the last was rejected by InstantClientMessageHandler or accepted; the loop is over exactly when the last receive failed or found that Shutdown had been called |
| `UdpHistory.NothingAfterTheEnd` | EN_UDP_Server.cpp:122-123 | after such a receive nothing is received or pushed any more, under every schedule |
| `UdpHistory.WhatIsHandled` | EN_UDP_Server.cpp:28-49 | in every reachable state the handler of every worker has been given the entries pushed to it, in order, each with its message, time and address; the time or the address is missing exactly where the worker read it while the receiver was still pushing that entry |
| `UdpHistory.OnePassForEachOpening` | EN_UDP_Server.cpp:60-60 | a worker comes through its gate at most once for each opening |
| `UdpHistory.OnlyObserves` | EN_UDP_Server.cpp:116-145 | the history that those theorems speak of watches the server and does not change it |
| `UdpTheorems.QueueIsFaithful` | EN_UDP_Server.cpp:23-60 | popped messages followed by the queue are the messages pushed, in order; the handler was given the popped ones and at most the front (with which fields, `WhatIsHandled` says); the three lists are aligned whenever the mutex is free |
| `UdpTheorems.NoLostWakeup` | EN_UDP_Server.cpp:135-143 | a worker asleep in Close with a non-empty queue has an Open on its way |
| `UdpDelivery.EveryMessageIsHandled` | EN_UDP_Server.cpp:21-61 | without Shutdown every pushed message comes to the handler, as the entry of its number, in every run that is fair to the receiver and, in the strong sense, to the worker, however many datagrams come in meanwhile |
| `UdpDelivery.ChosenIsPushed` | EN_UDP_Server.cpp:128-143 | without Shutdown the datagram for which the receiver has chosen a worker is the next entry pushed to it, in all three lists, in every run fair to the worker and, in the strong sense, to the receiver |
| `UdpDelivery.ReachableRunning` | EN_UDP_Server.cpp:21-61 | every state reached without Shutdown is one that theorem starts from |
| `UdpTheorems.PopsFindAFront` | EN_UDP_Server.cpp:51-55 | the pops under the mutex never meet an empty list |
| `UdpTheorems.ReadTimeIsDefined` | EN_UDP_Server.cpp:30-30 | the unlocked read of the time finds an entry exactly when the only queued entry is not half pushed |
| `UdpTheorems.ReadAddressIsDefined` | EN_UDP_Server.cpp:33-33 | the same for the address |
| `UdpTheorems.EarlyReadIsReachable` | EN_UDP_Server.cpp:28-33 | a reachable run in which the worker reads the front of an empty time list |
| `UdpShutdown.ShutdownEndsEveryWorker` | EN_UDP_Server.cpp:193-213 | with the flag set and every gate opened at some time, every schedule fair to the workers and the receiver reaches a state in which every worker has returned, whatever datagrams arrive, whatever handlers call Shutdown and whatever was queued |
| `UdpShutdown.ShutdownReleases` | EN_UDP_Server.cpp:211-212 | whoever calls Shutdown, another thread or a handler, a fair schedule opens every gate that was to be opened |
| `UdpShutdown.HandlerEndsEveryWorker` | EN_UDP_Server.cpp:193-213 | a handler that calls Shutdown sets the flag, opens every gate and so ends every worker, its own included, in every schedule fair to the workers and the receiver |
| `UdpShutdown.ShutdownEndsTheServer` | EN_UDP_Server.cpp:193-213 | from every reachable state a Shutdown by any other thread, the flag stored and every gate opened later, ends every worker |
| `UdpTheorems.ShutdownBoundsEveryWorker` | EN_UDP_Server.cpp:193-213 | after the flag is set each worker takes boundedly many steps of its own, whatever the others do |
| `UdpTheorems.ReleasedWorkersAreNotStuck` | EN_UDP_Server.cpp:193-213 | a worker whose gate was opened after the flag can always step, or waits only for the receiver's short critical section |
| `UdpTheorems.OpeningReleases` | EN_UDP_Server.cpp:211-212 | opening a gate in Shutdown releases its worker for good |
| `UdpTheorems.AtMostOneMorePush` | EN_UDP_Server.cpp:118-143 | after the flag is set the receiver pushes at most one more entry, to all workers together |
| `UdpWorkerObject.UdpWorker.ThreadListHandler` | EN_UDP_Server.cpp:21-62 | the next operation of the worker keeps the invariant of its lists, mutex, log and gate: the time, the message and the address read are those of the next entry, a time or an address missing exactly while the receiver is still pushing that entry; the handler is given what was read; every pop finds a front, the popped message being the one handled last; and it does not go to sleep once released, nor on a message with no Open on its way |
| `UdpWorkerObject.UdpWorker.Dispatch` | EN_UDP_Server.cpp:133-143 | the next operation of the receiver at the chosen worker keeps that invariant and leaves log and reads alone; the entry arrives whole, at the ends of three lists of one length, and the Open leaves no worker asleep |
| `UdpWorkerObject.UdpWorker.HandlerShutsDown` | EN_UDP_Server.cpp:49-49 | a handler that calls Shutdown has been given the next entry too |
| `UdpWorkerObject.UdpWorker.ShutdownOpens` | EN_UDP_Server.cpp:211-212 | after the opening the worker can step, or wants a mutex, or has returned |
| `UdpWorkerObject.IndexMinQueue` | EN_UDP_Server.cpp:128-131 | the first of the shortest queues |
| `TcpServer.ReachableInv` | EN_TCP_Server.cpp:62-149 | every step keeps ClientSockets equal to the sockets of running handlers and the crosswalk roles right, if accept returns no descriptor still in the set |
| `TcpServer.ChangesHappenAlone` | EN_TCP_Server.cpp:151-178 | the set changes only in a pedestrian section, with no thread looking at it |
| `TcpServer.RunReturnsAfterAllHandlers` | EN_TCP_Server.cpp:88-149 | when a started Run returns, every handler it spawned has called OnClientDisconnect once and been erased |
| `TcpShutdown.ShutdownEndsRun` | EN_TCP_Server.cpp:88-149 | with the flag set, every fair schedule in which accept returns, receives on closed sockets fail and the crosswalk lets in who waits ends Run, with the set empty and every handler gone with one goodbye |
| `TcpShutdown.ReachableClosed` | EN_TCP_Server.cpp:200-207 | every reachable state in which Shutdown is called is one that theorem starts from |
| `TcpHistory.WhyRunEnds` | EN_TCP_Server.cpp:29-149 | however often Run is called: it returns only if Shutdown had been called, before it or before an accept returned, and throws only if an accept failed with no Shutdown called; the set is then empty |
| `TcpHistory.WhatAnAcceptLeadsTo` | EN_TCP_Server.cpp:88-145 | Run is on its way to the exception exactly after an accept that failed with the flag found down, on its way to the return exactly after one that found the flag set, and takes in the client that accept returned otherwise; a connection that came after Shutdown is closed |
| `TcpHistory.ReturnLowersTheFlag` | EN_TCP_Server.cpp:29-38 | a Run that returns found the flag set and leaves it down |
| `TcpHistory.NextRunComesToItsAccept` | EN_TCP_Server.cpp:29-93 | unless Shutdown is called again the next Run comes to its accept, whatever other threads do meanwhile |
| `TcpShutdown.FailedAcceptEndsRun` | EN_TCP_Server.cpp:111-131 | from every reachable state after a failed accept with the flag found down every schedule fair as for ShutdownEndsRun brings Run to its exception, with every descriptor that was in the set closed, the set empty and every handler gone with one goodbye |
| `TcpShutdown.ReachableSound` | EN_TCP_Server.cpp:29-178 | every reachable state is one that theorem starts from |
| `TcpHistory.ReadersSeeOneSet` | EN_TCP_Server.cpp:229-247 | a thread that looks sees one set until it leaves, under every schedule |
| `TcpServer.ReuseIsReachable` | EN_TCP_Server.cpp:171-177 | a descriptor can come back between close and erase |
| `TcpServer.EarlyReuseLosesAHandler` | EN_TCP_Server.cpp:171-177 | then Run can return with a handler still running: the freshness of accept is needed |
| `ThreadTcpServerObject.TcpServer.Run` | EN_TCP_Server.cpp:29-149 | the next operation of Run and of the two members it calls updates the fields as the machine does and keeps the invariant; the set changes with nobody else on the road; a failed accept leads to the exception, one that found the flag set to the return, and neither way is left; to return is to lower the flag, and nothing else does; Run ends with the set empty and one goodbye per handler |
| `ThreadTcpServerObject.TcpServer.ClientHandler` | EN_TCP_Server.cpp:151-178 | the same for a handler: it takes its own socket out with nobody else on the road, and is gone with one goodbye said |
| `ThreadTcpServerObject.TcpServer.Find` | EN_TCP_Server.cpp:229-247 | a look at the set happens with no pedestrian in and gives its contents |
| `ThreadTcpServerObject.TcpServer.Shutdown` | EN_TCP_Server.cpp:200-207 | the flag is raised, nothing else |
| `Barrier.DoKeepsInv` | EN_ThreadBarrier.cpp:7-23 | every operation keeps the counter equal to the threads inside and the two phases of the round |
| `Barrier.OneRound` | EN_ThreadBarrier.cpp:7-23 | nobody returns before all have arrived, one thread wins the exchange, the counter is the number of followers inside, and it is 0 when the leader returns |
| `Barrier.FairRoundsEnd` | EN_ThreadBarrier.cpp:14-22 | every fair schedule lets all threads return, the counter at 0: no follower's wake-up is lost |
| `Barrier.EarlyReentryPassesAlone` | EN_ThreadBarrier.cpp:14-17 | a follower that re-enters early returns twice while the other has not returned once |
| `ThreadBarrierObject.ThreadBarrier.Wait` | EN_ThreadBarrier.cpp:7-23 | the next operation of Wait on the fields, keeping the invariant; nobody returns before all have arrived, and the leader leaves an empty barrier |
| `ParallelFor.DoKeepsInv` | EN_ParallelFor.h:24-82 | every operation of operator() and its workers keeps the invariant |
| `ParallelFor.ReturnMeansAllDoneOnce` | EN_ParallelFor.h:24-82 | if operator() returns, the body has completed exactly once for each position and no worker touches the shared position again |
| `ParallelForProgress.ReachableFullInv` | EN_ParallelFor.h:24-82 | every reachable state satisfies what the next row asks for |
| `ParallelForProgress.MissedNotificationBlocks` | EN_ParallelFor.h:48-49 | a notification sent while operator() was not yet waiting makes it wait for ever |
| `ParallelForProgress.MissedIsReachable` | EN_ParallelFor.h:24-82 | from every reachable state in which operator() does not wait yet, whatever the range and the number of workers, some schedule sends the notification too early |
| `ParallelForProgress.EveryLoopCanMiss` | EN_ParallelFor.h:64-82 | so every call with at least one worker can hang: no condition on its arguments prevents it |
| `ParallelForProgress.WaitingInTimeReturns` | EN_ParallelFor.h:64-82 | if operator() waits before the notification, every fair schedule makes it return: with the two rows above, exactly then |
| `ParallelForObject.ParallelFor.Operator` | EN_ParallelFor.h:64-82 | the next operation of operator() on the fields, keeping the invariant; it returns with the body done once for every position and for no other |
| `ParallelForObject.ParallelFor.ThreadFunc` | EN_ParallelFor.h:24-50 | the next operation of a worker on the fields, keeping the invariant; a body is completed for a position it was not completed for, and the notifying worker has counted all |
| `BackgroundTimer.DoKeepsInv` | EN_BackgroundTimer.cpp:14-41 | every operation of the timer thread and its caller keeps the handshake |
| `BackgroundTimer.SleepsAsAsked` | EN_BackgroundTimer.h:22-30 | the timer thread sleeps for the duration written by the StartTimer that woke it |
| `BackgroundTimer.StartTimerCutsNoSleepShort` | EN_BackgroundTimer.h:25-27 | no notification of StartTimer ends a sleep |
| `BackgroundTimer.DestructorReturns` | EN_BackgroundTimer.cpp:33-41 | from every reachable state the destructor's loop brings the thread to its end and the destructor returns |
| `TimerProgress.SleepEnds` | EN_BackgroundTimer.cpp:17-31 | from every reachable state in which IsSleep says yes every run in which the time is up sooner or later and both threads are scheduled comes to one in which it says no; an idle caller may then start again |
| `TimerProgress.StartTimerReturns` | EN_BackgroundTimer.h:22-30 | StartTimer, called by an idle caller to whom IsSleep says no, returns in every fair run, the timer thread awake and bound to sleep for the duration asked for |
| `TimerProgress.DestroyEnds` | EN_BackgroundTimer.cpp:33-41 | the destructor, called by an idle caller in any reachable state, ends in every fair run, with the timer thread ended |
| `BackgroundTimer.UnaskedStartChangesTheSleep` | EN_BackgroundTimer.h:22-30 | without asking IsSleep first, a second StartTimer changes the duration of the first: the caller's check is needed |
| `TimerThreadObject.BackgroundTimer.ThreadBody` | EN_BackgroundTimer.cpp:9-24 | the next operation of the timer thread on the fields, keeping the invariant; a sleep is as long as its waker asked, and the thread ends only when destroyed |
| `TimerThreadObject.BackgroundTimer.StartTimer` | EN_BackgroundTimer.h:22-30 | the next operation of StartTimer on the fields, keeping the invariant; it returns with the thread woken by it and about to sleep as long as asked |
| `TimerThreadObject.BackgroundTimer.IsSleep` | EN_BackgroundTimer.cpp:28-31 | true exactly from the code being set to its being cleared |
| `TimerThreadObject.BackgroundTimer.Destroy` | EN_BackgroundTimer.cpp:33-41 | the next operation of the destructor; it returns only when the thread has ended |
| `Framing.FillBuffer` | EN_Functions.cpp:89-114 | the buffer that is sent is the length in base 128 followed by the message |
| `Framing.IntKeeps` | EN_Functions.cpp:118-121 | a count of 64 bits that is kept in an int and compared as a size is still the same exactly below 2^31, or within 2^31 of 2^64 |
| `Framing.DefaultTcpSend` | EN_Functions.cpp:76-122 | what leaves is the frame as far as the connection takes it, nothing for a message over the limit; success is reported exactly when all of it has left and it is shorter than 2^31 bytes |
| `Framing.SuccessIsReceived` | EN_Functions.cpp:118-121 | a send that reports success is received; one of a message below 2^31 bytes in a frame that is not below is received too, and reported failed |
| `Framing.SendToServer` | arduino/EN_TCP_Client.cpp:38-79 | the other encoder, with loops of its own, emits the same bytes, with no limit but that of strings, and reports success under the same condition |
| `Framing.SizeOf` | EN_Functions.cpp:149-157 | the length computed backwards with 64-bit wrap-around |
| `Framing.DefaultTcpRecv` | EN_Functions.cpp:124-192 | one receive: the message and the rest of the stream; a refusal that leaves the message and the connection; or a closed connection and an empty message, for want of bytes and for messages of 2^31 bytes or more |
| `Framing.PrefixParses` | EN_Functions.cpp:90-112 | a written length reads back as the same number from the same bytes |
| `Framing.WhenFramesAreReceived` | EN_Functions.cpp:124-192 | for every limit, what becomes of a frame that arrives whole: refused over the limit; received, with the stream left at the next one, below 2^31 bytes; taken for a cut one otherwise |
| `Framing.FrameIsReceived` | EN_Functions.cpp:124-192 | so a frame within the limit and below 2^31 bytes gives back its message and leaves the stream at the next |
| `Framing.DefaultLimitIsSafe` | EN_Functions.cpp:5-5 | at the default limit every message is sent and received: no frame has 2^31 bytes |
| `Framing.CutFrameIsCut` | EN_Functions.cpp:133-179 | a frame cut anywhere is never taken for a message |
| `Framing.StreamIsReceived` | EN_Functions.cpp:76-192 | for every limit, every truncation of a stream of messages within it is received as a prefix of them, and the whole stream as all exactly when each is below 2^31 bytes |
| `Framing.NoMessageIsMissed` | EN_Functions.cpp:76-192 | it is the longest prefix whose frames arrived whole, up to the first message of 2^31 bytes |
| `Framing.ThenTheStreamIsCut` | EN_Functions.cpp:133-179 | what follows then fails for want of bytes, never as too long |
| `Framing.PrefixIsShort` | EN_Functions.cpp:5-5 | at the default limit a length takes at most five bytes |
| `Framing.ShortLengthsDoNotWrap` | EN_Functions.cpp:149-157 | up to nine bytes of length no decoding wraps around |
| `Framing.WrapsAround` | EN_Functions.cpp:149-157 | for every digit sequence: decoding does not wrap around exactly when there are at most nine digits or the value of those above the ninth is at most 1 |
| `Framing.AtMostOne` | EN_Functions.cpp:149-157 | and that value is at most 1 exactly when the tenth digit is at most 1 and every later one is 0 |
| `Framing.LongLengthsKeep64Bits` | EN_Functions.cpp:149-157 | what is decoded of nine digits or more: the first nine and the lowest bit of the others |
| `Framing.TenByteLengthWraps` | EN_Functions.cpp:149-157 | so ten bytes can wrap: a length of 2^64 is received as an empty message |
| `Scanners.IsSplitter` | EN_Functions.cpp:330-340 | the comparison loop decides whether the separator stands at a place, wherever it stays within the string and its terminator |
| `Scanners.Split` | EN_Functions.cpp:324-355 | the pieces between the cuts |
| `Scanners.SplitUpToTheFirst` | EN_Functions.cpp:357-388 | what is before and after the first cut, or an exception when the cut reached beyond the length; an empty separator cuts before the first zero byte |
| `ScannerTheorems.EmptySeparatorCutsAtZero` | EN_Functions.cpp:364-385 | that cut keeps the whole string: nothing with a zero byte before it, the zero byte first after it |
| `Scanners.FindAllOccurrences` | EN_Functions.cpp:390-417 | the cuts |
| `Scanners.Replace` | EN_Functions.cpp:419-451 | the same pieces joined by the replacement |
| `ScannerTheorems.CutsAreLeftmost` | EN_Functions.cpp:390-417 | the cuts are the only choice of non-overlapping occurrences such that each occurrence overlaps one from the left |
| `ScannerTheorems.AllFoundWhenApart` | EN_Functions.h:167-173 | every occurrence is found exactly when no two overlap |
| `ScannerTheorems.JoinRestores` | EN_Functions.cpp:324-355 | joining the pieces gives back the string exactly when no cut took the terminator |
| `ScannerTheorems.TerminatorIsTaken` | EN_Functions.cpp:335-335 | for every non-empty separator: a cut takes the terminator exactly when the string ends in all of the separator but a final zero byte, and no prefix of the string, cut off at a zero byte within that end, has the same property |
| `ScannerTheorems.WhenTheTerminatorIsTaken` | EN_Functions.cpp:335-335 | so never for separators without a zero byte after the first; and for separators whose only zero byte is the last, exactly when the string ends in all the rest of them |
| `ScannerTheorems.SharedZeroBytes` | EN_Functions.cpp:335-335 | two zero bytes cut by two zero bytes: the string ends in all but the final zero, and the terminator is not taken |
| `ScannerTheorems.NulIsMistakenForTheEnd` | EN_Functions.cpp:335-335 | a concrete separator ending in a zero byte for which joining does not restore |
| `ScannerTheorems.PiecesHoldNoSeparator` | EN_Functions.cpp:324-355 | no piece contains the separator |
| `ScannerTheorems.OccurrencesAreTheCuts` | EN_Functions.cpp:390-417 | FindAllOccurrences gives the offsets at which the pieces of Split, joined, end |
| `ScannerTheorems.FirstPieceAndTheOthers` | EN_Functions.cpp:357-388 | SplitUpToTheFirst gives the first piece and the join of the others |
| `Base64.TableIsComplete` | EN_Functions.h:41-46 | the table holds 64 symbols in the order of the standard |
| `Base64.ConvertInvertsTheTable` | EN_Functions.cpp:1317-1335 | converting a symbol finds its place in the table, for its symbols and no others |
| `Base64.RegularStringToBase64String` | EN_Functions.cpp:1337-1367 | the loop and its two endings compute the encoding |
| `Base64.Base64StringToRegularString` | EN_Functions.cpp:1369-1389 | the loop computes the decoding, for every text on which it ends |
| `Base64.QuadKeepsTheBits` | EN_Functions.cpp:1347-1350 | four symbols are the same 24 bits as their three bytes |
| `Base64.DecodeOfEncode` | EN_Functions.cpp:1337-1389 | decoding what was encoded gives it back |
| `Base64.EncodedIsDecodable` | EN_Functions.cpp:1337-1389 | what was encoded, unless it was nothing, is a text on which decoding ends |
| `Base64.EncodedLength` | EN_Functions.cpp:1337-1367 | four symbols for every three bytes begun |
| `Base64.EncodedIsCanonical` | EN_Functions.cpp:1337-1367 | the encoding is padded and its unused bits are zero |
| `Base64.EncodeOfDecode` | EN_Functions.cpp:1337-1389 | encoding what was decoded gives back exactly the canonical texts |
| `Decimal.IsCanBeDigit` | EN_Functions.cpp:1251-1260 | true exactly for non-empty strings of digits |
| `Decimal.StringToInt` | EN_Functions.cpp:1306-1315 | the 64-bit number, a refusal for anything but digits, an exception out of range |
| `Decimal.ParseOfToString` | EN_Functions.cpp:1306-1315 | a number written out reads back, or is the exception when it has more than 64 bits |
| `Fields.SplitByOneByte` | EN_Functions.cpp:324-355 | splitting by one byte gives the only list of pieces without it that joins to the string |
| `Fields.HeaderReadsBack` | EN_Functions.cpp:652-664 | the header reads back as the sent triple exactly when the name has no space and the numbers have 64 bits; a name with a space is refused, a larger number an exception |
| `FileBlocks.BlocksAgree` | EN_Functions.cpp:539-545 | sender and receiver run the same number of passes exactly when the offset lies in the file or the 64-bit difference wraps to at most a block; it does not wrap exactly when the offset lies in the file |
| `FileBlocks.LastWriteFits` | EN_Functions.cpp:729-738 | the last write takes from 0 to 4096 bytes, 0 only when nothing was wanted |
| `FileBlocks.SendBlocks` | EN_Functions.cpp:515-605 | what leaves agrees with the file as far as both go; if the flag is seen set before pass k of a loop that has more passes, it fails and exactly the k blocks before leave, as far as the connection takes them; otherwise the flag makes no difference, and it succeeds exactly when every block left |
| `FileBlocks.RecvBlocks` | EN_Functions.cpp:684-738 | the temporary file grows by what is collected from the stream, and the rest of the stream stays |
| `FileBlocks.CollectedIsAPrefix` | EN_Functions.cpp:684-738 | what is collected are the first bytes of the stream, no more than wanted, all of them exactly when every block was there |
| `FileBlocks.CollectedUntilStopped` | EN_Functions.cpp:688-700 | a receiver that sees its flag set before pass k writes exactly the k blocks before and leaves the others in the stream |
| `FileBlocks.CollectedUntilCut` | EN_Functions.cpp:702-727 | when the stream ends first its whole blocks are written and nothing stays in it |
| `FileBlocks.PaddedIsLeast` | EN_Functions.cpp:539-605 | what an uncut sender puts out is the least number of whole blocks, at least one, that holds what is left of the file |
| `FileNames.BareNames` | EN_Functions.cpp:631-638 | the base name of a path has no slash, and is the path exactly when the path has none |
| `FileNames.BaseNameFollowsTheLastSlash` | EN_Functions.cpp:631-638 | the base name is all that follows the last slash |
| `FileNames.NumberedKeepsTheType` | EN_Functions.cpp:770-789 | a numbered name keeps the stem and the type of the file, the type being empty or the last dot and what follows it |
| `FileNames.NumbersDiffer` | EN_Functions.cpp:787-789 | different numbers give different names |
| `FileNames.FindFreeName` | EN_Functions.cpp:767-790 | the collision loop ends, with the name itself or the first free number: no existing file is overwritten |
| `FileTransfer.SendFile` | EN_Functions.cpp:477-629 | header, answer, blocks: what leaves, what is read and when it succeeds; success means that the stop flag was never seen set |
| `FileTransfer.RecvFile` | EN_Functions.cpp:640-798 | header, answer, blocks, renaming: what becomes of the files, what is answered and what stays unread |
| `TransferTheorems.SessionIsSafe` | EN_Functions.cpp:477-798 | whatever prefix of the sender's bytes arrives, the temporary file stays a prefix of the source and does not shrink, or becomes a complete copy under a free name; no other file changes |
| `TransferTheorems.LargeNumbersThrow` | EN_Functions.cpp:652-664 | a header with a number of more than 64 bits ends the session with the exception: nothing is answered and no file changes |
| `TransferTheorems.RefusedTransfer` | EN_Functions.cpp:652-664 | after "bad" nothing is left unread on either side and no file has changed |
| `TransferTheorems.UncutTransfer` | EN_Functions.cpp:477-798 | uncut, both sides succeed, the file gets all that was missing, and nothing is left unread on either side |
| `TransferTheorems.StoppedSender` | EN_Functions.cpp:544-551 | a sender whose flag is seen set before pass k of a loop with more passes fails, and at most the header and k blocks leave |
| `TransferTheorems.SuccessfulSender` | EN_Functions.cpp:477-629 | a sender that succeeds never saw its flag set; the header and the rest of the file, padded, have left |
| `TransferTheorems.StoppedSessionIsSafe` | EN_Functions.cpp:477-798 | whatever prefix of a stopped sender's bytes arrives, and whether the receiver is stopped or not: both fail, no new file appears, and the temporary file stays a prefix of the source and grows by at most those k blocks |
| `TransferTheorems.StoppedTransfer` | EN_Functions.cpp:477-798 | when nothing else is cut it grows by exactly those k blocks |
| `TransferTheorems.OffsetBeyondTheFile` | EN_Functions.cpp:539-545 | from an offset beyond the file, such as a "continue" with too large a number asks for: the sender succeeds after one block, the temporary file grows by 1 to 4096 bytes of padding, and the receiver takes that for the end of the file exactly when the wrapped difference is at most a block |
| `Negotiation.ClientMessageHandler` | Examples/TCP_BlockingFileTransmitter_Server.cpp:17-80 | the three requests: what is answered, which transfer follows from which offset, and the exception for a number out of range |
| `Negotiation.SendCommand` | Examples/TCP_BlockingFileTransmitter_Client.cpp:77-102 | the request, the offset taken from the answer or the exception for one out of range, and the transfer |
| `Negotiation.GetCommand` | Examples/TCP_BlockingFileTransmitter_Client.cpp:104-145 | the request for the rest or for the whole, and the transfer after "ok" |
| `NegotiationTheorems.ResumeIsSane` | Examples/TCP_BlockingFileTransmitter_Server.cpp:31-40 | the answer is one the client can index and convert, and names the progress |
| `NegotiationTheorems.RequestIsWellFormed` | Examples/TCP_BlockingFileTransmitter_Client.cpp:106-130 | the request is one the server can index and convert, whatever files the server has |
| `NegotiationTheorems.UploadIsSafe` | Examples/TCP_BlockingFileTransmitter_Server.cpp:29-44 | an upload cut anywhere, in both directions, or stopped is safe; one stopped by its sender adds no file; and neither side indexes or converts what is not there |
| `NegotiationTheorems.DownloadIsSafe` | Examples/TCP_BlockingFileTransmitter_Client.cpp:104-145 | a download cut anywhere, in both directions, or stopped is safe; one stopped by its sender adds no file |
| `TransferRuns.SessionsAreSafe` | Examples/TCP_BlockingFileTransmitter_Server.cpp:29-79 | over any number of cut sessions the temporary file is a prefix of the source and shrinks only by becoming a copy; each success adds one file, the source; nothing else changes |
| `TransferRuns.UploadCompletes` | Examples/TCP_BlockingFileTransmitter_Server.cpp:29-44 | from whatever the cut sessions left, an uncut upload leaves exactly the source and nothing unread |
| `TransferRuns.DownloadCompletes` | Examples/TCP_BlockingFileTransmitter_Client.cpp:104-145 | the same for a download |
| `TransferRuns.MissingFile` | Examples/TCP_BlockingFileTransmitter_Client.cpp:132-145 | a download of a file that the server does not have: it answers so, no file changes and nothing is left unread on either side |
| `TransferRuns.UploadIsExactWhen` | Examples/TCP_BlockingFileTransmitter_Server.cpp:29-44 | for every name without spaces an uncut upload succeeds, and leaves a copy of the source exactly when the temporary file under the base name holds the part of the source that "was" has measured under the whole name |
| `TransferRuns.DownloadIsExactWhen` | Examples/TCP_BlockingFileTransmitter_Client.cpp:104-145 | the same for an uncut download, of the part the client has measured |
| `TransferRuns.SlashedNamesDoNotResume` | Examples/TCP_BlockingFileTransmitter_Server.cpp:31-42 | so with a slash in the name, and no temporary file under the whole name, exactly when the one under the base name is absent or empty |
| `TransferWitness.UploadHappens` | Examples/TCP_BlockingFileTransmitter_Server.cpp:29-44 | such uploads exist, for every file, every name without spaces and whatever part is there |
| `TransferWitness.DownloadHappens` | Examples/TCP_BlockingFileTransmitter_Client.cpp:104-145 | such downloads exist |

## Left out

- FairRunsDrain: progress is under weak fairness of every thread; nothing bounds how long a thread spins.
- LimitedCloseReturns: the closer is not passed over for ever at mtx, which std::mutex does not promise; with no new openers weak fairness is enough (`FairRunsSettle`).
- ChosenIsPushed: the same of the receiver at a worker's mutex; the same of the worker in `EveryMessageIsHandled`.
- OneRound: one round of exactly `amount` threads; a reused barrier is covered only by the failing run.
- ReachableInv: of the TCP server: accept is taken to return no descriptor still in the set.
- IndexMinQueue: in the machine the receiver may choose any queue, since it reads the sizes without the mutexes; the choice itself is proved on measured sizes.
- Base64StringToRegularString: texts of less than four symbols, but for three with a pad at the end, are excluded; the loop bound is an unsigned difference and the loop runs away for them.
- Split: excluded are exactly the pairs on which the source does not end, an empty separator with a zero byte in the string, and those on which its scan reads past the terminator; the same for FindAllOccurrences and Replace.
- SplitUpToTheFirst: excluded are exactly the pairs on which its scan, up to the first cut, reads past the terminator.
- DefaultTcpRecv: for a length beyond the largest buffer, 2^63 - 1 bytes, `new` throws; that is modelled as the refusal it amounts to.
- DefaultTcpSend: one call of send or recv is taken to move as much as is asked for; a system that moves less than 2^31 bytes at once fails for some shorter frames too.
- SendToServer: sizes are taken to have 64 bits; on boards where they have 32 the int keeps every count.
- RecvBlocks: does not model that a stop found by the receiver clears the flag.
- SendCommand: an answer "ok" that has no second field, or one that is not digits, is excluded; the source indexes the one and uses an unset variable for the other.  `UploadIsSafe` shows that the server never sends one.
- ClientMessageHandler: requests with missing fields, and a "continue" for an existing file with a third field that is not digits, are excluded for the same reasons; the client sends none.
- UncutTransfer: asks for a header below 2^31 bytes as a frame, name and all; the sender stops after a longer one.
- UploadIsSafe: both programs use the same message limit, of at least 23 bytes, so that answers fit.
- SessionsAreSafe: names have neither space nor slash, since a slash breaks it (`SlashedNamesDoNotResume`); the source file does not change between sessions, and one session runs at a time.
- UdpServer.Do: a gate is the event it is proved to be, taken as one operation.
- UDP framing: the second length byte is read by a receive of its own, and 16384 does not fit two bytes, so no round trip holds.
- UDP Stack mode: the front is read unlocked and popped later, so which message is handled is not determined.
- ForwardFile: it reads the offset as the size and does not relay the answer.
- WaitMessage of the small-board client, whose behaviour depends on the board's connection state.
- The base-256 number templates, date helpers, UUIDs and TrimString: easy members.
- WaitFor of the barrier, and time itself: a time limit may expire at any moment.
- Progress figures, transfer speed and delays of a transfer.
- The RAU client and server, which are not built, the HTTP server, subprocesses and the session-context servers.
- Socket creation, options, addresses, logging and object lifetime; buffers not freed on early returns.
- The width of the counters of threads, of the opens of the counting gate and of numbered file names, and of the timer's duration in microseconds.
- Lost file writes: a write to an open file and the final rename succeed.
