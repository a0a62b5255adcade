# Single-server queue simulators, modelled in Dafny

The repository holds two discrete-event simulators of a single-server queue,
`MM1Queue.py` and `MD1KQueue.py`. Each defines a `Controller`, a `Request` and
a `Monitor`. The controller keeps a clock, a waiting list, one service slot and
a heap of `(time, kind)` events. `runSimulation` seeds the heap with a Birth and
a Monitor event. It then pops the earliest event, moves the clock to it and
executes it, until the clock reaches the simulation time. A Birth creates a
request. A Death frees the server. A Monitor event sends the monitor a
snapshot.

- **M/M/1** (`mm1_queue.dfy`): exponential service and an unbounded list. A
  Death hands the server the **last** waiting request (`pop()`). Past the
  warm-up, each departure is recorded.
- **M/D/1/K** (`md1k_queue.dfy`): a constant service time of 0.015 and room
  for four waiting requests. A Birth that finds four waiting is rejected, and
  attempts and rejections are counted past the warm-up. A Death hands the
  server the **first** waiting request (`pop(0)`). Departures are not recorded.
  Every snapshot also samples the queuing time of the request that left last.

Shared parts:

- `event_schedule.dfy`: the heap and its tuple order. Ties on time go by kind
  name, "Birth" < "Death" < "Monitor".
- `statistics.dfy`: sums, true division that may raise ZeroDivisionError, and
  squared deviations.
- `request.dfy`: the `Request` class, which both files define identically.
- `queue_state.dfy`: the controller's state as a value (`State`) and the
  invariant `Good`. `Good` says:
  - an idle server means an empty list;
  - the heap holds exactly one Birth, one Monitor, and one Death exactly while
    a request is in service;
  - waiting requests are in birth order;
  - while anyone is in the system, nothing pending is earlier than the clock.

Each controller is a class whose methods update its fields in place. Each
method is proved to move `Abstract()`, the state as a value, exactly as a pure
step function does (`BirthStep`, `DeathStep`, `MonitorStep`, `Step`). The
invariants are proved about those functions. Every call of `exponentialValue`
is replaced by the next entry of a caller-supplied stream
`draws: nat -> real` of non-negative delays. The methods return how many
entries they consumed.

Where the module docstrings and the code disagree, the model follows the code:

- The M/M/1 docstring promises first-come first-served service, but the Death
  handler serves the newest waiting request. `MM1Queue.DeathServesNewest` states
  the discipline as written. `MM1Queue.NotFirstComeFirstServed` follows a run
  from the seeded state, four events long, whose Death passes over the
  earlier-born of two waiting requests.
- In the M/D/1/K controller, `recordSnapshot` dereferences `recentlyDied`.
  Before the first Death that is `None`, so a Monitor event that comes before
  any Death raises AttributeError. This happens, for instance, when the warm-up
  ends before the first departure. `MD1KQueue.Controller.RunSimulation` ends
  with `AttributeError` in exactly that case.
- Both `runSimulation` methods push the first Monitor event at
  `monitorStartingTime` and allow any value. A negative one is popped before the
  first Birth and moves the clock back from 0. This is why every "the clock
  does not move back" below holds only while someone is in the system, or
  while nothing pending is earlier than the clock.

## Model

| member | source | states |
|---|---|---|
| EventSchedule.RankAgreesWithNames | MD1KQueue.py:38-41 | The rank order of the three kinds is exactly Python's string order on "Birth", "Death", "Monitor", in both directions. |
| EventSchedule.EarliestIndex | MD1KQueue.py:62 | The index found lies in the heap, and its event is no later, in tuple order, than any event of the heap. |
| EventSchedule.HeapPushContents | MD1KQueue.py:76 | heappush adds exactly the pushed pair to the heap's contents. Nothing else is added or lost. |
| EventSchedule.HeapPop | MD1KQueue.py:62 | heappop returns an event no later than every event it leaves. |
| EventSchedule.HeapPopContents | MD1KQueue.py:62 | heappop loses nothing: what is left plus the popped event is the old contents. |
| EventSchedule.HeapPopStrictlyEarliest | MD1KQueue.py:62 | When one event is strictly earlier than all the others, heappop returns exactly that one and leaves the others in order. |
| EventSchedule.KindCountPermutation | MD1KQueue.py:62 | The number of events of a kind depends only on the heap's contents, not on its layout. |
| EventSchedule.KindCountPop | MD1KQueue.py:62 | Popping an event and pushing it back leaves every kind's count unchanged. |
| EventSchedule.ClockAppend | MD1KQueue.py:62-63 | An event no earlier than the last one extends a sequence of non-decreasing clock times. |
| Statistics.SquaredDeviations | MD1KQueue.py:152 | The sum of squared differences from a mean is never negative. |
| Statistics.Quotient | MD1KQueue.py:149 | Division gives a result exactly when the count is not zero (otherwise ZeroDivisionError), and the result times the count is the total. |
| Statistics.SumMonotone | MM1Queue.py:137-140 | Summing keeps a pointwise order between two lists of samples. |
| Statistics.SumWithinOne | MM1Queue.py:137-138 | If each sample lies between another list's sample and that plus one, the sums differ by at most the list length. |
| Statistics.MeanAtMost | MD1KQueue.py:149 | The mean of samples that are all at most a bound is at most that bound. |
| Statistics.MeanNonNegative | MD1KQueue.py:149 | The mean of non-negative samples is non-negative. |
| Statistics.QuotientMonotone | MM1Queue.py:137-138 | Dividing ordered totals by the same positive count keeps their order. |
| Statistics.QuotientShift | MM1Queue.py:137-138 | Adding one per sample to a total adds one to its mean. |
| Requests.Request.constructor | MD1KQueue.py:122-123 | A new request has its birth time set and neither a service nor a death time yet. |
| Requests.Request.SetServiceTime | MD1KQueue.py:124-125 | Sets the service time and leaves the death time alone. |
| Requests.Request.SetDeathTime | MD1KQueue.py:126-127 | Sets the death time and leaves the service time alone. |
| Requests.Request.WaitingTime | MD1KQueue.py:128-129 | Birth plus waiting time is the service time. The waiting time is non-negative exactly when service did not start before birth. |
| Requests.Request.QueuingTime | MD1KQueue.py:130-131 | The queuing time is non-negative exactly when death is not before birth. For a chronological request it is at least the waiting time, which is at least zero. |
| QueueState.InSystem | MD1KQueue.py:112-115 | Requests in the system are those waiting plus 0 or 1. The count equals the number waiting exactly when the server is idle. |
| QueueState.Pop | MD1KQueue.py:62-64 | The clock moves to the popped event. The list and the server are untouched. |
| QueueState.PopContents | MD1KQueue.py:62-64 | The heap loses exactly the popped event: what is left plus that event is what was pending. |
| QueueState.PopStrictlyEarliest | MD1KQueue.py:62-64 | When one pending event is strictly earlier than all the others, the pop takes exactly that one and moves the clock to it. |
| QueueState.PopKeepsScheduled | MD1KQueue.py:62 | A scheduled heap is never empty, and putting the popped event back restores the counts of every kind. |
| QueueState.PopKeepsTimed | MD1KQueue.py:62-63 | After a pop nothing left is earlier than the new clock, and the state with the popped event put back keeps the timing invariant. The clock does not move back when someone is in the system or nothing pending was earlier than it. |
| QueueState.PopIsReady | MD1KQueue.py:50-65 | From a good state the heap is never empty, and the popped event finds the controller in the state its handler needs. |
| QueueState.DeathFindsServer | MD1KQueue.py:95-96 | A Death is only popped while a request is in service, so the handler never dereferences an empty slot. |
| QueueState.PushNoneEarlier | MD1KQueue.py:75-76 | Pushing an event no earlier than the clock keeps the heap no earlier than the clock. |
| QueueState.MonitorStep | MM1Queue.py:97-106 | A Monitor event, in either simulator, leaves the clock, the list and the server as they were, and uses one draw. |
| QueueState.Seeded | MD1KQueue.py:44-48 | The seeded state is good: clock at 0, nobody in the system, one Birth and one Monitor pending. |
| MM1Queue.Monitor.constructor | MM1Queue.py:121-127 | The monitor starts with no snapshots, no departures and lists of matching (zero) lengths. |
| MM1Queue.Monitor.RecordSnapshot | MM1Queue.py:128-131 | The snapshot count grows by one, and each list gains its sample at the end. The departure lists are unchanged. |
| MM1Queue.Monitor.RecordDeadRequest | MM1Queue.py:132-135 | The departure count grows by one, and the waiting-time and queuing-time lists gain the request's times. The snapshot lists are unchanged. |
| MM1Queue.Monitor.AverageRequestsWaiting | MM1Queue.py:137 | Defined exactly when there are snapshots (otherwise ZeroDivisionError). Never negative. |
| MM1Queue.Monitor.AverageRequestsInSystem | MM1Queue.py:138 | Defined exactly when there are snapshots. Never negative. |
| MM1Queue.Monitor.AverageWaitingTime | MM1Queue.py:139 | Defined exactly when a departure was recorded. Times the count, it is the sum of waiting times. |
| MM1Queue.Monitor.AverageQueuingTime | MM1Queue.py:140 | Defined exactly when a departure was recorded. Times the count, it is the sum of queuing times. |
| MM1Queue.AverageInSystemBounds | MM1Queue.py:137-138 | With coherent snapshots: average waiting ≤ average in system ≤ average waiting + 1. |
| MM1Queue.AverageTimesOrdered | MM1Queue.py:139-140 | With coherent departures: 0 ≤ average waiting time ≤ average queuing time. |
| MM1Queue.BirthStep | MM1Queue.py:66-82 | A Birth keeps the clock and adds exactly one request to the system. It uses one draw, or two when it starts service. |
| MM1Queue.DeathStep | MM1Queue.py:83-96 | A Death keeps the clock and removes exactly one request from the system. It uses a draw only when someone was waiting. |
| MM1Queue.Execute | MM1Queue.py:65-106 | Dispatch keeps the clock and never gives back draws. |
| MM1Queue.BirthStartsService | MM1Queue.py:76-82 | A Birth that finds the server idle keeps the invariant. Nothing it pushes is earlier than the clock. |
| MM1Queue.BirthJoinsQueue | MM1Queue.py:67-72 | A Birth that finds the server busy keeps the invariant. Nothing it pushes is earlier than the clock. |
| MM1Queue.BirthKeepsGood | MM1Queue.py:66-82 | Every Birth keeps the invariant. |
| MM1Queue.DeathKeepsGood | MM1Queue.py:83-96 | Every Death keeps the invariant. |
| MM1Queue.MonitorKeepsGood | MM1Queue.py:97-106 | Every Monitor event keeps the invariant. |
| MM1Queue.ExecuteKeepsGood | MM1Queue.py:65-106 | Executing any popped event keeps the invariant. |
| MM1Queue.Record | MM1Queue.py:83-103 | What an event adds to the monitor's lists: two snapshot samples for a Monitor event (waiting ≤ in system); for a Death past the warm-up, a waiting time and a queuing time with 0 ≤ waiting ≤ queuing; nothing otherwise. The lists only grow at the end. |
| MM1Queue.Step | MM1Queue.py:60-63 | After one loop iteration the clock is at the executed event. Draws are never given back. |
| MM1Queue.StepKeepsGood | MM1Queue.py:48-63 | From a good state the heap is non-empty and a step leads to a good state in which nothing pending is earlier than the clock. The clock does not move back when someone is in the system or nothing pending was earlier than it. A popped Death always finds a request in service. |
| MM1Queue.TracedExtend | MM1Queue.py:60-63 | One more executed event keeps the record: times non-decreasing, one snapshot per Monitor event, one departure record per Death after the warm-up. |
| MM1Queue.Run | MM1Queue.py:48-63 | The event loop on values. It executes at most fuel events. It executes none exactly when the clock has reached the horizon, the fuel is spent or the heap is empty, and then it leaves the state and the draw count alone. |
| MM1Queue.RunBeforeHorizon | MM1Queue.py:48-61 | The run ends with the clock at its last event. Every event but the last was executed while the clock was still before the horizon, as the loop test demands. |
| MM1Queue.RunRecord | MM1Queue.py:48-106 | What the monitor collects over the loop: each executed event adds what Record says, in the state its pop leaves. The four lists only grow at the end. |
| MM1Queue.RunRecordUnfolds | MM1Queue.py:59-63 | While the loop goes on, what it collects is what the first event adds, in the popped state, followed by what the rest of the run collects from there. The step keeps the invariant, and a popped Death finds a request in service. |
| MM1Queue.DeathServesNewest | MM1Queue.py:91 | When requests wait, a Death hands the server the most recently born one. The rest keep their order, and each was born no later than it. |
| MM1Queue.NotFirstComeFirstServed | MM1Queue.py:20-21 | Contrary to the docstring: in a run from the seeded state (monitor at 3.0, births at 0, 0.25 and 0.5, first service until 1.0), the fourth event is a Death. It finds the requests born at 0.25 and 0.5 waiting and hands the server the one born at 0.5. |
| MM1Queue.Controller.constructor | MM1Queue.py:28-39 | A new controller has clock 0, an empty list, an idle server, an empty heap, a fresh monitor, and serviceRate = 1 / averageServiceTime. |
| MM1Queue.Controller.ServeLast | MM1Queue.py:77-82 | The last request of the list leaves it, starts service now and takes the server. Its Death is pushed one draw later. |
| MM1Queue.Controller.Enqueue | MM1Queue.py:67-72 | A fresh request born now joins the end of the list, and one Birth is pushed one draw later. |
| MM1Queue.Controller.HandleBirth | MM1Queue.py:66-82 | Moves the state exactly as BirthStep does. |
| MM1Queue.Controller.Retire | MM1Queue.py:84-88 | The request in service gets its death time and leaves the server. Its times are recorded only after the warm-up. |
| MM1Queue.Controller.HandleDeath | MM1Queue.py:83-96 | Moves the state exactly as DeathStep does. Past the warm-up, the departing request's waiting and queuing times are appended (Record); otherwise the lists are unchanged. The snapshot lists are unchanged either way. |
| MM1Queue.Controller.HandleMonitor | MM1Queue.py:97-106 | The monitor gains the number waiting and the number in system. The state moves as MonitorStep does. |
| MM1Queue.Controller.ExecuteEvent | MM1Queue.py:65-106 | Moves the state as Execute does. The monitor's lists become exactly what Record says this event adds. The samples stay coherent, and the counter of the event's kind grows. |
| MM1Queue.Controller.PopNext | MM1Queue.py:60-62 | Moves the state as Pop does and returns the popped event. |
| MM1Queue.Controller.ExecuteNextEvent | MM1Queue.py:59-63 | Moves the state as Step does, returns Step's event and draw count, and keeps the object invariant. The monitor's lists become what Record says the popped event adds in the state it finds. The clock does not move back if nothing pending was earlier, and the counters grow by the event's kind. |
| MM1Queue.Controller.Seed | MM1Queue.py:42-46 | The controller reaches the seeded state and its invariant holds. |
| MM1Queue.Controller.Advance | MM1Queue.py:59-63 | One loop iteration moves the state exactly as Step does and returns Step's event and draw count. The invariant holds again, and the snapshot and departure counters grow by the event's kind. The monitor's lists become what Record says the popped event adds in the state the pop leaves. |
| MM1Queue.Controller.AdvanceRun | MM1Queue.py:48-63 | One iteration with the clock before simulationTime keeps the loop's state: the invariant and the record of executed events hold, the events so far followed by the run from the new state make up the run from the start, and the monitor's lists followed by what the rest of the run adds are still what the whole run collects. |
| MM1Queue.Controller.NextIteration | MM1Queue.py:48-63 | The loop body: AdvanceRun, with the trace one event longer and one event less remaining. |
| MM1Queue.Controller.RunningStarts | MM1Queue.py:41-48 | After seeding, with nothing executed and the monitor's lists empty, the loop's state holds with the whole run from the current state ahead, collecting what RunRecord says. |
| MM1Queue.Controller.RunningStops | MM1Queue.py:48 | When the loop test fails, because the clock reached simulationTime or the fuel ran out, the run has completed: it executed exactly the trace, ended in the current state, and the monitor holds what it collects. |
| MM1Queue.Controller.RunLoop | MM1Queue.py:48-63 | The controller ends where Run from its starting state ends, the executed events are exactly Run's, and the monitor's four lists are what RunRecord collects over that run. The invariant and the record of executed events hold at the end. ReachedHorizon is returned exactly when the clock reached simulationTime; otherwise fuel events were executed. |
| MM1Queue.Controller.RunSimulation | MM1Queue.py:41-63 | The controller ends where Run from the seeded state ends, with one draw used, and the executed events are exactly Run's. The monitor's four lists are exactly what RunRecord collects over that run. Every event but the last ran with the clock before simulationTime. Their times never decrease and the clock ends at the last one. Snapshots count the Monitor events, and departure records count the Deaths past the warm-up. The run stops exactly when the clock reaches simulationTime, or at the fuel bound; it never raises. |
| MM1Queue.ReportAveragesOrdered | MM1Queue.py:136-140 | In any valid state, the averages printReport prints are ordered: waiting ≤ in system ≤ waiting + 1, and 0 ≤ waiting time ≤ queuing time. |
| MD1KQueue.Monitor.constructor | MD1KQueue.py:134-142 | The monitor starts with every counter at zero and empty lists. |
| MD1KQueue.Monitor.RecordSnapshot | MD1KQueue.py:143-147 | The snapshot is counted first. The call then raises exactly when there is no recentlyDied request; the lists stay unchanged in that case. Otherwise the queuing-time list gains that request's queuing time, and each sample list gains its sample. |
| MD1KQueue.Monitor.IncrementAttemptedRequests | MD1KQueue.py:157-158 | The attempt counter grows by one. Nothing else changes. |
| MD1KQueue.Monitor.IncrementRejectedRequests | MD1KQueue.py:160-161 | The rejection counter grows by one. Nothing else changes. |
| MD1KQueue.Monitor.RecordDeadRequest | MD1KQueue.py:179-182 | The departure count grows by one, and the time lists gain the request's times. |
| MD1KQueue.Monitor.MeanOfRequestsInSystem | MD1KQueue.py:148-149 | Defined exactly when there are snapshots. Never negative. Times the count, it is the sum of samples. |
| MD1KQueue.Monitor.VarianceOfRequestsInSystem | MD1KQueue.py:150-153 | The quantity under sqrt is defined exactly when there are snapshots and is never negative. |
| MD1KQueue.Monitor.RejectionProbability | MD1KQueue.py:163-164 | Defined exactly when there were attempts. Times the attempts, it is the number rejected. |
| MD1KQueue.Monitor.MeanQueuingTime | MD1KQueue.py:172 | Defined exactly when there are snapshots. Times the snapshot count, it is the sum of queuing times. |
| MD1KQueue.Monitor.VarianceOfQueuingTime | MD1KQueue.py:171-174 | Defined exactly when there are snapshots and queuing times. Never negative. |
| MD1KQueue.RejectionProbabilityBounds | MD1KQueue.py:163-164 | With no more rejections than attempts, the rejection probability lies in [0, 1]. |
| MD1KQueue.MeanInSystemWithinCapacity | MD1KQueue.py:148-149 | Snapshots of at most Capacity + 1 in the system give a mean in [0, Capacity + 1]. |
| MD1KQueue.MeanQueuingTimeNonNegative | MD1KQueue.py:171-172 | Non-negative queuing times give a non-negative mean. |
| MD1KQueue.Outcomes | MD1KQueue.py:168 | The 0/1 results line 168 weighs: one per attempt, 0 for each rejected request and 1 for each admitted one. |
| MD1KQueue.Rate | MD1KQueue.py:163-164 | p times the attempts is the number rejected. |
| MD1KQueue.AdmissionRate | MD1KQueue.py:168 | 1 − p times the attempts is the number admitted. |
| MD1KQueue.WrittenResultVariance | MD1KQueue.py:166-168 | The variance as written is defined exactly when there were attempts (otherwise ZeroDivisionError). |
| MD1KQueue.ResultVariance | MD1KQueue.py:166-168 | The corrected variance is defined exactly when there were attempts. |
| MD1KQueue.OutcomesSum | MD1KQueue.py:168 | The outcomes sum to the number of admitted requests. |
| MD1KQueue.OutcomesDeviations | MD1KQueue.py:168 | Summed kind by kind, as line 168 writes it, the squared deviations from any centre equal those of the outcome list. |
| MD1KQueue.RateBounds | MD1KQueue.py:163-164 | p ≥ 0. p ≤ 1 when rejections do not exceed attempts. p = 1/2 exactly when half were rejected. |
| MD1KQueue.RateProductBounds | MD1KQueue.py:168 | p(1 − p) ≤ 1/4, and it is ≥ 0 when rejections do not exceed attempts. It equals 1/4 exactly when half were rejected. |
| MD1KQueue.OutcomesMean | MD1KQueue.py:168 | The outcomes' own mean is 1 − p, not p. |
| MD1KQueue.OutcomesVariance | MD1KQueue.py:168 | The mean squared deviation of the outcomes from their mean is p(1 − p). |
| MD1KQueue.WrittenResultVarianceCentresOnRejection | MD1KQueue.py:167-168 | Line 168 is the mean squared deviation of the outcomes from p, the rejection probability, not from their mean. |
| MD1KQueue.ResultVarianceOfOutcomes | MD1KQueue.py:166-168 | The corrected variance is the population variance of the outcomes (mean 1 − p) and lies in [0, 1/4]. |
| MD1KQueue.WrittenResultVarianceClosedForm | MD1KQueue.py:168 | As written, the variance equals 1 − 3p(1 − p). |
| MD1KQueue.ResultVarianceDiscrepancy | MD1KQueue.py:168 | As written, the variance is 1 − 3 times the corrected one, never below 1/4. The two agree exactly when half of the attempts were rejected. |
| MD1KQueue.AllAdmittedResultVariance | MD1KQueue.py:168 | With two attempts, both admitted, line 168 gives 1 while the variance of the outcomes is 0. |
| MD1KQueue.BirthStep | MD1KQueue.py:68-93 | A Birth keeps the clock and uses exactly one draw. When admitted, it adds exactly one request to the system. |
| MD1KQueue.DeathStep | MD1KQueue.py:94-109 | A Death keeps the clock and removes exactly one request from the system. With nobody waiting, it leaves the server idle and the heap as it was. |
| MD1KQueue.Execute | MD1KQueue.py:67-119 | Dispatch keeps the clock and uses at most one draw. |
| MD1KQueue.BirthRejected | MD1KQueue.py:71-77 | A Birth that finds Capacity waiting leaves the list and the (busy) server unchanged. The heap gains exactly one Birth at time + delay. The bounded invariant holds after it. |
| MD1KQueue.BirthStartsService | MD1KQueue.py:78-93 | A Birth that finds the server idle puts its own request, born now, in service at once and leaves the list empty. The bounded invariant holds after it. |
| MD1KQueue.BirthJoinsQueue | MD1KQueue.py:78-83 | An admitted Birth that finds the server busy appends a request born now at the tail and leaves the server alone. The bounded invariant holds after it. |
| MD1KQueue.BirthKeepsBounded | MD1KQueue.py:68-93 | Every Birth keeps the invariant and at most Capacity waiting. |
| MD1KQueue.DeathKeepsBounded | MD1KQueue.py:94-109 | Every Death keeps the invariant and at most Capacity waiting. |
| MD1KQueue.MonitorKeepsBounded | MD1KQueue.py:110-119 | Every Monitor event keeps the invariant and at most Capacity waiting. |
| MD1KQueue.ExecuteKeepsBounded | MD1KQueue.py:67-119 | Executing any popped event keeps the bounded invariant. |
| MD1KQueue.Record | MD1KQueue.py:110-115 | What an event adds to the monitor's lists: for a Monitor event that does not raise, the numbers waiting and in system (waiting ≤ in system) and recentlyDied's queuing time; nothing otherwise. The waiting-time list never changes, and the others only grow at the end. |
| MD1KQueue.Step | MD1KQueue.py:62-65 | After one loop iteration the clock is at the executed event. Draws are never given back. |
| MD1KQueue.StepKeepsBounded | MD1KQueue.py:50-65 | From a bounded state the heap is non-empty and a step leads to a bounded state, with at most Capacity + 1 in the system and nothing pending earlier than the clock. The clock does not move back when someone is in the system or nothing pending was earlier than it. A popped Death always finds a request in service. |
| MD1KQueue.Tallied | MD1KQueue.py:71-116 | What the popped event adds to the monitor: its lists grow as Record says, and the rejection count grows by one exactly for a Birth past the warm-up that finds Capacity waiting, by nothing otherwise. |
| MD1KQueue.NextDeparture | MD1KQueue.py:94-96 | A Death that finds a request in service makes recentlyDied that request, with queuing time now minus its birth; any other event leaves recentlyDied as it was. |
| MD1KQueue.DeathServesOldest | MD1KQueue.py:104 | When requests wait, a Death hands the server the first one (first come, first served). The rest stay in order, each born no earlier than it. |
| MD1KQueue.TracedExtend | MD1KQueue.py:62-65 | One more executed event keeps the record: times non-decreasing, one snapshot per Monitor event, one attempt per Birth after the warm-up. |
| MD1KQueue.DeathBeforeEveryMonitorExtend | MD1KQueue.py:116 | The "a Death came before every Monitor event" record extends by any event that is not a Monitor, or that follows a Death. |
| MD1KQueue.Run | MD1KQueue.py:50-65 | The event loop on values, carrying recentlyDied's queuing time and what the monitor holds; a Monitor popped with no recentlyDied raises. It executes at most fuel events. It executes none exactly when the clock has reached the horizon, the fuel is spent or the heap is empty, and then it leaves the state, the draw count and the tally alone and does not raise. It raises only if there was no recentlyDied at its start. |
| MD1KQueue.RunNext | MD1KQueue.py:62-65 | A run that goes on pops at least one event and no more than fuel. It raises only if there was no recentlyDied at its start. |
| MD1KQueue.RunStep | MD1KQueue.py:62-65 | A run that executes a step pops at least one event and no more than fuel. It raises only if there was no recentlyDied at its start. |
| MD1KQueue.RunRaises | MD1KQueue.py:111-116 | When the next event is a Monitor and there is no recentlyDied, recordSnapshot raises: the run ends on the popped state, with that event as its only event, no draw used and the tally as it was. |
| MD1KQueue.RunGoesOn | MD1KQueue.py:62-65 | Any other next event is executed: the clock moves to it, and the run is that event followed by the run from the state it leads to, with recentlyDied and the tally as that event leaves them (NextDeparture, Tallied). |
| MD1KQueue.RunEndsAtLastEvent | MD1KQueue.py:62-63 | The run ends with the clock at its last event. |
| MD1KQueue.RunBeforeHorizon | MD1KQueue.py:50-62 | Every event of the run but the last was popped while the clock was still before the horizon, as the loop test demands. |
| MD1KQueue.RunRaisedOnMonitor | MD1KQueue.py:111-116 | A run that raised ended on a Monitor event. |
| MD1KQueue.RunRaisedBeforeDeath | MD1KQueue.py:94-116 | From a bounded state, a run that raised has no Death among its events: every Death finds a request in service and sets recentlyDied. |
| MD1KQueue.BoundedGoesOn | MD1KQueue.py:94-96 | From a bounded state the step leads to a bounded state, and a popped Death sets recentlyDied. |
| MD1KQueue.RunOnlyAppends | MD1KQueue.py:50-116 | Over a run the snapshot and queuing-time lists only grow at the end, the waiting-time list stays as it was, and the rejection count never falls. |
| MD1KQueue.Controller.constructor | MD1KQueue.py:29-41 | A new controller has clock 0, an empty list, an idle server, no recentlyDied, an empty heap and a fresh monitor whose counters are 0. |
| MD1KQueue.Controller.ServeFirst | MD1KQueue.py:88-93 | The first request of the list leaves it, starts service now and takes the server. Its Death is pushed 0.015 later. recentlyDied keeps its death time. |
| MD1KQueue.Controller.Enqueue | MD1KQueue.py:79-83 | A fresh request born now joins the end of the list, and one Birth is pushed one draw later. |
| MD1KQueue.Controller.Reject | MD1KQueue.py:71-77 | With Capacity waiting, the state moves as BirthStep does (only one Birth pushed). The rejection counter grows by one exactly past the warm-up, and the monitor's samples are kept. |
| MD1KQueue.Controller.Admit | MD1KQueue.py:78-93 | With room in the list, the state moves as BirthStep does. |
| MD1KQueue.Controller.CountAttempt | MD1KQueue.py:69-70 | The attempt counter grows by one exactly past the warm-up. The rejection and snapshot counters and all four lists are unchanged. |
| MD1KQueue.Controller.HandleBirth | MD1KQueue.py:68-93 | Moves the state as BirthStep does. Attempts grow by one past the warm-up, and rejections grow by one past the warm-up when the list was full. Rejections never exceed attempts. The four lists are unchanged. |
| MD1KQueue.Controller.Retire | MD1KQueue.py:95-101 | The request in service becomes recentlyDied with its death time set to now, and the server is emptied. |
| MD1KQueue.Controller.HandleDeath | MD1KQueue.py:94-109 | Moves the state exactly as DeathStep does. The request that left is recentlyDied, dead now. |
| MD1KQueue.Controller.HandleMonitor | MD1KQueue.py:110-119 | Raises exactly when there is no recentlyDied; the state is then unchanged, but the snapshot was counted. Otherwise the monitor gains the number waiting, the number in system and recentlyDied's queuing time, and the state moves as MonitorStep does. |
| MD1KQueue.Controller.ExecuteEvent | MD1KQueue.py:67-119 | Raises exactly on a Monitor event with no recentlyDied. Otherwise moves the state as Execute does and keeps the samples coherent. The monitor's lists become exactly what Record says the event adds, given recentlyDied's queuing time, and recentlyDied becomes what NextDeparture says. Snapshot and attempt counters grow by the event's kind; recentlyDied becomes set at the first Death. Rejections grow by one exactly for a Birth past the warm-up that finds Capacity waiting, and never exceed attempts. |
| MD1KQueue.Controller.PopNext | MD1KQueue.py:62-64 | Moves the state as Pop does and returns the popped event. |
| MD1KQueue.Controller.PopAndExecute | MD1KQueue.py:61-65 | Returns the event Pop takes. Unless it raised, the popped state moves as Execute does on that event, and the object invariant holds again. The monitor's lists become what Record says the popped event adds, and recentlyDied what NextDeparture says. The clock does not move back if nothing pending was earlier. Rejections grow by one exactly for a Birth past the warm-up that finds Capacity waiting, and never exceed attempts. |
| MD1KQueue.Controller.ExecuteNextEvent | MD1KQueue.py:61-65 | Returns Step's event. Unless it raised, it moves the state as Step does, returns Step's draw count, and keeps the object invariant. The monitor's lists and rejection count become what Tallied says the popped event adds, and recentlyDied what NextDeparture says. The clock does not move back if nothing pending was earlier, and the counters grow by the event's kind. Rejections never exceed attempts. |
| MD1KQueue.Controller.Seed | MD1KQueue.py:44-48 | The controller reaches the seeded state and its invariant holds. |
| MD1KQueue.Controller.Advance | MD1KQueue.py:61-65 | One loop iteration returns Step's event. Unless it raised, it moves the state as Step does, returns Step's draw count and keeps the invariant. When it raised, the state is the popped one. It raises exactly on a Monitor event before any Death. The monitor's lists and rejection count become what Tallied says the event adds, and recentlyDied what NextDeparture says. It extends the record of executed events, and recentlyDied stays None exactly until the first Death. |
| MD1KQueue.Controller.RunningStarts | MD1KQueue.py:43-50 | After seeding, with nothing executed, no recentlyDied and the monitor's lists and rejection count empty, the loop's state holds with the whole run from the current state still ahead. |
| MD1KQueue.Controller.RunningStops | MD1KQueue.py:50 | When the loop test fails, because the clock reached simulationTime or the fuel ran out, the run has completed without raising: it executed exactly the trace, ended in the current state, and left the monitor's lists and rejection count as they are. |
| MD1KQueue.Controller.AdvanceRun | MD1KQueue.py:50-65 | One iteration with the clock before simulationTime either keeps the loop's state, with the events so far followed by the run from the new state making up the run from the start, ending where it ends and leaving the same tally, or raises; then the run from the start raised on that very event, the controller is where it ended, and the monitor's lists and rejection count are what it left. |
| MD1KQueue.Controller.NextIteration | MD1KQueue.py:50-65 | The loop body: AdvanceRun, with the trace one event longer and one event less remaining. |
| MD1KQueue.Controller.RunLoop | MD1KQueue.py:50-65 | The controller ends where Run from its starting state ends, the executed events are exactly Run's, and the monitor's lists and rejection count are the tally Run leaves. AttributeError is returned exactly when Run raised. Otherwise the invariant holds at the end and the loop stopped at simulationTime or after fuel events. |
| MD1KQueue.Controller.RunSimulation | MD1KQueue.py:43-65 | The controller ends where Run from the seeded state ends, and the executed events are exactly Run's. The monitor's four lists and its rejection count are exactly the tally Run leaves. Every event but the last ran with the clock before simulationTime. Their times never decrease and the clock ends at the last one. Snapshots count the Monitor events, attempts count the Births past the warm-up, and rejections never exceed attempts. The run ends in AttributeError exactly when Run raised, that is on a Monitor event before any Death, which is then the last event. Otherwise the invariant holds at the end, and it stops when the clock reaches simulationTime or at the fuel bound. |
| MD1KQueue.ReportStatisticsInRange | MD1KQueue.py:148-176 | In any valid state: the mean in system lies in [0, 5]; the mean queuing time is ≥ 0 and its variance is defined; the rejection probability lies in [0, 1]; the variance as written is ≥ 1/4, while the corrected one lies in [0, 1/4]. |

## Left out

- NumberGenerator.py is not part of this model. Each `exponentialValue` call is
  replaced by the next entry of `draws`, which is assumed non-negative. The
  rates (`arrivalRate`, `serviceRate`, `arrivalRate/2`) are kept as fields but
  do not shape the draws, so no distributional property is modelled.
- `sqrt` in the standard-deviation getters: the model stops at the variance
  under the square root (floating-point numerics).
- Floating point: times and statistics are exact reals. Rounding and overflow
  are not modelled.
- `printReport`'s output and the module-level script that builds and runs a
  controller. The averages `printReport` computes are modelled as functions.
- The commented-out debug block in the event loop, and the commented-out
  `recordDeadRequest` call in the M/D/1/K Death handler. Neither executes.
  `MD1KQueue.Monitor.RecordDeadRequest` is modelled, but nothing calls it.
- Termination of `runSimulation`: it holds only with probability one. The loop
  takes a `fuel` bound and reports `OutOfFuel` when the bound is used up first.
- After AttributeError, Python unwinds out of `runSimulation`. The model stops
  the loop and returns `AttributeError`; what a caller does next is not
  modelled.
- `averageServiceTime == 0` is not modelled. Both constructors require it to be
  non-zero, so the ZeroDivisionError of `1/averageServiceTime` is not modelled;
  both scripts pass non-zero values.
- A negative `monitorStartingTime` is allowed, and the model follows the code
  when the clock moves back. The invariants and monotonicity lemmas carry the
  condition under which the clock cannot move back, and claim nothing more.
- `serviceRate` in MD1KQueue.py is computed but never used. It is kept as a
  field only.
- The heap's array layout: the heap is modelled by its contents. A pop returns
  an earliest `(time, kind)` pair, and equal pairs are interchangeable.
- The controllers' state as a value (`Abstract()`) keeps only the birth times of
  waiting requests, not their identities. The methods still work on the
  `Request` objects, and the Repr set tracks them.
- MD1KQueue.RunRaisedBeforeDeath: holds from bounded states only. A Death
  that finds the server idle would raise AttributeError in the source
  (`None.setDeathTime`); the model does not raise there and leaves
  recentlyDied as it was (NextDeparture). No such Death is popped from a
  bounded state (StepKeepsBounded), and every run of the simulator starts
  from one.

## Findings

| source | as written | input that shows it | evidently intended | confidence | as-written member | corrected member |
|---|---|---|---|---|---|---|
| MD1KQueue.py:168 | The result variance is `(r·(0 − p)² + (a − r)·(1 − p)²)/a` with `p = r/a`. Rejected outcomes count as 0 and admitted as 1, but the deviations are taken from the rejection probability p, whose complement 1 − p is their mean. The value is 1 − 3p(1 − p), always ≥ 1/4. | attemptedRequests = 2, rejectedRequests = 0: both outcomes are 1, so their variance is 0, but the line gives 1. | The variance of the 0/1 outcomes around their own mean, p(1 − p), in [0, 1/4]. | high; not executed | MD1KQueue.WrittenResultVariance (MD1KQueue.AllAdmittedResultVariance, MD1KQueue.ResultVarianceDiscrepancy) | MD1KQueue.ResultVariance (MD1KQueue.ResultVarianceOfOutcomes) |
