/**
 * MM1Queue.py: a single-server queue with exponential arrivals and exponential
 * service, an unbounded waiting list, and a Death handler that serves the
 * waiting request taken from the END of the list (`pop()`).
 */
module MM1Queue {
  import opened Optional
  import opened EventSchedule
  import opened Statistics
  import opened Requests
  import opened QueueState

  /** Append-only samples taken by the controller. */
  class Monitor {
    var numSnapshots: nat
    var numRequests: nat
    var requestsWaiting: seq<nat>
    var requestsInSystem: seq<nat>
    var waitingTimes: seq<real>
    var queuingTimes: seq<real>

    /** Each counter is the length of the lists it counts. */
    ghost predicate Valid()
      reads this
    {
      && numSnapshots == |requestsWaiting| == |requestsInSystem|
      && numRequests == |waitingTimes| == |queuingTimes|
    }

    /** The four lists as one value. */
    ghost function Recorded(): Samples
      reads this
    {
      Samples(requestsWaiting, requestsInSystem, waitingTimes, queuingTimes)
    }

    /** Each in-system sample is its waiting sample plus 0 or 1 (the server). */
    ghost predicate SnapshotsCoherent()
      reads this
      requires Valid()
    {
      forall i :: 0 <= i < numSnapshots ==>
        requestsWaiting[i] <= requestsInSystem[i] <= requestsWaiting[i] + 1
    }

    /** Each departed request waited a non-negative time, no longer than it stayed. */
    ghost predicate DeparturesCoherent()
      reads this
      requires Valid()
    {
      forall i :: 0 <= i < numRequests ==> 0.0 <= waitingTimes[i] <= queuingTimes[i]
    }

    constructor ()
      ensures Valid()
      ensures numSnapshots == 0 && numRequests == 0
    {
      numSnapshots, numRequests := 0, 0;
      requestsWaiting, requestsInSystem := [], [];
      waitingTimes, queuingTimes := [], [];
    }

    method RecordSnapshot(requestsWaiting: nat, requestsInSystem: nat)
      modifies this
      ensures numSnapshots == old(numSnapshots) + 1
      ensures this.requestsWaiting == old(this.requestsWaiting) + [requestsWaiting]
      ensures this.requestsInSystem == old(this.requestsInSystem) + [requestsInSystem]
      ensures numRequests == old(numRequests)
      ensures waitingTimes == old(waitingTimes) && queuingTimes == old(queuingTimes)
    {
      numSnapshots := numSnapshots + 1;
      this.requestsWaiting := this.requestsWaiting + [requestsWaiting];
      this.requestsInSystem := this.requestsInSystem + [requestsInSystem];
    }

    method RecordDeadRequest(request: Request)
      requires request.serviceTime.Some? && request.deathTime.Some?
      modifies this
      ensures numRequests == old(numRequests) + 1
      ensures waitingTimes == old(waitingTimes) + [request.WaitingTime()]
      ensures queuingTimes == old(queuingTimes) + [request.QueuingTime()]
      ensures numSnapshots == old(numSnapshots)
      ensures requestsWaiting == old(requestsWaiting) && requestsInSystem == old(requestsInSystem)
    {
      numRequests := numRequests + 1;
      waitingTimes := waitingTimes + [request.WaitingTime()];
      queuingTimes := queuingTimes + [request.QueuingTime()];
    }

    /** The "Average Requests Waiting" of printReport; None is its ZeroDivisionError. */
    function AverageRequestsWaiting(): (avg: Option<real>)
      reads this
      ensures avg.Some? <==> numSnapshots != 0
      ensures avg.Some? ==> avg.value >= 0.0
    {
      if numSnapshots == 0 then None
      else
        MeanNonNegative(AsReals(requestsWaiting), numSnapshots);
        Quotient(Sum(AsReals(requestsWaiting)), numSnapshots)
    }

    /** The "Average Requests In System" of printReport. */
    function AverageRequestsInSystem(): (avg: Option<real>)
      reads this
      ensures avg.Some? <==> numSnapshots != 0
      ensures avg.Some? ==> avg.value >= 0.0
    {
      if numSnapshots == 0 then None
      else
        MeanNonNegative(AsReals(requestsInSystem), numSnapshots);
        Quotient(Sum(AsReals(requestsInSystem)), numSnapshots)
    }

    /** The "Average Waiting Time" of printReport. */
    function AverageWaitingTime(): (avg: Option<real>)
      reads this
      ensures avg.Some? <==> numRequests != 0
      ensures avg.Some? ==> avg.value * (numRequests as real) == Sum(waitingTimes)
    {
      Quotient(Sum(waitingTimes), numRequests)
    }

    /** The "Average Queuing Time" of printReport. */
    function AverageQueuingTime(): (avg: Option<real>)
      reads this
      ensures avg.Some? <==> numRequests != 0
      ensures avg.Some? ==> avg.value * (numRequests as real) == Sum(queuingTimes)
    {
      Quotient(Sum(queuingTimes), numRequests)
    }
  }

  /** Coherent snapshots put the in-system average between the waiting average and one more. */
  lemma AverageInSystemBounds(m: Monitor)
    requires m.Valid() && m.SnapshotsCoherent()
    requires m.numSnapshots != 0
    ensures m.AverageRequestsWaiting().value <= m.AverageRequestsInSystem().value
    ensures m.AverageRequestsInSystem().value <= m.AverageRequestsWaiting().value + 1.0
  {
    var w, s := AsReals(m.requestsWaiting), AsReals(m.requestsInSystem);
    SumWithinOne(w, s);
    var n := m.numSnapshots;
    QuotientMonotone(Sum(w), Sum(s), n);
    QuotientMonotone(Sum(s), Sum(w) + n as real, n);
    QuotientShift(Sum(w), n);
  }

  /** Coherent departures put both time averages in order: 0 <= waiting <= queuing. */
  lemma AverageTimesOrdered(m: Monitor)
    requires m.Valid() && m.DeparturesCoherent()
    requires m.numRequests != 0
    ensures 0.0 <= m.AverageWaitingTime().value <= m.AverageQueuingTime().value
  {
    SumNonNegative(m.waitingTimes);
    SumMonotone(m.waitingTimes, m.queuingTimes);
    MeanNonNegative(m.waitingTimes, m.numRequests);
    QuotientMonotone(Sum(m.waitingTimes), Sum(m.queuingTimes), m.numRequests);
  }

  /**
   * executeEvent("Birth") on values: the new request, born now, joins the end
   * of the list and the next Birth is pushed one draw later; when it is then
   * the only request and the server is idle, pop() hands it to the server and
   * its Death is pushed one more draw later. The second result is the number
   * of draws consumed so far.
   */
  function BirthStep(s: State, draws: nat -> real, drawn: nat): (r: (State, nat))
    ensures r.0.time == s.time
    ensures InSystem(r.0) == InSystem(s) + 1
    ensures r.1 == drawn + (if s.waiting == [] && s.server.Idle? then 2 else 1)
  {
    var waiting := s.waiting + [s.time];
    var pending := HeapPush(s.pending, Event(s.time + draws(drawn), Birth));
    if |waiting| == 1 && s.server.Idle? then
      var request := waiting[|waiting| - 1];
      (State(s.time, waiting[..|waiting| - 1], Busy(request, Some(s.time)),
             HeapPush(pending, Event(s.time + draws(drawn + 1), Death))), drawn + 2)
    else
      (s.(waiting := waiting, pending := pending), drawn + 1)
  }

  /**
   * executeEvent("Death") on values: the server is emptied; a non-empty list
   * gives up its LAST request (pop()) to the server, whose Death is pushed one
   * draw later.
   */
  function DeathStep(s: State, draws: nat -> real, drawn: nat): (r: (State, nat))
    ensures r.0.time == s.time
    ensures s.server.Busy? ==> InSystem(r.0) + 1 == InSystem(s)
    ensures r.1 == drawn + (if s.waiting == [] then 0 else 1)
  {
    if |s.waiting| != 0 then
      var request := s.waiting[|s.waiting| - 1];
      (State(s.time, s.waiting[..|s.waiting| - 1], Busy(request, Some(s.time)),
             HeapPush(s.pending, Event(s.time + draws(drawn), Death))), drawn + 1)
    else
      (s.(server := Idle), drawn)
  }

  /** executeEvent: dispatch on the kind of the popped event. */
  function Execute(s: State, kind: Kind, draws: nat -> real, drawn: nat): (r: (State, nat))
    ensures r.0.time == s.time && drawn <= r.1
  {
    match kind
    case Birth => BirthStep(s, draws, drawn)
    case Death => DeathStep(s, draws, drawn)
    case Monitor => MonitorStep(s, draws, drawn)
  }

  /** A Birth that finds the server idle starts serving its own request at once. */
  lemma BirthStartsService(s: State, draws: nat -> real, drawn: nat)
    requires Ready(s, Birth) && s.server.Idle? && NonNegativeDraws(draws)
    ensures Good(BirthStep(s, draws, drawn).0)
    ensures NoneEarlier(s.time, BirthStep(s, draws, drawn).0.pending)
  {
    assert s.waiting == [] by {
      assert Good(Unpopped(s, Birth));
    }
    KindCountPush(s.pending, Event(s.time, Birth));
    var birth := Event(s.time + draws(drawn), Birth);
    var death := Event(s.time + draws(drawn + 1), Death);
    var pending := HeapPush(s.pending, birth);
    KindCountPush(s.pending, birth);
    KindCountPush(pending, death);
    PushNoneEarlier(s.time, s.pending, birth);
    PushNoneEarlier(s.time, pending, death);
    var r := State(s.time, [], Busy(s.time, Some(s.time)), HeapPush(pending, death));
    assert BirthStep(s, draws, drawn).0 == r;
    assert Scheduled(r);
  }

  /** A Birth that finds the server busy adds its request to the end of the list. */
  lemma BirthJoinsQueue(s: State, draws: nat -> real, drawn: nat)
    requires Ready(s, Birth) && s.server.Busy? && NonNegativeDraws(draws)
    ensures Good(BirthStep(s, draws, drawn).0)
    ensures NoneEarlier(s.time, BirthStep(s, draws, drawn).0.pending)
  {
    var u := Unpopped(s, Birth);
    assert Timed(u);
    KindCountPush(s.pending, Event(s.time, Birth));
    var birth := Event(s.time + draws(drawn), Birth);
    var pending := HeapPush(s.pending, birth);
    KindCountPush(s.pending, birth);
    PushNoneEarlier(s.time, s.pending, birth);
    var r := s.(waiting := s.waiting + [s.time], pending := pending);
    assert BirthStep(s, draws, drawn).0 == r;
    assert Scheduled(r);
  }

  /** A Birth keeps the invariant, and nothing it leaves pending is earlier than the clock. */
  lemma BirthKeepsGood(s: State, draws: nat -> real, drawn: nat)
    requires Ready(s, Birth) && NonNegativeDraws(draws)
    ensures Good(BirthStep(s, draws, drawn).0)
    ensures NoneEarlier(s.time, BirthStep(s, draws, drawn).0.pending)
  {
    if s.server.Idle? {
      BirthStartsService(s, draws, drawn);
    } else {
      BirthJoinsQueue(s, draws, drawn);
    }
  }

  /** A Death keeps the invariant, and nothing it leaves pending is earlier than the clock. */
  lemma DeathKeepsGood(s: State, draws: nat -> real, drawn: nat)
    requires Ready(s, Death) && NonNegativeDraws(draws)
    ensures Good(DeathStep(s, draws, drawn).0)
    ensures NoneEarlier(s.time, DeathStep(s, draws, drawn).0.pending)
  {
    var u := Unpopped(s, Death);
    KindCountPush(s.pending, Event(s.time, Death));
    if s.waiting != [] {
      KindCountPush(s.pending, Event(s.time + draws(drawn), Death));
      PushNoneEarlier(s.time, s.pending, Event(s.time + draws(drawn), Death));
      assert Timed(u);
    }
  }

  /** A Monitor event keeps the invariant, and nothing it leaves pending is earlier than the clock. */
  lemma MonitorKeepsGood(s: State, draws: nat -> real, drawn: nat)
    requires Ready(s, Monitor) && NonNegativeDraws(draws)
    ensures Good(MonitorStep(s, draws, drawn).0)
    ensures NoneEarlier(s.time, MonitorStep(s, draws, drawn).0.pending)
  {
    var u := Unpopped(s, Monitor);
    KindCountPush(s.pending, Event(s.time, Monitor));
    KindCountPush(s.pending, Event(s.time + draws(drawn), Monitor));
    PushNoneEarlier(s.time, s.pending, Event(s.time + draws(drawn), Monitor));
    assert Timed(u);
  }

  /** Whatever kind of event was popped, executing it keeps the invariant. */
  lemma ExecuteKeepsGood(s: State, kind: Kind, draws: nat -> real, drawn: nat)
    requires Ready(s, kind) && NonNegativeDraws(draws)
    ensures Good(Execute(s, kind, draws, drawn).0)
    ensures NoneEarlier(s.time, Execute(s, kind, draws, drawn).0.pending)
  {
    match kind
    case Birth => BirthKeepsGood(s, draws, drawn);
    case Death => DeathKeepsGood(s, draws, drawn);
    case Monitor => MonitorKeepsGood(s, draws, drawn);
  }

  /**
   * What executing an event of this kind, in state s, adds to the monitor's
   * lists: a Monitor event the numbers waiting and in the system; a Death
   * after the warm-up the waiting and queuing times of the request that
   * leaves; a Birth nothing. The lists only ever grow at the end.
   */
  function Record(m: Samples, s: State, kind: Kind, monitorStartingTime: real): (r: Samples)
    requires kind == Death ==> Serving(s.server, s.time)
    ensures m.requestsWaiting <= r.requestsWaiting && m.requestsInSystem <= r.requestsInSystem
    ensures m.waitingTimes <= r.waitingTimes && m.queuingTimes <= r.queuingTimes
    ensures |r.requestsWaiting| == |m.requestsWaiting| + (if kind == Monitor then 1 else 0)
    ensures |r.requestsInSystem| == |m.requestsInSystem| + (if kind == Monitor then 1 else 0)
    ensures |r.waitingTimes| == |m.waitingTimes| + (if kind == Death && s.time > monitorStartingTime then 1 else 0)
    ensures |r.queuingTimes| == |r.waitingTimes| - |m.waitingTimes| + |m.queuingTimes|
    ensures kind == Monitor ==> r.requestsWaiting[|m.requestsWaiting|] <= r.requestsInSystem[|m.requestsInSystem|]
    ensures kind == Death && s.time > monitorStartingTime ==>
      0.0 <= r.waitingTimes[|m.waitingTimes|] <= r.queuingTimes[|m.queuingTimes|]
  {
    match kind
    case Birth => m
    case Death =>
      if s.time > monitorStartingTime then
        m.(waitingTimes := m.waitingTimes + [s.server.start.value - s.server.birth],
           queuingTimes := m.queuingTimes + [s.time - s.server.birth])
      else m
    case Monitor =>
      m.(requestsWaiting := m.requestsWaiting + [|s.waiting|],
         requestsInSystem := m.requestsInSystem + [InSystem(s)])
  }

  /**
   * One iteration of runSimulation's loop on values: pop the earliest event,
   * set the clock to it and execute it.
   */
  function Step(s: State, draws: nat -> real, drawn: nat): (r: (State, Event, nat))
    requires s.pending != []
    ensures r.0.time == r.1.time && drawn <= r.2
  {
    var popped := Pop(s);
    var executed := Execute(popped.0, popped.1.kind, draws, drawn);
    (executed.0, popped.1, executed.1)
  }

  /**
   * From a good state a Step is always possible and leads to a good state in
   * which nothing pending is earlier than the clock; the clock does not move
   * back while anyone is in the system.
   */
  lemma StepKeepsGood(s: State, draws: nat -> real, drawn: nat)
    requires Good(s) && NonNegativeDraws(draws)
    ensures s.pending != []
    ensures var r := Step(s, draws, drawn);
      Good(r.0) && NoneEarlier(r.0.time, r.0.pending)
    ensures InSystem(s) != 0 || NoneEarlier(s.time, s.pending) ==> s.time <= Step(s, draws, drawn).1.time
    ensures Step(s, draws, drawn).1.kind == Death ==> Serving(s.server, Step(s, draws, drawn).1.time)
  {
    PopIsReady(s);
    var popped := Pop(s);
    ExecuteKeepsGood(popped.0, popped.1.kind, draws, drawn);
    if popped.1.kind == Death {
      DeathFindsServer(popped.0);
    }
  }

  /**
   * runSimulation's loop on values: from s, with the draws from index drawn
   * on, execute events while the clock is before horizon, at most fuel of
   * them. Gives the final state, the events executed in order and the draws
   * used. (An empty heap also ends it, which never happens from a good
   * state: see StepKeepsGood.)
   */
  function Run(s: State, draws: nat -> real, drawn: nat, fuel: nat, horizon: real): (r: (State, seq<Event>, nat))
    ensures |r.1| <= fuel
    ensures r.1 == [] <==> horizon <= s.time || fuel == 0 || s.pending == []
    ensures r.1 == [] ==> r.0 == s && r.2 == drawn
    decreases fuel
  {
    if horizon <= s.time || fuel == 0 || s.pending == [] then (s, [], drawn)
    else
      var step := Step(s, draws, drawn);
      var rest := Run(step.0, draws, step.2, fuel - 1, horizon);
      (rest.0, [step.1] + rest.1, rest.2)
  }

  /**
   * The run ends at the time of its last event, and every event but the last
   * was executed with the clock still before horizon.
   */
  lemma {:induction false} RunBeforeHorizon(s: State, draws: nat -> real, drawn: nat, fuel: nat, horizon: real)
    ensures var r := Run(s, draws, drawn, fuel, horizon);
      && (r.1 != [] ==> r.0.time == r.1[|r.1| - 1].time)
      && (forall i :: 0 <= i < |r.1| - 1 ==> r.1[i].time < horizon)
    decreases fuel
  {
    if s.time < horizon && fuel != 0 && s.pending != [] {
      var step := Step(s, draws, drawn);
      RunBeforeHorizon(step.0, draws, step.2, fuel - 1, horizon);
      var rest := Run(step.0, draws, step.2, fuel - 1, horizon);
      var r := Run(s, draws, drawn, fuel, horizon);
      assert r.1 == [step.1] + rest.1;
      forall i | 0 <= i < |r.1| - 1
        ensures r.1[i].time < horizon
      {
        if i != 0 {
          assert r.1[i] == rest.1[i - 1];
        }
      }
    }
  }

  /** A run that has not stopped is the Step it starts with followed by the rest of the run. */
  lemma RunUnfolds(s: State, draws: nat -> real, drawn: nat, fuel: nat, horizon: real, t: State, e: Event, drawn': nat)
    requires s.time < horizon && fuel != 0 && s.pending != []
    requires (t, e, drawn') == Step(s, draws, drawn)
    ensures var rest := Run(t, draws, drawn', fuel - 1, horizon);
      Run(s, draws, drawn, fuel, horizon) == (rest.0, [e] + rest.1, rest.2)
  {
  }

  /**
   * What the monitor collects over runSimulation's loop on values: from s,
   * with lists m, each event Run executes adds what Record says, in the state
   * its pop leaves, for as long as Run goes on. The lists only grow at the end.
   */
  function RunRecord(s: State, draws: nat -> real, drawn: nat, fuel: nat, horizon: real,
                     m: Samples, monitorStartingTime: real): (r: Samples)
    requires Good(s) && NonNegativeDraws(draws)
    ensures m.requestsWaiting <= r.requestsWaiting && m.requestsInSystem <= r.requestsInSystem
    ensures m.waitingTimes <= r.waitingTimes && m.queuingTimes <= r.queuingTimes
    decreases fuel
  {
    if horizon <= s.time || fuel == 0 || s.pending == [] then m
    else
      StepKeepsGood(s, draws, drawn);
      var step := Step(s, draws, drawn);
      var popped := Pop(s);
      RunRecord(step.0, draws, step.2, fuel - 1, horizon,
                Record(m, popped.0, popped.1.kind, monitorStartingTime), monitorStartingTime)
  }

  /** While the run goes on, what the monitor collects is what the first event adds followed by the rest. */
  lemma RunRecordUnfolds(s: State, draws: nat -> real, drawn: nat, fuel: nat, horizon: real,
                         m: Samples, monitorStartingTime: real)
    requires Good(s) && NonNegativeDraws(draws)
    requires s.time < horizon && fuel != 0 && s.pending != []
    ensures Good(Step(s, draws, drawn).0)
    ensures Step(s, draws, drawn).1.kind == Death ==> Serving(Pop(s).0.server, Pop(s).0.time)
    ensures RunRecord(s, draws, drawn, fuel, horizon, m, monitorStartingTime)
      == RunRecord(Step(s, draws, drawn).0, draws, Step(s, draws, drawn).2, fuel - 1, horizon,
                   Record(m, Pop(s).0, Pop(s).1.kind, monitorStartingTime), monitorStartingTime)
  {
    StepKeepsGood(s, draws, drawn);
  }

  /**
   * What runSimulation knows about the events it has executed: their times
   * never decrease, the clock is at the last of them and nothing pending is
   * earlier, the monitor took one snapshot per Monitor event and recorded one
   * request per Death after the warm-up.
   */
  ghost predicate Traced(trace: seq<Event>, time: real, pending: seq<Event>,
                         numSnapshots: nat, numRequests: nat, monitorStartingTime: real)
  {
    && ClockNonDecreasing(trace)
    && (trace != [] ==> time == trace[|trace| - 1].time && NoneEarlier(time, pending))
    && numSnapshots == KindCount(trace, Monitor)
    && numRequests == CountAfter(trace, Death, monitorStartingTime)
  }

  /** One more executed event, no earlier than the clock was, extends the record. */
  lemma TracedExtend(trace: seq<Event>, time: real, pending: seq<Event>, numSnapshots: nat, numRequests: nat,
                     monitorStartingTime: real, e: Event, pending': seq<Event>, numSnapshots': nat, numRequests': nat)
    requires Traced(trace, time, pending, numSnapshots, numRequests, monitorStartingTime)
    requires NoneEarlier(time, pending) ==> time <= e.time
    requires NoneEarlier(e.time, pending')
    requires numSnapshots' == numSnapshots + (if e.kind == Monitor then 1 else 0)
    requires numRequests' == numRequests + (if e.kind == Death && e.time > monitorStartingTime then 1 else 0)
    ensures Traced(trace + [e], e.time, pending', numSnapshots', numRequests', monitorStartingTime)
  {
    KindCountAppend(trace, e, Monitor);
    CountAfterAppend(trace, e, Death, monitorStartingTime);
    ClockAppend(trace, e);
  }

  /**
   * Last come, first served: when a Death finds requests waiting, the server
   * takes the most recently born one, and every request left waiting was
   * born no later than it.
   */
  lemma DeathServesNewest(s: State, draws: nat -> real, drawn: nat)
    requires Ready(s, Death) && s.waiting != []
    ensures DeathStep(s, draws, drawn).0.server == Busy(s.waiting[|s.waiting| - 1], Some(s.time))
    ensures DeathStep(s, draws, drawn).0.waiting == s.waiting[..|s.waiting| - 1]
    ensures forall b :: b in DeathStep(s, draws, drawn).0.waiting ==> b <= DeathStep(s, draws, drawn).0.server.birth
  {
    assert Timed(Unpopped(s, Death));
  }

  /**
   * Delays for the run of NotFirstComeFirstServed: births at 0, 0.25 and
   * 0.5, the first service lasting until 1.0, and every later delay 1.5.
   */
  function CounterexampleDraws(i: nat): real
  {
    if i == 0 then 0.0
    else if i == 1 then 0.25
    else if i == 2 then 1.0
    else if i == 3 then 0.25
    else 1.5
  }

  /**
   * The module's own description promises first-come first-served, but in
   * the run that starts from the seeded state (monitor at 3.0) with the
   * delays above, the fourth event is the Death at 1.0: it finds the
   * requests born at 0.25 and 0.5 waiting, hands the server the one born at
   * 0.5, and leaves the earlier-born one waiting.
   */
  lemma {:induction false} NotFirstComeFirstServed()
    ensures var d := CounterexampleDraws;
      && Step(Seeded(3.0, d), d, 1) == (AfterFirstBirth(), Event(0.0, Birth), 3)
      && Step(AfterFirstBirth(), d, 3) == (AfterSecondBirth(), Event(0.25, Birth), 4)
      && Step(AfterSecondBirth(), d, 4) == (AfterThirdBirth(), Event(0.5, Birth), 5)
      && Step(AfterThirdBirth(), d, 5) == (AfterFirstDeath(), Event(1.0, Death), 6)
    ensures AfterThirdBirth().waiting == [0.25, 0.5]
    ensures AfterFirstDeath().server == Busy(0.5, Some(1.0)) && AfterFirstDeath().waiting == [0.25]
  {
    FirstBirthStep();
    SecondBirthStep();
    ThirdBirthStep();
    FirstDeathStep();
  }

  /** The run's steps, each a pop followed by the handler of the popped event. */
  lemma FirstBirthStep()
    ensures Step(Seeded(3.0, CounterexampleDraws), CounterexampleDraws, 1) == (AfterFirstBirth(), Event(0.0, Birth), 3)
  {
    FirstBirthPopped();
    FirstBirthExecuted();
  }

  lemma SecondBirthStep()
    ensures Step(AfterFirstBirth(), CounterexampleDraws, 3) == (AfterSecondBirth(), Event(0.25, Birth), 4)
  {
    SecondBirthPopped();
    SecondBirthExecuted();
  }

  lemma ThirdBirthStep()
    ensures Step(AfterSecondBirth(), CounterexampleDraws, 4) == (AfterThirdBirth(), Event(0.5, Birth), 5)
  {
    ThirdBirthPopped();
    ThirdBirthExecuted();
  }

  lemma FirstDeathStep()
    ensures Step(AfterThirdBirth(), CounterexampleDraws, 5) == (AfterFirstDeath(), Event(1.0, Death), 6)
  {
    FirstDeathPopped();
    FirstDeathExecuted();
  }

  /** The states of that run after each of its first four events. */
  function AfterFirstBirth(): State
  {
    State(0.0, [], Busy(0.0, Some(0.0)), [Event(3.0, Monitor), Event(0.25, Birth), Event(1.0, Death)])
  }

  function AfterSecondBirth(): State
  {
    State(0.25, [0.25], Busy(0.0, Some(0.0)), [Event(3.0, Monitor), Event(1.0, Death), Event(0.5, Birth)])
  }

  function AfterThirdBirth(): State
  {
    State(0.5, [0.25, 0.5], Busy(0.0, Some(0.0)), [Event(3.0, Monitor), Event(1.0, Death), Event(2.0, Birth)])
  }

  function AfterFirstDeath(): State
  {
    State(1.0, [0.25], Busy(0.5, Some(1.0)), [Event(3.0, Monitor), Event(2.0, Birth), Event(2.5, Death)])
  }

  /** The Birth at 0 is popped first. */
  lemma FirstBirthPopped()
    ensures Pop(Seeded(3.0, CounterexampleDraws)) == (State(0.0, [], Idle, [Event(3.0, Monitor)]), Event(0.0, Birth))
  {
    var s := Seeded(3.0, CounterexampleDraws);
    assert s.pending == [Event(0.0, Birth), Event(3.0, Monitor)];
    assert s.pending[..0] + s.pending[1..] == [Event(3.0, Monitor)];
    PopStrictlyEarliest(s, 0);
  }

  /** It finds the system empty and is served at once. */
  lemma FirstBirthExecuted()
    ensures BirthStep(State(0.0, [], Idle, [Event(3.0, Monitor)]), CounterexampleDraws, 1) == (AfterFirstBirth(), 3)
  {
    assert CounterexampleDraws(1) == 0.25 && CounterexampleDraws(2) == 1.0;
    assert [0.0][..0] == [];
    assert HeapPush(HeapPush([Event(3.0, Monitor)], Event(0.25, Birth)), Event(1.0, Death)) == AfterFirstBirth().pending;
  }

  /** The Birth at 0.25 is popped next. */
  lemma SecondBirthPopped()
    ensures Pop(AfterFirstBirth()) == (State(0.25, [], Busy(0.0, Some(0.0)), [Event(3.0, Monitor), Event(1.0, Death)]), Event(0.25, Birth))
  {
    var s := AfterFirstBirth();
    assert s.pending[..1] + s.pending[2..] == [Event(3.0, Monitor), Event(1.0, Death)];
    PopStrictlyEarliest(s, 1);
  }

  /** It finds the server busy and waits. */
  lemma SecondBirthExecuted()
    ensures BirthStep(State(0.25, [], Busy(0.0, Some(0.0)), [Event(3.0, Monitor), Event(1.0, Death)]), CounterexampleDraws, 3)
            == (AfterSecondBirth(), 4)
  {
    assert CounterexampleDraws(3) == 0.25;
    assert [] + [0.25] == [0.25];
    assert HeapPush([Event(3.0, Monitor), Event(1.0, Death)], Event(0.5, Birth)) == AfterSecondBirth().pending;
  }

  /** The Birth at 0.5 is popped next. */
  lemma ThirdBirthPopped()
    ensures Pop(AfterSecondBirth()) == (State(0.5, [0.25], Busy(0.0, Some(0.0)), [Event(3.0, Monitor), Event(1.0, Death)]), Event(0.5, Birth))
  {
    var s := AfterSecondBirth();
    assert s.pending[..2] + s.pending[3..] == [Event(3.0, Monitor), Event(1.0, Death)];
    PopStrictlyEarliest(s, 2);
  }

  /** It waits behind the request born at 0.25. */
  lemma ThirdBirthExecuted()
    ensures BirthStep(State(0.5, [0.25], Busy(0.0, Some(0.0)), [Event(3.0, Monitor), Event(1.0, Death)]), CounterexampleDraws, 4)
            == (AfterThirdBirth(), 5)
  {
    assert CounterexampleDraws(4) == 1.5;
    assert [0.25] + [0.5] == [0.25, 0.5];
    assert HeapPush([Event(3.0, Monitor), Event(1.0, Death)], Event(2.0, Birth)) == AfterThirdBirth().pending;
  }

  /** The Death at 1.0 is popped next. */
  lemma FirstDeathPopped()
    ensures Pop(AfterThirdBirth()) == (State(1.0, [0.25, 0.5], Busy(0.0, Some(0.0)), [Event(3.0, Monitor), Event(2.0, Birth)]), Event(1.0, Death))
  {
    var s := AfterThirdBirth();
    assert s.pending[..1] + s.pending[2..] == [Event(3.0, Monitor), Event(2.0, Birth)];
    PopStrictlyEarliest(s, 1);
  }

  /** It hands the server the request born at 0.5, passing over the one born at 0.25. */
  lemma FirstDeathExecuted()
    ensures DeathStep(State(1.0, [0.25, 0.5], Busy(0.0, Some(0.0)), [Event(3.0, Monitor), Event(2.0, Birth)]), CounterexampleDraws, 5)
            == (AfterFirstDeath(), 6)
  {
    assert CounterexampleDraws(5) == 1.5;
    assert [0.25, 0.5][..1] == [0.25];
    assert HeapPush([Event(3.0, Monitor), Event(2.0, Birth)], Event(2.5, Death)) == AfterFirstDeath().pending;
  }

  /**
   * The simulation: a clock, the waiting list, the single service slot and the
   * schedule heap.
   */
  class Controller {
    const arrivalRate: real
    const serviceRate: real
    const simulationTime: real
    const monitor: Monitor
    var time: real
    var queue: seq<Request>
    var beingServed: Request?
    var schedule: seq<Event>
    var monitorStartingTime: real
    ghost var Repr: set<object>

    /** The controller's state as a value. */
    ghost function Abstract(): State
      reads this, beingServed
    {
      State(time, Births(queue), Slot(beingServed), schedule)
    }

    /** The objects the controller owns. */
    ghost predicate Owned()
      reads this
    {
      && this in Repr && monitor in Repr
      && (forall i :: 0 <= i < |queue| ==> queue[i] in Repr)
      && (beingServed != null ==> beingServed in Repr)
    }

    /** What the monitor holds is what the controller can have sent it. */
    ghost predicate Sampled()
      reads monitor
    {
      monitor.Valid() && monitor.SnapshotsCoherent() && monitor.DeparturesCoherent()
    }

    /** The object invariant between two iterations of the event loop. */
    ghost predicate Valid()
      reads this, beingServed, monitor
    {
      Owned() && Good(Abstract()) && Sampled()
    }

    /** As constructed, before runSimulation. */
    ghost predicate Initial()
      reads this, monitor
    {
      && Repr == {this, monitor}
      && monitor.Valid() && monitor.numSnapshots == 0 && monitor.numRequests == 0
      && time == 0.0 && queue == [] && beingServed == null && schedule == []
    }

    constructor (arrivalRate: real, averageServiceTime: real, simulationTime: real)
      requires averageServiceTime != 0.0
      ensures Initial() && fresh(Repr)
      ensures this.arrivalRate == arrivalRate && serviceRate == 1.0 / averageServiceTime
      ensures this.simulationTime == simulationTime
    {
      this.arrivalRate := arrivalRate;
      serviceRate := 1.0 / averageServiceTime;
      this.simulationTime := simulationTime;
      time := 0.0;
      queue := [];
      beingServed := null;
      var m := new Monitor();
      monitor := m;
      schedule := [];
      monitorStartingTime := 0.0;
      Repr := {this, m};
    }

    /**
     * The service start shared by executeEvent's Birth and Death branches: the
     * LAST request of the list (pop()) gets its service time and the server,
     * and its Death is pushed one draw later.
     */
    method ServeLast(draws: nat -> real, drawn: nat) returns (drawn': nat)
      requires Owned() && queue != [] && beingServed == null
      modifies this, queue[|queue| - 1]
      ensures Owned() && Repr == old(Repr)
      ensures time == old(time) && monitorStartingTime == old(monitorStartingTime)
      ensures queue == old(queue[..|queue| - 1]) && beingServed == old(queue[|queue| - 1])
      ensures Abstract() == State(time, old(Births(queue))[..|old(queue)| - 1],
                                  Busy(old(queue[|queue| - 1].birthTime), Some(time)),
                                  HeapPush(old(schedule), Event(time + draws(drawn), Death)))
      ensures beingServed.deathTime == old(queue[|queue| - 1].deathTime)
      ensures drawn' == drawn + 1
    {
      var request := queue[|queue| - 1];
      queue := queue[..|queue| - 1];
      request.SetServiceTime(time);
      beingServed := request;
      var deathTime := time + draws(drawn);
      schedule := HeapPush(schedule, Event(deathTime, Death));
      drawn' := drawn + 1;
      assert Births(queue) == old(Births(queue))[..|old(queue)| - 1];
    }

    /**
     * The head of executeEvent's Birth branch: a new request born now joins
     * the end of the list, and the next Birth is pushed one draw later.
     */
    method Enqueue(draws: nat -> real, drawn: nat)
      requires Owned()
      modifies this
      ensures Owned() && fresh(Repr - old(Repr))
      ensures |queue| == |old(queue)| + 1 && fresh(queue[|queue| - 1])
      ensures beingServed == old(beingServed)
      ensures Abstract() == old(Abstract()).(waiting := old(Abstract()).waiting + [time],
                                            pending := HeapPush(old(schedule), Event(time + draws(drawn), Birth)))
      ensures monitorStartingTime == old(monitorStartingTime)
    {
      ghost var s := Abstract();
      var newRequest := new Request(time);
      queue := queue + [newRequest];
      Repr := Repr + {newRequest};
      var timeOfNextBirth := time + draws(drawn);
      schedule := HeapPush(schedule, Event(timeOfNextBirth, Birth));
      assert Births(queue) == s.waiting + [time];
    }

    /** executeEvent("Birth"): moves the state exactly as BirthStep does. */
    method HandleBirth(draws: nat -> real, drawn: nat) returns (drawn': nat)
      requires Owned()
      modifies this
      ensures Owned() && fresh(Repr - old(Repr))
      ensures Abstract() == BirthStep(old(Abstract()), draws, drawn).0
      ensures drawn' == BirthStep(old(Abstract()), draws, drawn).1
      ensures monitorStartingTime == old(monitorStartingTime)
    {
      Enqueue(draws, drawn);
      drawn' := drawn + 1;
      if |queue| == 1 && beingServed == null {
        drawn' := ServeLast(draws, drawn');
      }
    }

    /**
     * The head of executeEvent's Death branch: the request in service gets
     * its death time, is recorded past the warm-up, and leaves the server.
     */
    method Retire()
      requires Owned() && Sampled() && Serving(Slot(beingServed), time)
      modifies this, monitor, beingServed
      ensures Owned() && Sampled() && Repr == old(Repr)
      ensures Abstract() == old(Abstract()).(server := Idle)
      ensures queue == old(queue) && beingServed == null
      ensures monitorStartingTime == old(monitorStartingTime)
      ensures old(beingServed).deathTime == Some(time)
      ensures monitor.numSnapshots == old(monitor.numSnapshots)
      ensures monitor.requestsWaiting == old(monitor.requestsWaiting)
      ensures monitor.requestsInSystem == old(monitor.requestsInSystem)
      ensures time > monitorStartingTime ==>
        && monitor.numRequests == old(monitor.numRequests) + 1
        && monitor.waitingTimes == old(monitor.waitingTimes) + [old(beingServed.serviceTime.value) - old(beingServed).birthTime]
        && monitor.queuingTimes == old(monitor.queuingTimes) + [time - old(beingServed).birthTime]
      ensures time <= monitorStartingTime ==>
        && monitor.numRequests == old(monitor.numRequests)
        && monitor.waitingTimes == old(monitor.waitingTimes)
        && monitor.queuingTimes == old(monitor.queuingTimes)
    {
      var recentlyDied := beingServed;
      recentlyDied.SetDeathTime(time);
      if time > monitorStartingTime {
        monitor.RecordDeadRequest(recentlyDied);
      }
      beingServed := null;
    }

    /**
     * executeEvent("Death"): moves the state exactly as DeathStep does, sets
     * the death time of the request that leaves, and past the warm-up records
     * its waiting and queuing times. Python raises AttributeError on a Death
     * with nobody in service, or on recording a request never served.
     */
    method HandleDeath(draws: nat -> real, drawn: nat) returns (drawn': nat)
      requires Owned() && Sampled() && Serving(Slot(beingServed), time)
      modifies this, monitor, beingServed, queue
      ensures Owned() && Sampled() && Repr == old(Repr)
      ensures Abstract() == DeathStep(old(Abstract()), draws, drawn).0
      ensures drawn' == DeathStep(old(Abstract()), draws, drawn).1
      ensures monitorStartingTime == old(monitorStartingTime)
      ensures old(beingServed).deathTime == Some(time)
      ensures monitor.numSnapshots == old(monitor.numSnapshots)
      ensures monitor.numRequests == old(monitor.numRequests) + (if time > monitorStartingTime then 1 else 0)
      ensures monitor.Recorded() == Record(old(monitor.Recorded()), old(Abstract()), Death, monitorStartingTime)
    {
      Retire();
      drawn' := drawn;
      if |queue| != 0 {
        drawn' := ServeLast(draws, drawn);
      }
    }

    /** executeEvent("Monitor"): sends the monitor a snapshot and moves the state as MonitorStep does. */
    method HandleMonitor(draws: nat -> real, drawn: nat) returns (drawn': nat)
      modifies this, monitor
      ensures Abstract() == MonitorStep(old(Abstract()), draws, drawn).0
      ensures drawn' == MonitorStep(old(Abstract()), draws, drawn).1
      ensures Repr == old(Repr) && monitorStartingTime == old(monitorStartingTime)
      ensures queue == old(queue) && beingServed == old(beingServed)
      ensures monitor.numSnapshots == old(monitor.numSnapshots) + 1
      ensures monitor.requestsWaiting == old(monitor.requestsWaiting) + [|queue|]
      ensures monitor.requestsInSystem == old(monitor.requestsInSystem) + [InSystem(Abstract())]
      ensures monitor.numRequests == old(monitor.numRequests)
      ensures monitor.waitingTimes == old(monitor.waitingTimes)
      ensures monitor.queuingTimes == old(monitor.queuingTimes)
    {
      var requestsWaiting := |queue|;
      var requestsInSystem := requestsWaiting;
      if beingServed != null {
        requestsInSystem := requestsInSystem + 1;
      }
      monitor.RecordSnapshot(requestsWaiting, requestsInSystem);
      var nextMonitorTime := time + draws(drawn);
      schedule := HeapPush(schedule, Event(nextMonitorTime, Monitor));
      drawn' := drawn + 1;
    }

    /**
     * executeEvent: dispatch on the kind of the popped event. The monitor's
     * samples stay coherent, and each event adds to the counter of its kind.
     */
    method ExecuteEvent(event: Kind, draws: nat -> real, drawn: nat) returns (drawn': nat)
      requires Owned() && Sampled()
      requires event == Death ==> Serving(Slot(beingServed), time)
      modifies this, monitor, beingServed, queue
      ensures Owned() && fresh(Repr - old(Repr)) && Sampled()
      ensures Abstract() == Execute(old(Abstract()), event, draws, drawn).0
      ensures drawn' == Execute(old(Abstract()), event, draws, drawn).1
      ensures monitorStartingTime == old(monitorStartingTime)
      ensures monitor.numSnapshots == old(monitor.numSnapshots) + (if event == Monitor then 1 else 0)
      ensures monitor.numRequests == old(monitor.numRequests) + (if event == Death && time > monitorStartingTime then 1 else 0)
      ensures monitor.Recorded() == Record(old(monitor.Recorded()), old(Abstract()), event, monitorStartingTime)
    {
      match event
      case Birth =>
        drawn' := HandleBirth(draws, drawn);
      case Death =>
        drawn' := HandleDeath(draws, drawn);
      case Monitor =>
        drawn' := HandleMonitor(draws, drawn);
    }

    /** heappop and the clock update at the head of runSimulation's loop body. */
    method PopNext() returns (event: Event)
      requires schedule != []
      modifies this
      ensures Abstract() == Pop(old(Abstract())).0 && event == Pop(old(Abstract())).1
      ensures Repr == old(Repr) && monitorStartingTime == old(monitorStartingTime)
      ensures queue == old(queue) && beingServed == old(beingServed)
    {
      var pair := HeapPop(schedule);
      schedule := pair.1;
      time := pair.0.time;
      event := pair.0;
    }

    /** One iteration of runSimulation's loop: heappop, set the clock, executeEvent. */
    method ExecuteNextEvent(draws: nat -> real, drawn: nat) returns (event: Event, drawn': nat)
      requires Valid() && NonNegativeDraws(draws)
      modifies this, monitor, beingServed, queue
      ensures Valid() && fresh(Repr - old(Repr))
      ensures Abstract() == Step(old(Abstract()), draws, drawn).0
      ensures event == Step(old(Abstract()), draws, drawn).1
      ensures drawn' == Step(old(Abstract()), draws, drawn).2
      ensures time == event.time && NoneEarlier(time, schedule)
      ensures old(NoneEarlier(time, schedule)) ==> old(time) <= time
      ensures monitorStartingTime == old(monitorStartingTime)
      ensures monitor.numSnapshots == old(monitor.numSnapshots) + (if event.kind == Monitor then 1 else 0)
      ensures monitor.numRequests == old(monitor.numRequests) + (if event.kind == Death && time > monitorStartingTime then 1 else 0)
      ensures event.kind == Death ==> Serving(Pop(old(Abstract())).0.server, time)
      ensures monitor.Recorded() == Record(old(monitor.Recorded()), Pop(old(Abstract())).0, event.kind, monitorStartingTime)
    {
      ghost var s := Abstract();
      StepKeepsGood(s, draws, drawn);
      event := PopNext();
      drawn' := ExecuteEvent(event.kind, draws, drawn);
    }

    /**
     * The head of runSimulation: record monitorStartingTime and push the first
     * Birth, one draw away, and the first Monitor, at monitorStartingTime.
     */
    method Seed(monitorStartingTime: real, draws: nat -> real)
      requires Initial() && NonNegativeDraws(draws)
      modifies this
      ensures Valid() && Repr == old(Repr)
      ensures Abstract() == Seeded(monitorStartingTime, draws)
      ensures this.monitorStartingTime == monitorStartingTime
    {
      this.monitorStartingTime := monitorStartingTime;
      schedule := HeapPush(schedule, Event(draws(0), Birth));
      schedule := HeapPush(schedule, Event(monitorStartingTime, Monitor));
      assert Abstract() == Seeded(monitorStartingTime, draws);
    }

    /** One iteration of the loop in runSimulation: a Step, which keeps the object invariant. */
    method Advance(draws: nat -> real, drawn: nat) returns (event: Event, drawn': nat)
      requires Valid() && NonNegativeDraws(draws)
      modifies this, monitor, beingServed, queue
      ensures Valid() && fresh(Repr - old(Repr))
      ensures monitorStartingTime == old(monitorStartingTime)
      ensures Abstract() == Step(old(Abstract()), draws, drawn).0
      ensures event == Step(old(Abstract()), draws, drawn).1
      ensures drawn' == Step(old(Abstract()), draws, drawn).2
      ensures time == event.time && NoneEarlier(time, schedule)
      ensures old(NoneEarlier(time, schedule)) ==> old(time) <= time
      ensures monitor.numSnapshots == old(monitor.numSnapshots) + (if event.kind == Monitor then 1 else 0)
      ensures monitor.numRequests == old(monitor.numRequests) + (if event.kind == Death && time > monitorStartingTime then 1 else 0)
      ensures event.kind == Death ==> Serving(Pop(old(Abstract())).0.server, time)
      ensures monitor.Recorded() == Record(old(monitor.Recorded()), Pop(old(Abstract())).0, event.kind, monitorStartingTime)
    {
      event, drawn' := ExecuteNextEvent(draws, drawn);
    }

    /**
     * The run of at most fuel events from start, begun with drawn0 draws made,
     * has so far executed trace and goes on as the run of at most remaining
     * events from the current state.
     */
    ghost predicate Tracks(start: State, draws: nat -> real, drawn0: nat, fuel: nat, trace: seq<Event>, drawn: nat, remaining: nat)
      reads this, beingServed
    {
      && Run(start, draws, drawn0, fuel, simulationTime).0 == Run(Abstract(), draws, drawn, remaining, simulationTime).0
      && Run(start, draws, drawn0, fuel, simulationTime).1 == trace + Run(Abstract(), draws, drawn, remaining, simulationTime).1
    }

    /**
     * The state of the loop of runSimulation: the object invariant holds,
     * trace lists the events executed so far, with the remaining events they
     * make up the run from start, and what the monitor holds, with what the
     * remaining events add, is collected (RunningStarts sets it to what the
     * run from start collects).
     */
    ghost predicate Running(start: State, draws: nat -> real, drawn0: nat, fuel: nat, trace: seq<Event>, drawn: nat, remaining: nat,
                            collected: Samples)
      reads this, beingServed, monitor
    {
      && Valid() && NonNegativeDraws(draws)
      && Traced(trace, time, schedule, monitor.numSnapshots, monitor.numRequests, monitorStartingTime)
      && |trace| + remaining == fuel
      && Tracks(start, draws, drawn0, fuel, trace, drawn, remaining)
      && collected == RunRecord(Abstract(), draws, drawn, remaining, simulationTime, monitor.Recorded(), monitorStartingTime)
    }

    /**
     * One iteration of the loop, accounted for in the trace of executed
     * events and against Run: with remaining events left and the clock before
     * simulationTime, the run from here is the executed event followed by the
     * run from the new state.
     */
    method AdvanceRun(draws: nat -> real, drawn: nat, ghost start: State, ghost drawn0: nat, ghost fuel: nat, ghost trace: seq<Event>, ghost remaining: nat,
                      ghost collected: Samples)
      returns (event: Event, drawn': nat)
      requires Running(start, draws, drawn0, fuel, trace, drawn, remaining, collected)
      requires time < simulationTime && remaining != 0
      modifies Repr
      ensures Running(start, draws, drawn0, fuel, trace + [event], drawn', remaining - 1, collected)
      ensures fresh(Repr - old(Repr))
      ensures monitorStartingTime == old(monitorStartingTime)
    {
      ghost var s := Abstract();
      ghost var time0, schedule0 := time, schedule;
      ghost var numSnapshots0, numRequests0 := monitor.numSnapshots, monitor.numRequests;
      StepKeepsGood(s, draws, drawn);
      event, drawn' := Advance(draws, drawn);
      TracedExtend(trace, time0, schedule0, numSnapshots0, numRequests0, monitorStartingTime,
                   event, schedule, monitor.numSnapshots, monitor.numRequests);
      RunUnfolds(s, draws, drawn, remaining, simulationTime, Abstract(), event, drawn');
      ShiftEvent(trace, event, Run(Abstract(), draws, drawn', remaining - 1, simulationTime).1);
      RunRecordUnfolds(s, draws, drawn, remaining, simulationTime, old(monitor.Recorded()), monitorStartingTime);
    }

    /** The loop body of runSimulation, with the trace extended by the executed event and one event less remaining. */
    method NextIteration(draws: nat -> real, drawn: nat, ghost start: State, ghost drawn0: nat, ghost fuel: nat, ghost trace: seq<Event>, ghost remaining: nat,
                         ghost collected: Samples)
      returns (drawn': nat, ghost trace': seq<Event>, ghost remaining': nat)
      requires Running(start, draws, drawn0, fuel, trace, drawn, remaining, collected)
      requires time < simulationTime && remaining != 0
      modifies Repr
      ensures |trace'| == |trace| + 1 && remaining' == remaining - 1
      ensures Running(start, draws, drawn0, fuel, trace', drawn', remaining', collected)
      ensures fresh(Repr - old(Repr))
      ensures monitorStartingTime == old(monitorStartingTime)
    {
      var event;
      event, drawn' := AdvanceRun(draws, drawn, start, drawn0, fuel, trace, remaining, collected);
      trace', remaining' := trace + [event], remaining - 1;
    }

    /**
     * The state in which runSimulation's loop ends: the object invariant
     * holds, trace lists the events executed, and the run from start executed
     * trace and left the controller as it is, and the monitor holds collected.
     */
    ghost predicate Completed(start: State, draws: nat -> real, drawn0: nat, fuel: nat, trace: seq<Event>, collected: Samples)
      reads this, beingServed, monitor
    {
      && Valid() && NonNegativeDraws(draws)
      && Traced(trace, time, schedule, monitor.numSnapshots, monitor.numRequests, monitorStartingTime)
      && Abstract() == Run(start, draws, drawn0, fuel, simulationTime).0
      && trace == Run(start, draws, drawn0, fuel, simulationTime).1
      && monitor.Recorded() == collected
    }

    /**
     * Before the first iteration nothing has been executed, the monitor's
     * lists are empty and the whole run is still ahead.
     */
    lemma RunningStarts(draws: nat -> real, drawn: nat, fuel: nat)
      requires Valid() && NonNegativeDraws(draws)
      requires Traced([], time, schedule, monitor.numSnapshots, monitor.numRequests, monitorStartingTime)
      ensures Running(Abstract(), draws, drawn, fuel, [], drawn, fuel,
                      RunRecord(Abstract(), draws, drawn, fuel, simulationTime, NoSamples, monitorStartingTime))
    {
      assert [] + Run(Abstract(), draws, drawn, fuel, simulationTime).1 == Run(Abstract(), draws, drawn, fuel, simulationTime).1;
      assert monitor.Recorded() == NoSamples;
    }

    /** A loop that stops because the clock reached simulationTime or the fuel ran out has completed the run. */
    lemma RunningStops(start: State, draws: nat -> real, drawn0: nat, fuel: nat, trace: seq<Event>, drawn: nat, remaining: nat,
                       collected: Samples)
      requires Running(start, draws, drawn0, fuel, trace, drawn, remaining, collected)
      requires time >= simulationTime || remaining == 0
      ensures Completed(start, draws, drawn0, fuel, trace, collected)
    {
      assert trace + [] == trace;
    }

    /**
     * The loop of runSimulation, entered with the whole run from start still
     * ahead (RunningStarts): execute events while the clock is before
     * simulationTime, at most fuel of them. The controller ends where Run from
     * start ends, trace lists the events Run executes, and the monitor holds
     * what the run collects.
     */
    method RunLoop(draws: nat -> real, drawn: nat, fuel: nat, ghost start: State, ghost collected: Samples)
      returns (outcome: RunOutcome, ghost trace: seq<Event>)
      requires Running(start, draws, drawn, fuel, [], drawn, fuel, collected)
      modifies Repr
      ensures fresh(Repr - old(Repr))
      ensures monitorStartingTime == old(monitorStartingTime)
      ensures Completed(start, draws, drawn, fuel, trace, collected)
      ensures outcome == ReachedHorizon <==> time >= simulationTime
      ensures outcome == OutOfFuel ==> |trace| == fuel
      ensures outcome != AttributeError
    {
      var drawn' := drawn;
      var steps := 0;
      trace := [];
      ghost var remaining := fuel;

      while time < simulationTime && steps < fuel
        invariant Running(start, draws, drawn, fuel, trace, drawn', remaining, collected)
        invariant fresh(Repr - old(Repr))
        invariant monitorStartingTime == old(monitorStartingTime)
        invariant steps == |trace|
        decreases fuel - steps
      {
        drawn', trace, remaining := NextIteration(draws, drawn', start, drawn, fuel, trace, remaining, collected);
        steps := steps + 1;
      }
      RunningStops(start, draws, drawn, fuel, trace, drawn', remaining, collected);
      outcome := if time >= simulationTime then ReachedHorizon else OutOfFuel;
    }

    /**
     * runSimulation: seed the heap with a Birth one draw away and a Monitor at
     * monitorStartingTime, then execute events until the clock reaches
     * simulationTime; the model stops after at most fuel events. The
     * controller ends where Run from the seeded state ends and trace lists
     * the events it executes: every one but the last ran with the clock
     * before simulationTime, their times never decrease, the clock ends at
     * the last of them, and the monitor holds one snapshot per Monitor event
     * and one record per Death after the warm-up.
     */
    method RunSimulation(monitorStartingTime: real, draws: nat -> real, fuel: nat) returns (outcome: RunOutcome, ghost trace: seq<Event>)
      requires Initial() && NonNegativeDraws(draws)
      modifies this, monitor
      ensures Valid()
      ensures this.monitorStartingTime == monitorStartingTime
      ensures ClockNonDecreasing(trace) && |trace| <= fuel
      ensures trace != [] ==> time == trace[|trace| - 1].time
      ensures monitor.numSnapshots == KindCount(trace, Monitor)
      ensures monitor.numRequests == CountAfter(trace, Death, monitorStartingTime)
      ensures outcome == ReachedHorizon <==> time >= simulationTime
      ensures outcome == OutOfFuel ==> |trace| == fuel
      ensures outcome != AttributeError
      ensures Abstract() == Run(Seeded(monitorStartingTime, draws), draws, 1, fuel, simulationTime).0
      ensures trace == Run(Seeded(monitorStartingTime, draws), draws, 1, fuel, simulationTime).1
      ensures forall i :: 0 <= i < |trace| - 1 ==> trace[i].time < simulationTime
      ensures monitor.Recorded() == RunRecord(Seeded(monitorStartingTime, draws), draws, 1, fuel, simulationTime, NoSamples, monitorStartingTime)
    {
      Seed(monitorStartingTime, draws);
      RunningStarts(draws, 1, fuel);
      outcome, trace := RunLoop(draws, 1, fuel, Seeded(monitorStartingTime, draws),
                                RunRecord(Seeded(monitorStartingTime, draws), draws, 1, fuel, simulationTime, NoSamples, monitorStartingTime));
      RunBeforeHorizon(Seeded(monitorStartingTime, draws), draws, 1, fuel, simulationTime);
    }
  }

  /**
   * At every point of the run the averages printReport would print are in
   * order: average in system within [average waiting, average waiting + 1],
   * and 0 <= average waiting time <= average queuing time.
   */
  lemma ReportAveragesOrdered(c: Controller)
    requires c.Valid()
    ensures c.monitor.numSnapshots != 0 ==>
      c.monitor.AverageRequestsWaiting().value <= c.monitor.AverageRequestsInSystem().value <= c.monitor.AverageRequestsWaiting().value + 1.0
    ensures c.monitor.numRequests != 0 ==>
      0.0 <= c.monitor.AverageWaitingTime().value <= c.monitor.AverageQueuingTime().value
  {
    if c.monitor.numSnapshots != 0 {
      AverageInSystemBounds(c.monitor);
    }
    if c.monitor.numRequests != 0 {
      AverageTimesOrdered(c.monitor);
    }
  }
}
