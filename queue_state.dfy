/**
 * The state both simulators share, as a value: the clock, the birth times of
 * the waiting requests in list order, the service slot and the schedule heap.
 * The controller classes are proved to move this value exactly as the step
 * functions of their own modules say; the invariant the event loop relies on
 * is stated here.
 */
module QueueState {
  import opened Optional
  import opened EventSchedule
  import opened Requests

  /** The service slot: empty, or holding a request born at birth whose service started at start. */
  datatype Server = Idle | Busy(birth: real, start: Option<real>)

  datatype State = State(time: real, waiting: seq<real>, server: Server, pending: seq<Event>)

  /**
   * The four lists a monitor appends to: the snapshots of requests waiting
   * and in the system, and the waiting and queuing times of departures.
   */
  datatype Samples = Samples(requestsWaiting: seq<nat>, requestsInSystem: seq<nat>,
                             waitingTimes: seq<real>, queuingTimes: seq<real>)

  /** A new monitor's lists: all four empty. */
  const NoSamples := Samples([], [], [], [])

  /** The slot as the controller's beingServed attribute gives it. */
  ghost function Slot(r: Request?): (slot: Server)
    reads r
    ensures slot.Idle? <==> r == null
  {
    if r == null then Idle else Busy(r.birthTime, r.serviceTime)
  }

  /** Requests in the system: those waiting plus the one being served. */
  function InSystem(s: State): (n: nat)
    ensures |s.waiting| <= n <= |s.waiting| + 1
    ensures n == |s.waiting| <==> s.server.Idle?
  {
    |s.waiting| + (if s.server.Busy? then 1 else 0)
  }

  /** No pending event is earlier than the clock. */
  ghost predicate NoneEarlier(time: real, pending: seq<Event>)
  {
    forall e :: e in pending ==> time <= e.time
  }

  /**
   * The heap holds exactly one Birth, exactly one Monitor, and one Death
   * exactly when the server is busy.
   */
  ghost predicate Scheduled(s: State)
  {
    && KindCount(s.pending, Birth) == 1
    && KindCount(s.pending, Monitor) == 1
    && KindCount(s.pending, Death) == (if s.server.Busy? then 1 else 0)
  }

  /**
   * Waiting requests were born in list order and not after now; the request
   * in service began service after its birth and not after now; while anyone
   * is in the system no pending event is earlier than the clock.
   */
  ghost predicate Timed(s: State)
  {
    && (forall i :: 0 <= i < |s.waiting| ==> s.waiting[i] <= s.time)
    && (forall i, j :: 0 <= i < j < |s.waiting| ==> s.waiting[i] <= s.waiting[j])
    && (s.server.Busy? ==>
          s.server.start.Some? && s.server.birth <= s.server.start.value <= s.time)
    && (InSystem(s) != 0 ==> NoneEarlier(s.time, s.pending))
  }

  /** The invariant between two iterations of the event loop. */
  ghost predicate Good(s: State)
  {
    && (s.server.Idle? ==> s.waiting == [])
    && Scheduled(s)
    && Timed(s)
  }

  /** The server holds a request whose service began after its birth and not after time. */
  ghost predicate Serving(server: Server, time: real)
  {
    server.Busy? && server.start.Some? && server.birth <= server.start.value <= time
  }

  /** The state with the event of this kind at the current time back on the heap. */
  function Unpopped(s: State, kind: Kind): State
  {
    s.(pending := HeapPush(s.pending, Event(s.time, kind)))
  }

  /**
   * The state in which an event of this kind is executed: the event was the
   * earliest on a heap that satisfied the invariant, and the clock is at it.
   */
  ghost predicate Ready(s: State, kind: Kind)
  {
    Good(Unpopped(s, kind)) && NoneEarlier(s.time, s.pending)
  }

  /** One loop iteration's heappop: the earliest event leaves the heap and sets the clock. */
  function Pop(s: State): (r: (State, Event))
    requires s.pending != []
    ensures r.0.time == r.1.time
    ensures r.0.waiting == s.waiting && r.0.server == s.server
  {
    var popped := HeapPop(s.pending);
    (s.(time := popped.0.time, pending := popped.1), popped.0)
  }

  /** The pop loses no event: what is left pending plus the popped event is what was pending. */
  lemma PopContents(s: State)
    requires s.pending != []
    ensures multiset(Pop(s).0.pending) + multiset{Pop(s).1} == multiset(s.pending)
  {
    HeapPopContents(s.pending);
  }

  /**
   * When one pending event is strictly earlier than all the others, the pop
   * takes exactly that one, moves the clock to it and leaves the rest in
   * their order.
   */
  lemma PopStrictlyEarliest(s: State, i: nat)
    requires i < |s.pending|
    requires forall e :: e in s.pending[..i] + s.pending[i + 1..] ==> Before(s.pending[i], e)
    ensures Pop(s) == (s.(time := s.pending[i].time, pending := s.pending[..i] + s.pending[i + 1..]), s.pending[i])
  {
    HeapPopStrictlyEarliest(s.pending, i);
  }

  /** heappop takes one event off a scheduled heap; putting it back restores the counts. */
  lemma PopKeepsScheduled(s: State)
    requires Scheduled(s)
    ensures s.pending != []
    ensures Scheduled(Unpopped(Pop(s).0, Pop(s).1.kind))
  {
    KindCountNonEmpty(s.pending, Birth);
    var t, e := Pop(s).0, Pop(s).1;
    assert Unpopped(t, e.kind).pending == t.pending + [e];
    KindCountPop(s.pending, Birth);
    KindCountPop(s.pending, Death);
    KindCountPop(s.pending, Monitor);
  }

  /**
   * heappop returns an earliest event: nothing left is earlier than the new
   * clock, and the clock does not move back while anyone is in the system or
   * nothing pending was earlier than it.
   */
  lemma PopKeepsTimed(s: State)
    requires Timed(s) && s.pending != []
    ensures Timed(Unpopped(Pop(s).0, Pop(s).1.kind))
    ensures NoneEarlier(Pop(s).0.time, Pop(s).0.pending)
    ensures InSystem(s) != 0 || NoneEarlier(s.time, s.pending) ==> s.time <= Pop(s).1.time
  {
    var t, e := Pop(s).0, Pop(s).1;
    var u := Unpopped(t, e.kind);
    PopContents(s);
    assert u.pending == t.pending + [e];
    assert e in s.pending by {
      assert e in multiset(s.pending);
    }
    assert forall x :: x in u.pending ==> x in s.pending by {
      assert multiset(u.pending) == multiset(s.pending);
    }
    assert forall x :: x in t.pending ==> NotAfter(e, x);
  }

  /**
   * From a good state the heap is never empty, the popped event finds the
   * controller ready for it, and the clock does not move back while anyone is
   * in the system or nothing pending is earlier than it.
   */
  lemma PopIsReady(s: State)
    requires Good(s)
    ensures s.pending != []
    ensures Ready(Pop(s).0, Pop(s).1.kind)
    ensures InSystem(s) != 0 || NoneEarlier(s.time, s.pending) ==> s.time <= Pop(s).1.time
  {
    PopKeepsScheduled(s);
    PopKeepsTimed(s);
  }

  /** A Death is only ever popped while a request is in service. */
  lemma DeathFindsServer(s: State)
    requires Ready(s, Death)
    ensures Serving(s.server, s.time)
  {
    KindCountPush(s.pending, Event(s.time, Death));
    assert Timed(Unpopped(s, Death));
  }

  /** Pushing an event no earlier than the clock keeps the heap no earlier than the clock. */
  lemma PushNoneEarlier(time: real, pending: seq<Event>, e: Event)
    requires NoneEarlier(time, pending) && time <= e.time
    ensures NoneEarlier(time, HeapPush(pending, e))
  {
    HeapPushContents(pending, e);
  }

  /**
   * executeEvent("Monitor") on values, the same in both simulators (when
   * recordSnapshot does not raise): only the next Monitor is pushed, one
   * draw later.
   */
  function MonitorStep(s: State, draws: nat -> real, drawn: nat): (r: (State, nat))
    ensures r.0.time == s.time && r.0.waiting == s.waiting && r.0.server == s.server
    ensures r.1 == drawn + 1
  {
    (s.(pending := HeapPush(s.pending, Event(s.time + draws(drawn), Monitor))), drawn + 1)
  }

  /**
   * The state runSimulation starts its loop from: clock at zero, nobody in the
   * system, a Birth one draw away and a Monitor at monitorStartingTime.
   */
  function Seeded(monitorStartingTime: real, draws: nat -> real): (s: State)
    ensures Good(s) && InSystem(s) == 0 && s.time == 0.0
  {
    var pending := HeapPush(HeapPush([], Event(draws(0), Birth)), Event(monitorStartingTime, Monitor));
    KindCountPush([], Event(draws(0), Birth));
    KindCountPush(HeapPush([], Event(draws(0), Birth)), Event(monitorStartingTime, Monitor));
    State(0.0, [], Idle, pending)
  }
}
