/**
 * MD1KQueue.py: a single-server queue with exponential arrivals, a constant
 * service time of 0.015, room for at most four waiting requests (a Birth that
 * finds four waiting is rejected), and first-come first-served service
 * (`pop(0)`). Its Monitor samples the queuing time of the most recently
 * departed request at every snapshot.
 */
module MD1KQueue {
  import opened Optional
  import opened EventSchedule
  import opened Statistics
  import opened Requests
  import opened QueueState

  /** The number of waiting requests at which a Birth is rejected. */
  const Capacity: nat := 4

  /** The deterministic service time: every Death is due this long after its service starts. */
  const ServiceTime: real := 0.015

  /** Append-only samples and the admission counters. */
  class Monitor {
    var numSnapshots: nat
    var numRequests: nat
    var attemptedRequests: nat
    var rejectedRequests: nat
    var requestsWaiting: seq<nat>
    var requestsInSystem: seq<nat>
    var waitingTimes: seq<real>
    var queuingTimes: seq<real>

    /**
     * Each counter is the length of the lists it counts; queuingTimes gets
     * one entry per snapshot and one per recorded departure.
     */
    ghost predicate Valid()
      reads this
    {
      && numSnapshots == |requestsWaiting| == |requestsInSystem|
      && numRequests == |waitingTimes|
      && |queuingTimes| == numSnapshots + numRequests
    }

    /** The four lists as one value. */
    ghost function Recorded(): Samples
      reads this
    {
      Samples(requestsWaiting, requestsInSystem, waitingTimes, queuingTimes)
    }

    /**
     * Every snapshot saw at most Capacity requests waiting, and in the system
     * those plus 0 or 1 (the server).
     */
    ghost predicate SnapshotsBounded()
      reads this
      requires Valid()
    {
      forall i :: 0 <= i < numSnapshots ==>
        requestsWaiting[i] <= Capacity && requestsWaiting[i] <= requestsInSystem[i] <= requestsWaiting[i] + 1
    }

    /** Every sampled queuing time is non-negative. */
    ghost predicate QueuingTimesNonNegative()
      reads this
    {
      forall i :: 0 <= i < |queuingTimes| ==> 0.0 <= queuingTimes[i]
    }

    constructor ()
      ensures Valid()
      ensures numSnapshots == 0 && numRequests == 0
      ensures attemptedRequests == 0 && rejectedRequests == 0
    {
      numSnapshots, numRequests := 0, 0;
      attemptedRequests, rejectedRequests := 0, 0;
      requestsWaiting, requestsInSystem := [], [];
      waitingTimes, queuingTimes := [], [];
    }

    /**
     * recordSnapshot: the snapshot is counted first; then the queuing time of
     * recentlyDied is read, which raises AttributeError (raised) when there
     * is no such request or it has no death time, leaving the lists as they
     * were.
     */
    method RecordSnapshot(requestsWaiting: nat, requestsInSystem: nat, recentlyDied: Request?) returns (raised: bool)
      modifies this
      ensures raised <==> recentlyDied == null || recentlyDied.deathTime.None?
      ensures numSnapshots == old(numSnapshots) + 1
      ensures raised ==> && this.requestsWaiting == old(this.requestsWaiting)
                         && this.requestsInSystem == old(this.requestsInSystem)
                         && queuingTimes == old(queuingTimes)
      ensures !raised ==> && this.requestsWaiting == old(this.requestsWaiting) + [requestsWaiting]
                          && this.requestsInSystem == old(this.requestsInSystem) + [requestsInSystem]
                          && queuingTimes == old(queuingTimes) + [recentlyDied.QueuingTime()]
      ensures numRequests == old(numRequests) && waitingTimes == old(waitingTimes)
      ensures attemptedRequests == old(attemptedRequests) && rejectedRequests == old(rejectedRequests)
    {
      numSnapshots := numSnapshots + 1;
      if recentlyDied == null || recentlyDied.deathTime.None? {
        return true;
      }
      raised := false;
      queuingTimes := queuingTimes + [recentlyDied.QueuingTime()];
      this.requestsWaiting := this.requestsWaiting + [requestsWaiting];
      this.requestsInSystem := this.requestsInSystem + [requestsInSystem];
    }

    method IncrementAttemptedRequests()
      modifies this
      ensures old(Valid() && SnapshotsBounded()) ==> Valid() && SnapshotsBounded()
      ensures old(QueuingTimesNonNegative()) ==> QueuingTimesNonNegative()
      ensures attemptedRequests == old(attemptedRequests) + 1
      ensures rejectedRequests == old(rejectedRequests)
      ensures numSnapshots == old(numSnapshots) && numRequests == old(numRequests)
      ensures requestsWaiting == old(requestsWaiting) && requestsInSystem == old(requestsInSystem)
      ensures waitingTimes == old(waitingTimes) && queuingTimes == old(queuingTimes)
    {
      attemptedRequests := attemptedRequests + 1;
    }

    method IncrementRejectedRequests()
      modifies this
      ensures old(Valid() && SnapshotsBounded()) ==> Valid() && SnapshotsBounded()
      ensures old(QueuingTimesNonNegative()) ==> QueuingTimesNonNegative()
      ensures rejectedRequests == old(rejectedRequests) + 1
      ensures attemptedRequests == old(attemptedRequests)
      ensures numSnapshots == old(numSnapshots) && numRequests == old(numRequests)
      ensures requestsWaiting == old(requestsWaiting) && requestsInSystem == old(requestsInSystem)
      ensures waitingTimes == old(waitingTimes) && queuingTimes == old(queuingTimes)
    {
      rejectedRequests := rejectedRequests + 1;
    }

    /** recordDeadRequest: defined, but the controller never calls it. */
    method RecordDeadRequest(request: Request)
      requires request.serviceTime.Some? && request.deathTime.Some?
      modifies this
      ensures numRequests == old(numRequests) + 1
      ensures waitingTimes == old(waitingTimes) + [request.WaitingTime()]
      ensures queuingTimes == old(queuingTimes) + [request.QueuingTime()]
      ensures numSnapshots == old(numSnapshots)
      ensures requestsWaiting == old(requestsWaiting) && requestsInSystem == old(requestsInSystem)
      ensures attemptedRequests == old(attemptedRequests) && rejectedRequests == old(rejectedRequests)
    {
      numRequests := numRequests + 1;
      waitingTimes := waitingTimes + [request.WaitingTime()];
      queuingTimes := queuingTimes + [request.QueuingTime()];
    }

    /** getMeanOfRequestsInSystem; None is its ZeroDivisionError. */
    function MeanOfRequestsInSystem(): (mean: Option<real>)
      reads this
      ensures mean.Some? <==> numSnapshots != 0
      ensures mean.Some? ==> mean.value >= 0.0
      ensures mean.Some? ==> mean.value * (numSnapshots as real) == Sum(AsReals(requestsInSystem))
    {
      if numSnapshots == 0 then None
      else
        MeanNonNegative(AsReals(requestsInSystem), numSnapshots);
        Quotient(Sum(AsReals(requestsInSystem)), numSnapshots)
    }

    /**
     * The variance whose square root getStandardDeviationOfRequestsInSystem
     * returns: never negative, so the square root is always defined.
     */
    function VarianceOfRequestsInSystem(): (variance: Option<real>)
      reads this
      ensures variance.Some? <==> numSnapshots != 0
      ensures variance.Some? ==> variance.value >= 0.0
    {
      match MeanOfRequestsInSystem()
      case None => None
      case Some(mean) =>
        var total := SquaredDeviations(AsReals(requestsInSystem), mean);
        MeanNonNegative([total], numSnapshots);
        Quotient(total, numSnapshots)
    }

    /** getRejectionProbability: rejected over attempted requests. */
    function RejectionProbability(): (p: Option<real>)
      reads this
      ensures p.Some? <==> attemptedRequests != 0
      ensures p.Some? ==> p.value * (attemptedRequests as real) == rejectedRequests as real
    {
      Quotient(rejectedRequests as real, attemptedRequests)
    }

    /**
     * The mean queuing time of getStandardDeviationOfQueuingTime (and of
     * printReport's "Average Queuing Time"): the sum is divided by the
     * number of snapshots.
     */
    function MeanQueuingTime(): (mean: Option<real>)
      reads this
      ensures mean.Some? <==> numSnapshots != 0
      ensures mean.Some? ==> mean.value * (numSnapshots as real) == Sum(queuingTimes)
    {
      Quotient(Sum(queuingTimes), numSnapshots)
    }

    /**
     * The variance whose square root getStandardDeviationOfQueuingTime
     * returns: squared deviations from MeanQueuingTime, divided by the
     * length of queuingTimes. Either division can raise ZeroDivisionError.
     */
    function VarianceOfQueuingTime(): (variance: Option<real>)
      reads this
      ensures variance.Some? <==> numSnapshots != 0 && |queuingTimes| != 0
      ensures variance.Some? ==> variance.value >= 0.0
    {
      match MeanQueuingTime()
      case None => None
      case Some(mean) =>
        var total := SquaredDeviations(queuingTimes, mean);
        if |queuingTimes| == 0 then None
        else
          MeanNonNegative([total], |queuingTimes|);
          Quotient(total, |queuingTimes|)
    }
  }

  /** With no more rejections than attempts the rejection probability lies in [0, 1]. */
  lemma RejectionProbabilityBounds(m: Monitor)
    requires m.rejectedRequests <= m.attemptedRequests && m.attemptedRequests != 0
    ensures 0.0 <= m.RejectionProbability().value <= 1.0
  {
    var a := m.attemptedRequests as real;
    var p := m.RejectionProbability().value;
    assert p == (m.rejectedRequests as real) / a;
    assert p <= a / a;
  }

  /**
   * Snapshots that never count more than the capacity plus the server put
   * the mean number in system within [0, Capacity + 1].
   */
  lemma MeanInSystemWithinCapacity(m: Monitor)
    requires m.Valid() && m.numSnapshots != 0
    requires forall i :: 0 <= i < m.numSnapshots ==> m.requestsInSystem[i] <= Capacity + 1
    ensures 0.0 <= m.MeanOfRequestsInSystem().value <= (Capacity + 1) as real
  {
    MeanAtMost(AsReals(m.requestsInSystem), (Capacity + 1) as real);
  }

  /** Queuing times that are all non-negative have a non-negative mean. */
  lemma MeanQueuingTimeNonNegative(m: Monitor)
    requires m.numSnapshots != 0
    requires forall i :: 0 <= i < |m.queuingTimes| ==> 0.0 <= m.queuingTimes[i]
    ensures m.MeanQueuingTime().value >= 0.0
  {
    MeanNonNegative(m.queuingTimes, m.numSnapshots);
  }

  /**
   * The results of attempted requests as getStandardDeviationOfRequestResult
   * weighs them: 0 for each of the rejected ones, 1 for each admitted one.
   */
  function Outcomes(rejected: nat, attempted: nat): (outcomes: seq<real>)
    requires rejected <= attempted
    ensures |outcomes| == attempted
    ensures forall i :: 0 <= i < attempted ==> outcomes[i] == if i < rejected then 0.0 else 1.0
  {
    Repeat(0.0, rejected) + Repeat(1.0, attempted - rejected)
  }

  /** rejected / attempted: the rejection probability p, the mean that line 168 uses. */
  function Rate(rejected: nat, attempted: nat): (p: real)
    requires attempted != 0
    ensures p * (attempted as real) == rejected as real
  {
    rejected as real / attempted as real
  }

  /** 1 - p: the fraction of attempts admitted. */
  function AdmissionRate(rejected: nat, attempted: nat): (q: real)
    requires attempted != 0
    ensures q * (attempted as real) == attempted as real - rejected as real
  {
    1.0 - Rate(rejected, attempted)
  }

  /**
   * rejected * (0 - c)**2 + (attempted - rejected) * (1 - c)**2: the squared
   * deviations of the outcomes from a centre c, summed kind by kind as line
   * 168 writes them.
   */
  function OutcomeSpread(rejected: nat, attempted: nat, c: real): real
  {
    rejected as real * Square(0.0 - c) + (attempted as real - rejected as real) * Square(1.0 - c)
  }

  /** The same squared deviations with each kind weighted by its share p or 1 - p of the attempts. */
  function WeightedSpread(p: real, c: real): real
  {
    p * Square(0.0 - c) + (1.0 - p) * Square(1.0 - c)
  }

  /**
   * The variance of getStandardDeviationOfRequestResult as written: squared
   * deviations of the outcomes from the rejection probability p, averaged
   * over the attempts. None is the ZeroDivisionError of no attempts.
   */
  function WrittenResultVariance(rejected: nat, attempted: nat): (variance: Option<real>)
    ensures variance.Some? <==> attempted != 0
  {
    if attempted == 0 then None
    else Quotient(OutcomeSpread(rejected, attempted, Rate(rejected, attempted)), attempted)
  }

  /**
   * The variance of the outcomes, corrected: their own mean is the admission
   * probability 1 - p, and their variance is p * (1 - p).
   */
  function ResultVariance(rejected: nat, attempted: nat): (variance: Option<real>)
    ensures variance.Some? <==> attempted != 0
  {
    if attempted == 0 then None
    else Some(Rate(rejected, attempted) * AdmissionRate(rejected, attempted))
  }

  /** The outcomes sum to the number of admitted requests. */
  lemma OutcomesSum(rejected: nat, attempted: nat)
    requires rejected <= attempted
    ensures Sum(Outcomes(rejected, attempted)) == (attempted as real - rejected as real)
  {
    SumAppend(Repeat(0.0, rejected), Repeat(1.0, attempted - rejected));
    SumRepeat(0.0, rejected);
    SumRepeat(1.0, attempted - rejected);
  }

  /** The squared deviations of the outcomes split into the rejected and the admitted ones. */
  lemma SplitDeviations(rejected: nat, attempted: nat, c: real)
    requires rejected <= attempted
    ensures SquaredDeviations(Outcomes(rejected, attempted), c)
         == SquaredDeviations(Repeat(0.0, rejected), c) + SquaredDeviations(Repeat(1.0, attempted - rejected), c)
  {
    SquaredDeviationsAppend(Repeat(0.0, rejected), Repeat(1.0, attempted - rejected), c);
  }

  /** The squared deviations of the rejected outcomes (all 0) from a centre c. */
  lemma RejectedDeviations(rejected: nat, attempted: nat, c: real)
    requires rejected <= attempted
    ensures SquaredDeviations(Repeat(0.0, rejected), c) == rejected as real * Square(0.0 - c)
  {
    SquaredDeviationsRepeat(0.0, rejected, c);
  }

  /** The squared deviations of the admitted outcomes (all 1) from a centre c. */
  lemma AdmittedDeviations(rejected: nat, attempted: nat, c: real)
    requires rejected <= attempted
    ensures SquaredDeviations(Repeat(1.0, attempted - rejected), c)
         == (attempted as real - rejected as real) * Square(1.0 - c)
  {
    SquaredDeviationsRepeat(1.0, attempted - rejected, c);
    SameFactor((attempted - rejected) as real, attempted as real - rejected as real, Square(1.0 - c));
  }

  /** Summed kind by kind, the squared deviations of the outcomes from any centre c are the list's own. */
  lemma OutcomesDeviations(rejected: nat, attempted: nat, c: real)
    requires rejected <= attempted
    ensures SquaredDeviations(Outcomes(rejected, attempted), c) == OutcomeSpread(rejected, attempted, c)
  {
    SplitDeviations(rejected, attempted, c);
    RejectedDeviations(rejected, attempted, c);
    AdmittedDeviations(rejected, attempted, c);
  }

  /** Equal factors give equal products. */
  lemma SameFactor(x: real, y: real, z: real)
    requires x == y
    ensures x * z == y * z
  {
  }

  /** Dividing a product by a divides its first factor. */
  lemma DivideFirstFactor(x: real, y: real, a: real)
    requires a != 0.0
    ensures (x * y) / a == (x / a) * y
  {
    var q := x / a;
    assert x == q * a;
    assert x * y == (q * y) * a;
  }

  /** The fraction of attempts not rejected. */
  lemma Complement(rejected: nat, attempted: nat)
    requires attempted != 0
    ensures (attempted as real - rejected as real) / attempted as real == 1.0 - Rate(rejected, attempted)
  {
    var r, a := rejected as real, attempted as real;
    assert (a - r) / a == a / a - r / a;
  }

  /** Averaged over the attempts, the kind-by-kind sum weighs each kind by its share. */
  lemma SpreadMean(rejected: nat, attempted: nat, c: real)
    requires attempted != 0
    ensures Quotient(OutcomeSpread(rejected, attempted, c), attempted).value == WeightedSpread(Rate(rejected, attempted), c)
  {
    var r, a := rejected as real, attempted as real;
    var x, y := Square(0.0 - c), Square(1.0 - c);
    assert (r * x + (a - r) * y) / a == (r * x) / a + ((a - r) * y) / a;
    DivideFirstFactor(r, x, a);
    DivideFirstFactor(a - r, y, a);
    Complement(rejected, attempted);
  }

  /** Facts about a fraction r / a of a positive whole. */
  lemma FractionFacts(r: real, a: real)
    requires a > 0.0
    ensures 0.0 <= r ==> 0.0 <= r / a
    ensures r <= a ==> r / a <= 1.0
    ensures r / a == 0.5 <==> 2.0 * r == a
  {
    assert r / a * a == r;
    if r / a > 1.0 {
      assert (r / a - 1.0) * a > 0.0;
    }
    if r / a < 0.0 {
      assert (0.0 - r / a) * a > 0.0;
    }
  }

  /** The rejection rate lies in [0, 1] when no more were rejected than attempted, and is 1/2 exactly when half were rejected. */
  lemma RateBounds(rejected: nat, attempted: nat)
    requires attempted != 0
    ensures 0.0 <= Rate(rejected, attempted)
    ensures rejected <= attempted ==> Rate(rejected, attempted) <= 1.0
    ensures Rate(rejected, attempted) == 0.5 <==> 2 * rejected == attempted
  {
    FractionFacts(rejected as real, attempted as real);
  }

  /** A product of two non-negative numbers is not negative. */
  lemma NonNegativeProduct(x: real, y: real)
    requires 0.0 <= x && 0.0 <= y
    ensures 0.0 <= x * y
  {
  }

  /** p (1 - p) never exceeds 1/4. */
  lemma QuarterBound(p: real)
    ensures p * (1.0 - p) <= 0.25
  {
  }

  /** If p (1 - p) is 1/4 and p is the fraction r / a, then 4 r (a - r) = a^2. */
  lemma QuarterOfWhole(p: real, r: real, a: real)
    ensures p * a == r && p * (1.0 - p) == 0.25 ==> 4.0 * r * (a - r) == a * a
  {
  }

  /** The same equation, read on whole numbers. */
  lemma WholeQuarter(r: int, a: int)
    ensures 4.0 * (r as real) * (a as real - r as real) == (a as real) * (a as real) ==> 4 * r * (a - r) == a * a
  {
  }

  /** 4 r (a - r) = a^2 holds on whole numbers only when a = 2 r. */
  lemma EvenSplit(r: int, a: int)
    ensures 4 * r * (a - r) == a * a ==> a == 2 * r
  {
  }

  /**
   * The product of the rejection and admission rates lies in [0, 1/4] when no
   * more were rejected than attempted, and is 1/4 only when exactly half were
   * rejected.
   */
  lemma RateProductBounds(rejected: nat, attempted: nat)
    requires attempted != 0
    ensures Rate(rejected, attempted) * AdmissionRate(rejected, attempted) <= 0.25
    ensures rejected <= attempted ==> 0.0 <= Rate(rejected, attempted) * AdmissionRate(rejected, attempted)
    ensures Rate(rejected, attempted) * AdmissionRate(rejected, attempted) == 0.25 <==> attempted == 2 * rejected
  {
    QuarterBound(Rate(rejected, attempted));
    RateBounds(rejected, attempted);
    if rejected <= attempted {
      NonNegativeProduct(Rate(rejected, attempted), AdmissionRate(rejected, attempted));
    }
    QuarterOfWhole(Rate(rejected, attempted), rejected as real, attempted as real);
    WholeQuarter(rejected, attempted);
    EvenSplit(rejected, attempted);
  }

  /** Weights p and 1 - p on squared deviations from 1 - p at 0 and 1 give p (1 - p). */
  lemma CentredAlgebra(rejected: nat, attempted: nat)
    requires attempted != 0
    ensures WeightedSpread(Rate(rejected, attempted), AdmissionRate(rejected, attempted))
         == Rate(rejected, attempted) * AdmissionRate(rejected, attempted)
  {
  }

  /** Weights p and 1 - p on squared deviations from p at 0 and 1 give 1 - 3 p (1 - p). */
  lemma MisplacedAlgebra(rejected: nat, attempted: nat)
    requires attempted != 0
    ensures WeightedSpread(Rate(rejected, attempted), Rate(rejected, attempted))
         == 1.0 - 3.0 * (Rate(rejected, attempted) * AdmissionRate(rejected, attempted))
  {
  }

  /** The outcomes' own mean is the admission probability 1 - p. */
  lemma OutcomesMean(rejected: nat, attempted: nat)
    requires rejected <= attempted && attempted != 0
    ensures Quotient(Sum(Outcomes(rejected, attempted)), attempted) == Some(AdmissionRate(rejected, attempted))
  {
    OutcomesSum(rejected, attempted);
    Complement(rejected, attempted);
  }

  /** The mean squared deviation of the outcomes from 1 - p is p (1 - p). */
  lemma OutcomesVariance(rejected: nat, attempted: nat)
    requires rejected <= attempted && attempted != 0
    ensures Quotient(SquaredDeviations(Outcomes(rejected, attempted), AdmissionRate(rejected, attempted)), attempted)
         == Some(Rate(rejected, attempted) * AdmissionRate(rejected, attempted))
  {
    OutcomesDeviations(rejected, attempted, AdmissionRate(rejected, attempted));
    SpreadMean(rejected, attempted, AdmissionRate(rejected, attempted));
    CentredAlgebra(rejected, attempted);
  }

  /**
   * Line 168 as written takes the squared deviations of the outcomes from the
   * rejection probability p, not from the outcomes' own mean.
   */
  lemma WrittenResultVarianceCentresOnRejection(rejected: nat, attempted: nat)
    requires rejected <= attempted && attempted != 0
    ensures WrittenResultVariance(rejected, attempted)
         == Quotient(SquaredDeviations(Outcomes(rejected, attempted), Rate(rejected, attempted)), attempted)
  {
    OutcomesDeviations(rejected, attempted, Rate(rejected, attempted));
  }

  /**
   * The corrected variance is the population variance of the outcomes: their
   * mean is the admission probability 1 - p, and the mean squared deviation
   * from it is p (1 - p), between 0 and 1/4.
   */
  lemma ResultVarianceOfOutcomes(rejected: nat, attempted: nat)
    requires rejected <= attempted && attempted != 0
    ensures Quotient(Sum(Outcomes(rejected, attempted)), attempted) == Some(AdmissionRate(rejected, attempted))
    ensures ResultVariance(rejected, attempted)
         == Quotient(SquaredDeviations(Outcomes(rejected, attempted), AdmissionRate(rejected, attempted)), attempted)
    ensures 0.0 <= ResultVariance(rejected, attempted).value <= 0.25
  {
    OutcomesMean(rejected, attempted);
    OutcomesVariance(rejected, attempted);
    RateProductBounds(rejected, attempted);
  }

  /** Line 168 as written is p^3 + (1 - p)^3 = 1 - 3 p (1 - p). */
  lemma WrittenResultVarianceClosedForm(rejected: nat, attempted: nat)
    requires attempted != 0
    ensures WrittenResultVariance(rejected, attempted).value
         == 1.0 - 3.0 * (Rate(rejected, attempted) * AdmissionRate(rejected, attempted))
  {
    SpreadMean(rejected, attempted, Rate(rejected, attempted));
    MisplacedAlgebra(rejected, attempted);
  }

  /**
   * As written, the variance is 1 - 3 p (1 - p), never below 1/4, and it
   * agrees with the corrected one only when exactly half of the attempts
   * were rejected.
   */
  lemma ResultVarianceDiscrepancy(rejected: nat, attempted: nat)
    requires attempted != 0
    ensures WrittenResultVariance(rejected, attempted).value == 1.0 - 3.0 * ResultVariance(rejected, attempted).value
    ensures WrittenResultVariance(rejected, attempted).value >= 0.25
    ensures WrittenResultVariance(rejected, attempted) == ResultVariance(rejected, attempted) <==> 2 * rejected == attempted
  {
    WrittenResultVarianceClosedForm(rejected, attempted);
    RateProductBounds(rejected, attempted);
  }

  /**
   * The input that shows it: two attempts, both admitted. Every outcome is 1,
   * so their variance is 0, but line 168 gives 1.
   */
  lemma AllAdmittedResultVariance()
    ensures Outcomes(0, 2) == [1.0, 1.0]
    ensures WrittenResultVariance(0, 2) == Some(1.0)
    ensures ResultVariance(0, 2) == Some(0.0)
  {
  }

  /**
   * executeEvent("Birth") on values. A Birth that finds Capacity requests
   * waiting is rejected: only the next Birth is pushed, one draw later.
   * Otherwise the new request, born now, joins the end of the list, the next
   * Birth is pushed one draw later, and when it is then the only request and
   * the server is idle, pop(0) hands it to the server and its Death is pushed
   * ServiceTime later. The second result is the number of draws consumed so far.
   */
  function BirthStep(s: State, draws: nat -> real, drawn: nat): (r: (State, nat))
    ensures r.0.time == s.time && r.1 == drawn + 1
    ensures |s.waiting| != Capacity ==> InSystem(r.0) == InSystem(s) + 1
  {
    var pending := HeapPush(s.pending, Event(s.time + draws(drawn), Birth));
    if |s.waiting| == Capacity then
      (s.(pending := pending), drawn + 1)
    else
      var waiting := s.waiting + [s.time];
      if |waiting| == 1 && s.server.Idle? then
        (State(s.time, waiting[1..], Busy(waiting[0], Some(s.time)),
               HeapPush(pending, Event(s.time + ServiceTime, Death))), drawn + 1)
      else
        (s.(waiting := waiting, pending := pending), drawn + 1)
  }

  /**
   * executeEvent("Death") on values: the server is emptied; a non-empty list
   * gives up its FIRST request (pop(0)) to the server, whose Death is pushed
   * ServiceTime later. No draw is consumed.
   */
  function DeathStep(s: State): (r: State)
    ensures r.time == s.time
    ensures s.server.Busy? ==> InSystem(r) + 1 == InSystem(s)
    ensures s.waiting == [] ==> r.server.Idle? && r.pending == s.pending
  {
    if |s.waiting| != 0 then
      State(s.time, s.waiting[1..], Busy(s.waiting[0], Some(s.time)),
            HeapPush(s.pending, Event(s.time + ServiceTime, Death)))
    else
      s.(server := Idle)
  }

  /** executeEvent: dispatch on the kind of the popped event. */
  function Execute(s: State, kind: Kind, draws: nat -> real, drawn: nat): (r: (State, nat))
    ensures r.0.time == s.time && drawn <= r.1 <= drawn + 1
  {
    match kind
    case Birth => BirthStep(s, draws, drawn)
    case Death => (DeathStep(s), drawn)
    case Monitor => MonitorStep(s, draws, drawn)
  }

  /** The invariant of the bounded queue: Good, and never more than Capacity waiting. */
  ghost predicate Bounded(s: State)
  {
    Good(s) && |s.waiting| <= Capacity
  }

  /**
   * A rejected Birth changes nothing but the heap, which gains exactly the
   * next Birth; it keeps the invariant, with the list full and the server busy.
   */
  lemma BirthRejected(s: State, draws: nat -> real, drawn: nat)
    requires Ready(s, Birth) && |s.waiting| == Capacity && NonNegativeDraws(draws)
    ensures var r := BirthStep(s, draws, drawn).0;
      && r.waiting == s.waiting && r.server == s.server && r.server.Busy?
      && multiset(r.pending) == multiset(s.pending) + multiset{Event(s.time + draws(drawn), Birth)}
    ensures Bounded(BirthStep(s, draws, drawn).0)
    ensures NoneEarlier(s.time, BirthStep(s, draws, drawn).0.pending)
  {
    var u := Unpopped(s, Birth);
    assert Timed(u);
    KindCountPush(s.pending, Event(s.time, Birth));
    var birth := Event(s.time + draws(drawn), Birth);
    KindCountPush(s.pending, birth);
    PushNoneEarlier(s.time, s.pending, birth);
    var r := s.(pending := HeapPush(s.pending, birth));
    assert BirthStep(s, draws, drawn).0 == r;
    assert Scheduled(r);
  }

  /** With nobody in the system, a Birth's request goes straight to the server. */
  lemma BirthToIdle(s: State, draws: nat -> real, drawn: nat)
    requires s.waiting == [] && s.server.Idle?
    ensures BirthStep(s, draws, drawn).0 ==
      State(s.time, [], Busy(s.time, Some(s.time)),
            HeapPush(HeapPush(s.pending, Event(s.time + draws(drawn), Birth)), Event(s.time + ServiceTime, Death)))
  {
    assert (s.waiting + [s.time])[1..] == [];
  }

  /** An admitted Birth that finds the server idle starts serving its own request at once. */
  lemma BirthStartsService(s: State, draws: nat -> real, drawn: nat)
    requires Ready(s, Birth) && s.server.Idle? && NonNegativeDraws(draws)
    ensures BirthStep(s, draws, drawn).0.waiting == []
    ensures BirthStep(s, draws, drawn).0.server == Busy(s.time, Some(s.time))
    ensures Bounded(BirthStep(s, draws, drawn).0)
    ensures NoneEarlier(s.time, BirthStep(s, draws, drawn).0.pending)
  {
    assert s.waiting == [] by {
      assert Good(Unpopped(s, Birth));
    }
    KindCountPush(s.pending, Event(s.time, Birth));
    var birth := Event(s.time + draws(drawn), Birth);
    var death := Event(s.time + ServiceTime, Death);
    var pending := HeapPush(s.pending, birth);
    KindCountPush(s.pending, birth);
    KindCountPush(pending, death);
    PushNoneEarlier(s.time, s.pending, birth);
    PushNoneEarlier(s.time, pending, death);
    var r := State(s.time, [], Busy(s.time, Some(s.time)), HeapPush(pending, death));
    BirthToIdle(s, draws, drawn);
    assert Scheduled(r);
  }

  /** An admitted Birth that finds the server busy adds its request to the end of the list. */
  lemma BirthJoinsQueue(s: State, draws: nat -> real, drawn: nat)
    requires Ready(s, Birth) && s.server.Busy? && |s.waiting| < Capacity && NonNegativeDraws(draws)
    ensures BirthStep(s, draws, drawn).0.waiting == s.waiting + [s.time]
    ensures BirthStep(s, draws, drawn).0.server == s.server
    ensures Bounded(BirthStep(s, draws, drawn).0)
    ensures NoneEarlier(s.time, BirthStep(s, draws, drawn).0.pending)
  {
    var u := Unpopped(s, Birth);
    assert Timed(u);
    KindCountPush(s.pending, Event(s.time, Birth));
    var birth := Event(s.time + draws(drawn), Birth);
    var pending := HeapPush(s.pending, birth);
    KindCountPush(s.pending, birth);
    PushNoneEarlier(s.time, s.pending, birth);
    var r := s.(waiting := s.waiting + [s.time], pending := pending);
    assert BirthStep(s, draws, drawn).0 == r;
    assert Scheduled(r);
  }

  /** A Birth keeps the bounded invariant, and nothing it leaves pending is earlier than the clock. */
  lemma BirthKeepsBounded(s: State, draws: nat -> real, drawn: nat)
    requires Ready(s, Birth) && |s.waiting| <= Capacity && NonNegativeDraws(draws)
    ensures Bounded(BirthStep(s, draws, drawn).0)
    ensures NoneEarlier(s.time, BirthStep(s, draws, drawn).0.pending)
  {
    if |s.waiting| == Capacity {
      BirthRejected(s, draws, drawn);
    } else if s.server.Idle? {
      BirthStartsService(s, draws, drawn);
    } else {
      BirthJoinsQueue(s, draws, drawn);
    }
  }

  /** A Death keeps the bounded invariant, and nothing it leaves pending is earlier than the clock. */
  lemma DeathKeepsBounded(s: State)
    requires Ready(s, Death) && |s.waiting| <= Capacity
    ensures Bounded(DeathStep(s))
    ensures NoneEarlier(s.time, DeathStep(s).pending)
  {
    var u := Unpopped(s, Death);
    KindCountPush(s.pending, Event(s.time, Death));
    if s.waiting != [] {
      KindCountPush(s.pending, Event(s.time + ServiceTime, Death));
      PushNoneEarlier(s.time, s.pending, Event(s.time + ServiceTime, Death));
      assert Timed(u);
    }
  }

  /** A Monitor event keeps the bounded invariant, and nothing it leaves pending is earlier than the clock. */
  lemma MonitorKeepsBounded(s: State, draws: nat -> real, drawn: nat)
    requires Ready(s, Monitor) && |s.waiting| <= Capacity && NonNegativeDraws(draws)
    ensures Bounded(MonitorStep(s, draws, drawn).0)
    ensures NoneEarlier(s.time, MonitorStep(s, draws, drawn).0.pending)
  {
    var u := Unpopped(s, Monitor);
    KindCountPush(s.pending, Event(s.time, Monitor));
    KindCountPush(s.pending, Event(s.time + draws(drawn), Monitor));
    PushNoneEarlier(s.time, s.pending, Event(s.time + draws(drawn), Monitor));
    assert Timed(u);
  }

  /** Whatever kind of event was popped, executing it keeps the bounded invariant. */
  lemma ExecuteKeepsBounded(s: State, kind: Kind, draws: nat -> real, drawn: nat)
    requires Ready(s, kind) && |s.waiting| <= Capacity && NonNegativeDraws(draws)
    ensures Bounded(Execute(s, kind, draws, drawn).0)
    ensures NoneEarlier(s.time, Execute(s, kind, draws, drawn).0.pending)
  {
    match kind
    case Birth => BirthKeepsBounded(s, draws, drawn);
    case Death => DeathKeepsBounded(s);
    case Monitor => MonitorKeepsBounded(s, draws, drawn);
  }

  /**
   * What executing an event of this kind, in state s, adds to the monitor's
   * lists, given the queuing time of recentlyDied (None when there is no
   * such request): a Monitor event that does not raise adds the numbers
   * waiting and in the system and that queuing time; anything else adds
   * nothing. The lists only ever grow at the end.
   */
  function Record(m: Samples, s: State, kind: Kind, departed: Option<real>): (r: Samples)
    ensures m.requestsWaiting <= r.requestsWaiting && m.requestsInSystem <= r.requestsInSystem
    ensures m.queuingTimes <= r.queuingTimes && r.waitingTimes == m.waitingTimes
    ensures |r.requestsWaiting| == |m.requestsWaiting| + (if kind == Monitor && departed.Some? then 1 else 0)
    ensures |r.requestsInSystem| == |r.requestsWaiting| - |m.requestsWaiting| + |m.requestsInSystem|
    ensures |r.queuingTimes| == |r.requestsWaiting| - |m.requestsWaiting| + |m.queuingTimes|
    ensures kind == Monitor && departed.Some? ==>
      && r.requestsWaiting[|m.requestsWaiting|] <= r.requestsInSystem[|m.requestsInSystem|]
      && r.queuingTimes[|m.queuingTimes|] == departed.value
  {
    if kind == Monitor && departed.Some? then
      m.(requestsWaiting := m.requestsWaiting + [|s.waiting|],
         requestsInSystem := m.requestsInSystem + [InSystem(s)],
         queuingTimes := m.queuingTimes + [departed.value])
    else m
  }

  /**
   * One iteration of runSimulation's loop on values: pop the earliest event,
   * set the clock to it and execute it.
   */
  function Step(s: State, draws: nat -> real, drawn: nat): (r: (State, Event, nat))
    requires s.pending != []
    ensures r.0.time == r.1.time && drawn <= r.2
  {
    var popped := Pop(s);
    var executed := Execute(popped.0, popped.1.kind, draws, drawn);
    (executed.0, popped.1, executed.1)
  }

  /** A Step is the pop followed by the execution of the popped event. */
  lemma StepIsPopThenExecute(s: State, draws: nat -> real, drawn: nat)
    requires s.pending != []
    ensures Step(s, draws, drawn).1 == Pop(s).1
    ensures Step(s, draws, drawn).0 == Execute(Pop(s).0, Pop(s).1.kind, draws, drawn).0
    ensures Step(s, draws, drawn).2 == Execute(Pop(s).0, Pop(s).1.kind, draws, drawn).1
  {
  }

  /**
   * From a bounded state a Step is always possible and leads to a bounded
   * state, so at most Capacity requests wait and Capacity + 1 are in the
   * system; nothing pending is earlier than the clock, and the clock does
   * not move back while anyone is in the system.
   */
  lemma StepKeepsBounded(s: State, draws: nat -> real, drawn: nat)
    requires Bounded(s) && NonNegativeDraws(draws)
    ensures s.pending != []
    ensures var r := Step(s, draws, drawn);
      Bounded(r.0) && InSystem(r.0) <= Capacity + 1 && NoneEarlier(r.0.time, r.0.pending)
    ensures InSystem(s) != 0 || NoneEarlier(s.time, s.pending) ==> s.time <= Step(s, draws, drawn).1.time
    ensures Step(s, draws, drawn).1.kind == Death ==> Serving(s.server, Step(s, draws, drawn).1.time)
    ensures NoneEarlier(Pop(s).0.time, Pop(s).0.pending)
  {
    PopIsReady(s);
    var popped := Pop(s);
    ExecuteKeepsBounded(popped.0, popped.1.kind, draws, drawn);
    if popped.1.kind == Death {
      DeathFindsServer(popped.0);
    }
  }

  /** What the monitor collects over a run: its four lists and its count of rejected requests. */
  datatype Tally = Tally(samples: Samples, rejected: nat)

  /**
   * What executing the popped event adds to a tally, given the queuing time
   * of recentlyDied: the lists grow as Record says, and a Birth that finds
   * Capacity requests waiting after the warm-up counts as rejected.
   */
  function Tallied(t: Tally, s: State, kind: Kind, departed: Option<real>, monitorStartingTime: real): (r: Tally)
    ensures r.samples == Record(t.samples, s, kind, departed)
    ensures r.rejected == t.rejected + 1 <==> kind == Birth && s.time > monitorStartingTime && |s.waiting| == Capacity
    ensures r.rejected == t.rejected || r.rejected == t.rejected + 1
  {
    Tally(Record(t.samples, s, kind, departed),
          t.rejected + (if kind == Birth && s.time > monitorStartingTime && |s.waiting| == Capacity then 1 else 0))
  }

  /**
   * The queuing time of recentlyDied after the popped event: a Death makes
   * the request in service recentlyDied, dead now after arriving at its
   * birth; any other event leaves recentlyDied as it is.
   */
  function NextDeparture(s: State, kind: Kind, departed: Option<real>): (d: Option<real>)
    ensures kind != Death ==> d == departed
    ensures kind == Death && s.server.Busy? ==> d == Some(s.time - s.server.birth)
  {
    if kind == Death && s.server.Busy? then Some(s.time - s.server.birth) else departed
  }

  /**
   * runSimulation's loop on values: from s, with the draws from index drawn
   * on, execute events while the clock is before horizon, at most fuel of
   * them; departed is the queuing time of recentlyDied (None before any
   * Death) and tally what the monitor holds. A Monitor event popped with no
   * recentlyDied raises: the run stops on the popped state with that event
   * as its last, and the event adds nothing to the tally. Gives the final
   * state, the events popped in order, the draws used, whether the run
   * raised and the final tally. (An empty heap also ends it, which never
   * happens from a bounded state: see StepKeepsBounded.)
   */
  function Run(s: State, draws: nat -> real, drawn: nat, fuel: nat, horizon: real, departed: Option<real>,
               tally: Tally, monitorStartingTime: real): (r: (State, seq<Event>, nat, bool, Tally))
    ensures |r.1| <= fuel
    ensures r.1 == [] <==> horizon <= s.time || fuel == 0 || s.pending == []
    ensures r.1 == [] ==> r.0 == s && r.2 == drawn && !r.3 && r.4 == tally
    ensures r.3 ==> departed.None?
    decreases fuel, 2
  {
    if horizon <= s.time || fuel == 0 || s.pending == [] then (s, [], drawn, false, tally)
    else RunNext(s, draws, drawn, fuel, horizon, departed, tally, monitorStartingTime)
  }

  /**
   * A run that has not stopped: a Monitor event popped with no recentlyDied
   * raises, and the run ends with it; any other event goes on as RunStep.
   */
  function RunNext(s: State, draws: nat -> real, drawn: nat, fuel: nat, horizon: real, departed: Option<real>,
                   tally: Tally, monitorStartingTime: real): (r: (State, seq<Event>, nat, bool, Tally))
    requires fuel != 0 && s.pending != []
    ensures 1 <= |r.1| <= fuel
    ensures r.3 ==> departed.None?
    decreases fuel, 1
  {
    if Pop(s).1.kind == Monitor && departed.None? then (Pop(s).0, [Pop(s).1], drawn, true, tally)
    else RunStep(s, draws, drawn, fuel, horizon, departed, tally, monitorStartingTime)
  }

  /**
   * One Step, then the run of at most fuel - 1 events from where it leads,
   * with recentlyDied and the tally as the executed event leaves them.
   */
  function RunStep(s: State, draws: nat -> real, drawn: nat, fuel: nat, horizon: real, departed: Option<real>,
                   tally: Tally, monitorStartingTime: real): (r: (State, seq<Event>, nat, bool, Tally))
    requires fuel != 0 && s.pending != []
    ensures 1 <= |r.1| <= fuel
    ensures r.3 ==> departed.None?
    decreases fuel, 0
  {
    var popped := Pop(s);
    var step := Step(s, draws, drawn);
    var rest := Run(step.0, draws, step.2, fuel - 1, horizon, NextDeparture(popped.0, popped.1.kind, departed),
                    Tallied(tally, popped.0, popped.1.kind, departed, monitorStartingTime), monitorStartingTime);
    (rest.0, [step.1] + rest.1, rest.2, rest.3, rest.4)
  }

  /** A run that goes on is the Step it starts with followed by the rest of the run. */
  lemma RunUnfolds(s: State, draws: nat -> real, drawn: nat, fuel: nat, horizon: real, departed: Option<real>,
                   tally: Tally, monitorStartingTime: real, t: State, e: Event, drawn': nat)
    requires s.time < horizon && fuel != 0 && s.pending != []
    requires !(Pop(s).1.kind == Monitor && departed.None?)
    requires (t, e, drawn') == Step(s, draws, drawn)
    ensures e == Pop(s).1
    ensures var rest := Run(t, draws, drawn', fuel - 1, horizon, NextDeparture(Pop(s).0, e.kind, departed),
                            Tallied(tally, Pop(s).0, e.kind, departed, monitorStartingTime), monitorStartingTime);
      Run(s, draws, drawn, fuel, horizon, departed, tally, monitorStartingTime) == (rest.0, [e] + rest.1, rest.2, rest.3, rest.4)
  {
    assert Run(s, draws, drawn, fuel, horizon, departed, tally, monitorStartingTime)
      == RunNext(s, draws, drawn, fuel, horizon, departed, tally, monitorStartingTime)
      == RunStep(s, draws, drawn, fuel, horizon, departed, tally, monitorStartingTime);
  }

  /**
   * A run that goes on executes some event e, which leaves the clock at its
   * time, and continues with the run from the state t it leads to, with
   * recentlyDied and the tally as e leaves them.
   */
  lemma RunGoesOn(s: State, draws: nat -> real, drawn: nat, fuel: nat, horizon: real, departed: Option<real>,
                  tally: Tally, monitorStartingTime: real)
    returns (t: State, e: Event, drawn': nat, departed': Option<real>, tally': Tally)
    requires s.time < horizon && fuel != 0 && s.pending != []
    requires !(Pop(s).1.kind == Monitor && departed.None?)
    ensures t.time == e.time && (t, e, drawn') == Step(s, draws, drawn)
    ensures departed' == NextDeparture(Pop(s).0, e.kind, departed)
    ensures tally' == Tallied(tally, Pop(s).0, e.kind, departed, monitorStartingTime)
    ensures var rest := Run(t, draws, drawn', fuel - 1, horizon, departed', tally', monitorStartingTime);
      Run(s, draws, drawn, fuel, horizon, departed, tally, monitorStartingTime) == (rest.0, [e] + rest.1, rest.2, rest.3, rest.4)
  {
    var step := Step(s, draws, drawn);
    t, e, drawn' := step.0, step.1, step.2;
    RunUnfolds(s, draws, drawn, fuel, horizon, departed, tally, monitorStartingTime, t, e, drawn');
    departed', tally' := NextDeparture(Pop(s).0, e.kind, departed), Tallied(tally, Pop(s).0, e.kind, departed, monitorStartingTime);
  }

  /** A run whose next event is a Monitor with no recentlyDied raises on it, and its tally stays as it was. */
  lemma RunRaises(s: State, draws: nat -> real, drawn: nat, fuel: nat, horizon: real, tally: Tally, monitorStartingTime: real)
    requires s.time < horizon && fuel != 0 && s.pending != []
    requires Pop(s).1.kind == Monitor
    ensures Run(s, draws, drawn, fuel, horizon, None, tally, monitorStartingTime) == (Pop(s).0, [Pop(s).1], drawn, true, tally)
  {
    assert Run(s, draws, drawn, fuel, horizon, None, tally, monitorStartingTime)
      == RunNext(s, draws, drawn, fuel, horizon, None, tally, monitorStartingTime);
  }

  /** The run ends at the time of its last event. */
  lemma {:induction false} RunEndsAtLastEvent(s: State, draws: nat -> real, drawn: nat, fuel: nat, horizon: real,
                                              departed: Option<real>, tally: Tally, monitorStartingTime: real)
    ensures var r := Run(s, draws, drawn, fuel, horizon, departed, tally, monitorStartingTime);
      r.1 != [] ==> r.0.time == r.1[|r.1| - 1].time
    decreases fuel
  {
    if s.time < horizon && fuel != 0 && s.pending != [] {
      if Pop(s).1.kind == Monitor && departed.None? {
        RunRaises(s, draws, drawn, fuel, horizon, tally, monitorStartingTime);
      } else {
        var t, e, drawn', departed', tally' := RunGoesOn(s, draws, drawn, fuel, horizon, departed, tally, monitorStartingTime);
        RunEndsAtLastEvent(t, draws, drawn', fuel - 1, horizon, departed', tally', monitorStartingTime);
        LastOfPrepend(e, Run(t, draws, drawn', fuel - 1, horizon, departed', tally', monitorStartingTime).1);
      }
    }
  }

  /** Every event of the run but the last was popped with the clock still before horizon. */
  lemma {:induction false} RunBeforeHorizon(s: State, draws: nat -> real, drawn: nat, fuel: nat, horizon: real,
                                            departed: Option<real>, tally: Tally, monitorStartingTime: real)
    ensures var r := Run(s, draws, drawn, fuel, horizon, departed, tally, monitorStartingTime);
      forall i :: 0 <= i < |r.1| - 1 ==> r.1[i].time < horizon
    decreases fuel
  {
    if s.time < horizon && fuel != 0 && s.pending != [] {
      if Pop(s).1.kind == Monitor && departed.None? {
        RunRaises(s, draws, drawn, fuel, horizon, tally, monitorStartingTime);
      } else {
        var t, e, drawn', departed', tally' := RunGoesOn(s, draws, drawn, fuel, horizon, departed, tally, monitorStartingTime);
        RunBeforeHorizon(t, draws, drawn', fuel - 1, horizon, departed', tally', monitorStartingTime);
        BeforeHorizonPrepend(e, Run(t, draws, drawn', fuel - 1, horizon, departed', tally', monitorStartingTime).1, horizon);
      }
    }
  }

  /**
   * From a bounded state the Step leads to a bounded state, and a Death it
   * pops finds a request in service, so it sets recentlyDied.
   */
  lemma BoundedGoesOn(s: State, draws: nat -> real, drawn: nat, departed: Option<real>,
                      t: State, e: Event, drawn': nat, departed': Option<real>)
    requires Bounded(s) && NonNegativeDraws(draws) && s.pending != []
    requires (t, e, drawn') == Step(s, draws, drawn) && departed' == NextDeparture(Pop(s).0, e.kind, departed)
    ensures Bounded(t)
    ensures e.kind == Death ==> departed'.Some?
  {
    StepKeepsBounded(s, draws, drawn);
    StepIsPopThenExecute(s, draws, drawn);
  }

  /** A run that raised ended on the Monitor event that raised. */
  lemma {:induction false} RunRaisedOnMonitor(s: State, draws: nat -> real, drawn: nat, fuel: nat, horizon: real,
                                              departed: Option<real>, tally: Tally, monitorStartingTime: real)
    ensures var r := Run(s, draws, drawn, fuel, horizon, departed, tally, monitorStartingTime);
      r.3 ==> r.1 != [] && r.1[|r.1| - 1].kind == Monitor
    decreases fuel
  {
    if s.time < horizon && fuel != 0 && s.pending != [] {
      if Pop(s).1.kind == Monitor && departed.None? {
        RunRaises(s, draws, drawn, fuel, horizon, tally, monitorStartingTime);
      } else {
        var t, e, drawn', departed', tally' := RunGoesOn(s, draws, drawn, fuel, horizon, departed, tally, monitorStartingTime);
        RunRaisedOnMonitor(t, draws, drawn', fuel - 1, horizon, departed', tally', monitorStartingTime);
        LastOfPrepend(e, Run(t, draws, drawn', fuel - 1, horizon, departed', tally', monitorStartingTime).1);
      }
    }
  }

  /**
   * From a bounded state, where every Death finds a request in service and
   * so sets recentlyDied, a run that raised has no Death among its events.
   */
  lemma {:induction false} RunRaisedBeforeDeath(s: State, draws: nat -> real, drawn: nat, fuel: nat, horizon: real,
                                                departed: Option<real>, tally: Tally, monitorStartingTime: real)
    requires Bounded(s) && NonNegativeDraws(draws)
    ensures var r := Run(s, draws, drawn, fuel, horizon, departed, tally, monitorStartingTime);
      r.3 ==> forall i :: 0 <= i < |r.1| ==> r.1[i].kind != Death
    decreases fuel
  {
    if s.time < horizon && fuel != 0 && s.pending != [] {
      if Pop(s).1.kind == Monitor && departed.None? {
        RunRaises(s, draws, drawn, fuel, horizon, tally, monitorStartingTime);
      } else {
        var t, e, drawn', departed', tally' := RunGoesOn(s, draws, drawn, fuel, horizon, departed, tally, monitorStartingTime);
        BoundedGoesOn(s, draws, drawn, departed, t, e, drawn', departed');
        RunRaisedBeforeDeath(t, draws, drawn', fuel - 1, horizon, departed', tally', monitorStartingTime);
        var rest := Run(t, draws, drawn', fuel - 1, horizon, departed', tally', monitorStartingTime);
        if rest.3 {
          NoKindPrepend(e, rest.1, Death);
        }
      }
    }
  }

  /**
   * Over a run the monitor's lists only grow at the end, the list of
   * waiting times stays as it was (recordDeadRequest is never called) and
   * the count of rejections never falls.
   */
  lemma {:induction false} RunOnlyAppends(s: State, draws: nat -> real, drawn: nat, fuel: nat, horizon: real,
                                          departed: Option<real>, tally: Tally, monitorStartingTime: real)
    ensures var u := Run(s, draws, drawn, fuel, horizon, departed, tally, monitorStartingTime).4;
      && tally.samples.requestsWaiting <= u.samples.requestsWaiting
      && tally.samples.requestsInSystem <= u.samples.requestsInSystem
      && tally.samples.queuingTimes <= u.samples.queuingTimes
      && u.samples.waitingTimes == tally.samples.waitingTimes
      && tally.rejected <= u.rejected
    decreases fuel
  {
    if s.time < horizon && fuel != 0 && s.pending != [] {
      if Pop(s).1.kind == Monitor && departed.None? {
        RunRaises(s, draws, drawn, fuel, horizon, tally, monitorStartingTime);
      } else {
        var t, e, drawn', departed', tally' := RunGoesOn(s, draws, drawn, fuel, horizon, departed, tally, monitorStartingTime);
        RunOnlyAppends(t, draws, drawn', fuel - 1, horizon, departed', tally', monitorStartingTime);
        var u := Run(t, draws, drawn', fuel - 1, horizon, departed', tally', monitorStartingTime).4;
        PrefixTransitive(tally.samples.requestsWaiting, tally'.samples.requestsWaiting, u.samples.requestsWaiting);
        PrefixTransitive(tally.samples.requestsInSystem, tally'.samples.requestsInSystem, u.samples.requestsInSystem);
        PrefixTransitive(tally.samples.queuingTimes, tally'.samples.queuingTimes, u.samples.queuingTimes);
      }
    }
  }

  /** A prefix of a prefix is a prefix. */
  lemma PrefixTransitive<T>(a: seq<T>, b: seq<T>, c: seq<T>)
    requires a <= b && b <= c
    ensures a <= c
  {
    assert forall i :: 0 <= i < |a| ==> a[i] == b[i] == c[i];
  }

  /**
   * First come, first served: when a Death finds requests waiting, the server
   * takes the earliest-born one, and every request left waiting was born no
   * earlier than it.
   */
  lemma DeathServesOldest(s: State)
    requires Ready(s, Death) && s.waiting != []
    ensures DeathStep(s).server == Busy(s.waiting[0], Some(s.time))
    ensures DeathStep(s).waiting == s.waiting[1..]
    ensures forall b :: b in DeathStep(s).waiting ==> DeathStep(s).server.birth <= b
  {
    assert Timed(Unpopped(s, Death));
  }

  /**
   * What runSimulation knows about the events it has executed: their times
   * never decrease, the clock is at the last of them and nothing pending is
   * earlier, the monitor counted one snapshot per Monitor event and one
   * attempted request per Birth after the warm-up.
   */
  ghost predicate Traced(trace: seq<Event>, time: real, pending: seq<Event>,
                         numSnapshots: nat, attemptedRequests: nat, monitorStartingTime: real)
  {
    && ClockNonDecreasing(trace)
    && (trace != [] ==> time == trace[|trace| - 1].time && NoneEarlier(time, pending))
    && numSnapshots == KindCount(trace, Monitor)
    && attemptedRequests == CountAfter(trace, Birth, monitorStartingTime)
  }

  /** One more executed event, no earlier than the clock was, extends the record. */
  lemma TracedExtend(trace: seq<Event>, time: real, pending: seq<Event>, numSnapshots: nat, attemptedRequests: nat,
                     monitorStartingTime: real, e: Event, pending': seq<Event>, numSnapshots': nat, attemptedRequests': nat)
    requires Traced(trace, time, pending, numSnapshots, attemptedRequests, monitorStartingTime)
    requires NoneEarlier(time, pending) ==> time <= e.time
    requires NoneEarlier(e.time, pending')
    requires numSnapshots' == numSnapshots + (if e.kind == Monitor then 1 else 0)
    requires attemptedRequests' == attemptedRequests + (if e.kind == Birth && e.time > monitorStartingTime then 1 else 0)
    ensures Traced(trace + [e], e.time, pending', numSnapshots', attemptedRequests', monitorStartingTime)
  {
    KindCountAppend(trace, e, Monitor);
    CountAfterAppend(trace, e, Birth, monitorStartingTime);
    ClockAppend(trace, e);
  }

  /**
   * Every Monitor event of the trace came after some Death: the condition
   * under which recordSnapshot finds a recentlyDied request each time.
   */
  ghost predicate DeathBeforeEveryMonitor(trace: seq<Event>)
  {
    forall i :: 0 <= i < |trace| && trace[i].kind == Monitor ==> KindCount(trace[..i], Death) != 0
  }

  /** The condition extends by an event that is not a Monitor, or follows a Death. */
  lemma DeathBeforeEveryMonitorExtend(trace: seq<Event>, e: Event)
    requires DeathBeforeEveryMonitor(trace)
    requires e.kind == Monitor ==> KindCount(trace, Death) != 0
    ensures DeathBeforeEveryMonitor(trace + [e])
  {
    var t := trace + [e];
    forall i | 0 <= i < |t| && t[i].kind == Monitor
      ensures KindCount(t[..i], Death) != 0
    {
      if i < |trace| {
        assert t[..i] == trace[..i];
      } else {
        assert t[..i] == trace;
      }
    }
  }

  /**
   * The simulation: a clock, the waiting list, the single service slot, the
   * request that left the system last, and the schedule heap.
   */
  class Controller {
    const arrivalRate: real
    const serviceRate: real
    const simulationTime: real
    const monitor: Monitor
    var time: real
    var queue: seq<Request>
    var beingServed: Request?
    var recentlyDied: Request?
    var schedule: seq<Event>
    var monitorStartingTime: real
    ghost var Repr: set<object>

    /** The controller's state as a value. */
    ghost function Abstract(): State
      reads this, beingServed
    {
      State(time, Births(queue), Slot(beingServed), schedule)
    }

    /** The objects the controller owns. */
    ghost predicate Owned()
      reads this
    {
      && this in Repr && monitor in Repr
      && (forall i :: 0 <= i < |queue| ==> queue[i] in Repr)
      && (beingServed != null ==> beingServed in Repr)
    }

    /** The request that left last, if any, has a death time no earlier than its birth. */
    ghost predicate Departed()
      reads this, recentlyDied
    {
      recentlyDied != null ==>
        recentlyDied.deathTime.Some? && recentlyDied.birthTime <= recentlyDied.deathTime.value
    }

    /**
     * What the monitor holds is what the controller can have sent it: no
     * departure records (recordDeadRequest is never called), bounded
     * snapshots, non-negative queuing times, no more rejections than attempts.
     */
    ghost predicate Sampled()
      reads monitor
    {
      && monitor.Valid() && monitor.numRequests == 0
      && monitor.SnapshotsBounded() && monitor.QueuingTimesNonNegative()
      && monitor.rejectedRequests <= monitor.attemptedRequests
    }

    /** The object invariant between two iterations of the event loop. */
    ghost predicate Valid()
      reads this, beingServed, recentlyDied, monitor
    {
      Owned() && Bounded(Abstract()) && Departed() && Sampled()
    }

    /** The queuing time recordSnapshot reads from recentlyDied; None where it raises. */
    ghost function Departure(): Option<real>
      reads this, recentlyDied
    {
      if recentlyDied == null || recentlyDied.deathTime.None? then None else Some(recentlyDied.QueuingTime())
    }

    /** As constructed, before runSimulation. */
    ghost predicate Initial()
      reads this, monitor
    {
      && Repr == {this, monitor}
      && monitor.Valid() && monitor.numSnapshots == 0 && monitor.numRequests == 0
      && monitor.attemptedRequests == 0 && monitor.rejectedRequests == 0
      && time == 0.0 && queue == [] && beingServed == null && recentlyDied == null && schedule == []
    }

    constructor (arrivalRate: real, averageServiceTime: real, simulationTime: real)
      requires averageServiceTime != 0.0
      ensures Initial() && fresh(Repr)
      ensures this.arrivalRate == arrivalRate && serviceRate == 1.0 / averageServiceTime
      ensures this.simulationTime == simulationTime
    {
      this.arrivalRate := arrivalRate;
      serviceRate := 1.0 / averageServiceTime;
      this.simulationTime := simulationTime;
      time := 0.0;
      queue := [];
      beingServed := null;
      recentlyDied := null;
      var m := new Monitor();
      monitor := m;
      schedule := [];
      monitorStartingTime := 0.0;
      Repr := {this, m};
    }

    /**
     * The service start shared by executeEvent's Birth and Death branches: the
     * FIRST request of the list (pop(0)) gets its service time and the server,
     * and its Death is pushed ServiceTime later.
     */
    method ServeFirst()
      requires Owned() && queue != [] && beingServed == null
      modifies this, queue[0]
      ensures Owned() && Repr == old(Repr)
      ensures time == old(time) && monitorStartingTime == old(monitorStartingTime)
      ensures queue == old(queue[1..]) && beingServed == old(queue[0])
      ensures Abstract() == State(time, old(Births(queue))[1..], Busy(old(queue[0].birthTime), Some(time)),
                                  HeapPush(old(schedule), Event(time + ServiceTime, Death)))
      ensures recentlyDied == old(recentlyDied)
      ensures recentlyDied != null ==> recentlyDied.deathTime == old(recentlyDied.deathTime)
      ensures old(Departed()) ==> Departed()
    {
      var request := queue[0];
      queue := queue[1..];
      request.SetServiceTime(time);
      beingServed := request;
      var deathTime := time + ServiceTime;
      schedule := HeapPush(schedule, Event(deathTime, Death));
      assert Births(queue) == old(Births(queue))[1..];
    }

    /**
     * The admitted part of executeEvent's Birth branch: a new request born
     * now joins the end of the list, and the next Birth is pushed one draw
     * later.
     */
    method Enqueue(draws: nat -> real, drawn: nat)
      requires Owned()
      modifies this
      ensures Owned() && fresh(Repr - old(Repr))
      ensures |queue| == |old(queue)| + 1 && fresh(queue[|queue| - 1])
      ensures beingServed == old(beingServed) && recentlyDied == old(recentlyDied)
      ensures Abstract() == old(Abstract()).(waiting := old(Abstract()).waiting + [time],
                                            pending := HeapPush(old(schedule), Event(time + draws(drawn), Birth)))
      ensures monitorStartingTime == old(monitorStartingTime)
    {
      ghost var s := Abstract();
      var newRequest := new Request(time);
      queue := queue + [newRequest];
      Repr := Repr + {newRequest};
      var timeOfNextBirth := time + draws(drawn);
      schedule := HeapPush(schedule, Event(timeOfNextBirth, Birth));
      assert Births(queue) == s.waiting + [time];
    }

    /**
     * The rejecting half of executeEvent's Birth branch, taken when Capacity
     * requests wait: after the warm-up the Birth is counted as rejected, and
     * only the next Birth is pushed, one draw later.
     */
    method Reject(draws: nat -> real, drawn: nat) returns (drawn': nat)
      requires |queue| == Capacity && Sampled()
      requires time > monitorStartingTime ==> monitor.rejectedRequests < monitor.attemptedRequests
      modifies this, monitor
      ensures Sampled()
      ensures Abstract() == BirthStep(old(Abstract()), draws, drawn).0
      ensures drawn' == BirthStep(old(Abstract()), draws, drawn).1
      ensures Repr == old(Repr) && monitorStartingTime == old(monitorStartingTime)
      ensures queue == old(queue) && beingServed == old(beingServed) && recentlyDied == old(recentlyDied)
      ensures monitor.rejectedRequests == old(monitor.rejectedRequests) + (if time > monitorStartingTime then 1 else 0)
      ensures monitor.attemptedRequests == old(monitor.attemptedRequests)
      ensures monitor.numSnapshots == old(monitor.numSnapshots) && monitor.numRequests == old(monitor.numRequests)
      ensures monitor.requestsWaiting == old(monitor.requestsWaiting)
      ensures monitor.requestsInSystem == old(monitor.requestsInSystem)
      ensures monitor.queuingTimes == old(monitor.queuingTimes) && monitor.waitingTimes == old(monitor.waitingTimes)
    {
      if time > monitorStartingTime {
        monitor.IncrementRejectedRequests();
      }
      var timeOfNextBirth := time + draws(drawn);
      schedule := HeapPush(schedule, Event(timeOfNextBirth, Birth));
      drawn' := drawn + 1;
    }

    /**
     * The admitting half of executeEvent's Birth branch: enqueue, and when
     * the new request is the only one and the server idle, serve it.
     */
    method Admit(draws: nat -> real, drawn: nat) returns (drawn': nat)
      requires Owned() && |queue| != Capacity
      modifies this
      ensures Owned() && fresh(Repr - old(Repr))
      ensures Abstract() == BirthStep(old(Abstract()), draws, drawn).0
      ensures drawn' == BirthStep(old(Abstract()), draws, drawn).1
      ensures monitorStartingTime == old(monitorStartingTime) && recentlyDied == old(recentlyDied)
      ensures old(Departed()) ==> Departed()
    {
      Enqueue(draws, drawn);
      drawn' := drawn + 1;
      if |queue| == 1 && beingServed == null {
        ServeFirst();
      }
    }

    /** The head of executeEvent's Birth branch: after the warm-up the Birth is counted as attempted. */
    method CountAttempt()
      requires Sampled()
      modifies monitor
      ensures Sampled()
      ensures monitor.attemptedRequests == old(monitor.attemptedRequests) + (if time > monitorStartingTime then 1 else 0)
      ensures monitor.rejectedRequests == old(monitor.rejectedRequests)
      ensures monitor.numSnapshots == old(monitor.numSnapshots) && monitor.numRequests == old(monitor.numRequests)
      ensures monitor.Recorded() == old(monitor.Recorded())
    {
      if time > monitorStartingTime {
        monitor.IncrementAttemptedRequests();
      }
    }

    /**
     * executeEvent("Birth"): moves the state exactly as BirthStep does. After
     * the warm-up every Birth is counted as attempted, and a rejected one as
     * rejected too.
     */
    method HandleBirth(draws: nat -> real, drawn: nat) returns (drawn': nat)
      requires Owned() && Sampled() && Departed()
      modifies this, monitor
      ensures Owned() && fresh(Repr - old(Repr)) && Sampled() && Departed()
      ensures Abstract() == BirthStep(old(Abstract()), draws, drawn).0
      ensures drawn' == BirthStep(old(Abstract()), draws, drawn).1
      ensures monitorStartingTime == old(monitorStartingTime) && recentlyDied == old(recentlyDied)
      ensures monitor.numSnapshots == old(monitor.numSnapshots)
      ensures monitor.attemptedRequests == old(monitor.attemptedRequests) + (if time > monitorStartingTime then 1 else 0)
      ensures monitor.rejectedRequests ==
        old(monitor.rejectedRequests) + (if time > monitorStartingTime && |old(queue)| == Capacity then 1 else 0)
      ensures monitor.numRequests == old(monitor.numRequests) && monitor.Recorded() == old(monitor.Recorded())
    {
      CountAttempt();
      if |queue| == Capacity {
        drawn' := Reject(draws, drawn);
      } else {
        drawn' := Admit(draws, drawn);
      }
    }

    /**
     * The head of executeEvent's Death branch: the request in service becomes
     * recentlyDied, gets its death time, and leaves the server.
     */
    method Retire()
      requires Owned() && Serving(Slot(beingServed), time)
      modifies this, beingServed
      ensures Owned() && Repr == old(Repr) && Departed()
      ensures Abstract() == old(Abstract()).(server := Idle)
      ensures queue == old(queue) && beingServed == null && recentlyDied == old(beingServed)
      ensures recentlyDied.deathTime == Some(time)
      ensures monitorStartingTime == old(monitorStartingTime)
    {
      recentlyDied := beingServed;
      recentlyDied.SetDeathTime(time);
      beingServed := null;
    }

    /**
     * executeEvent("Death"): moves the state exactly as DeathStep does; the
     * request that leaves becomes recentlyDied with its death time set. Python
     * raises AttributeError on a Death with nobody in service.
     */
    method HandleDeath()
      requires Owned() && Serving(Slot(beingServed), time)
      modifies this, beingServed, queue
      ensures Owned() && Repr == old(Repr) && Departed()
      ensures Abstract() == DeathStep(old(Abstract()))
      ensures recentlyDied == old(beingServed) && recentlyDied.deathTime == Some(time)
      ensures monitorStartingTime == old(monitorStartingTime)
    {
      Retire();
      if |queue| != 0 {
        ServeFirst();
      }
    }

    /**
     * executeEvent("Monitor"): sends the monitor a snapshot with recentlyDied.
     * When there is none, recordSnapshot raises AttributeError (raised) after
     * counting the snapshot and nothing is pushed; otherwise the state moves
     * as MonitorStep does.
     */
    method HandleMonitor(draws: nat -> real, drawn: nat) returns (drawn': nat, raised: bool)
      requires Departed()
      modifies this, monitor
      ensures raised <==> recentlyDied == null
      ensures Repr == old(Repr) && monitorStartingTime == old(monitorStartingTime)
      ensures queue == old(queue) && beingServed == old(beingServed) && recentlyDied == old(recentlyDied)
      ensures Departed()
      ensures !raised ==> Abstract() == MonitorStep(old(Abstract()), draws, drawn).0
      ensures !raised ==> drawn' == MonitorStep(old(Abstract()), draws, drawn).1
      ensures raised ==> Abstract() == old(Abstract())
      ensures monitor.numSnapshots == old(monitor.numSnapshots) + 1
      ensures !raised ==>
        && monitor.requestsWaiting == old(monitor.requestsWaiting) + [|queue|]
        && monitor.requestsInSystem == old(monitor.requestsInSystem) + [InSystem(Abstract())]
        && monitor.queuingTimes == old(monitor.queuingTimes) + [recentlyDied.QueuingTime()]
      ensures raised ==>
        && monitor.requestsWaiting == old(monitor.requestsWaiting)
        && monitor.requestsInSystem == old(monitor.requestsInSystem)
        && monitor.queuingTimes == old(monitor.queuingTimes)
      ensures monitor.numRequests == old(monitor.numRequests) && monitor.waitingTimes == old(monitor.waitingTimes)
      ensures monitor.attemptedRequests == old(monitor.attemptedRequests)
      ensures monitor.rejectedRequests == old(monitor.rejectedRequests)
    {
      var requestsWaiting := |queue|;
      var requestsInSystem := requestsWaiting;
      if beingServed != null {
        requestsInSystem := requestsInSystem + 1;
      }
      raised := monitor.RecordSnapshot(requestsWaiting, requestsInSystem, recentlyDied);
      drawn' := drawn;
      if raised {
        return;
      }
      var nextMonitorTime := time + draws(drawn);
      schedule := HeapPush(schedule, Event(nextMonitorTime, Monitor));
      drawn' := drawn + 1;
    }

    /**
     * executeEvent: dispatch on the kind of the popped event. Each event adds
     * to the counters of its kind; only a Monitor event with no recentlyDied
     * raises.
     */
    method ExecuteEvent(event: Kind, draws: nat -> real, drawn: nat) returns (drawn': nat, raised: bool)
      requires Owned() && Sampled() && Departed() && |queue| <= Capacity
      requires event == Death ==> Serving(Slot(beingServed), time)
      modifies this, monitor, beingServed, queue
      ensures Owned() && fresh(Repr - old(Repr)) && Departed()
      ensures raised <==> event == Monitor && old(recentlyDied) == null
      ensures !raised ==> Sampled()
      ensures !raised ==> Abstract() == Execute(old(Abstract()), event, draws, drawn).0
      ensures !raised ==> drawn' == Execute(old(Abstract()), event, draws, drawn).1
      ensures raised ==> Abstract() == old(Abstract())
      ensures raised ==> monitor.numSnapshots == |monitor.requestsWaiting| + 1
      ensures monitorStartingTime == old(monitorStartingTime)
      ensures (recentlyDied == null) == (old(recentlyDied) == null && event != Death)
      ensures monitor.numSnapshots == old(monitor.numSnapshots) + (if event == Monitor then 1 else 0)
      ensures monitor.attemptedRequests == old(monitor.attemptedRequests) + (if event == Birth && time > monitorStartingTime then 1 else 0)
      ensures monitor.rejectedRequests <= monitor.attemptedRequests
      ensures monitor.rejectedRequests ==
        old(monitor.rejectedRequests) + (if event == Birth && time > monitorStartingTime && |old(queue)| == Capacity then 1 else 0)
      ensures monitor.Recorded() == Record(old(monitor.Recorded()), old(Abstract()), event, old(Departure()))
      ensures Departure() == NextDeparture(old(Abstract()), event, old(Departure()))
    {
      raised := false;
      match event
      case Birth =>
        drawn' := HandleBirth(draws, drawn);
      case Death =>
        HandleDeath();
        drawn' := drawn;
      case Monitor =>
        drawn', raised := HandleMonitor(draws, drawn);
    }

    /** heappop and the clock update at the head of runSimulation's loop body. */
    method PopNext() returns (event: Event)
      requires schedule != []
      modifies this
      ensures Abstract() == Pop(old(Abstract())).0 && event == Pop(old(Abstract())).1
      ensures Repr == old(Repr) && monitorStartingTime == old(monitorStartingTime)
      ensures queue == old(queue) && beingServed == old(beingServed) && recentlyDied == old(recentlyDied)
    {
      var pair := HeapPop(schedule);
      schedule := pair.1;
      time := pair.0.time;
      event := pair.0;
    }

    /**
     * heappop, set the clock, executeEvent: the popped event is executed on
     * the popped state and, unless the Monitor event raised, the invariant
     * holds again.
     */
    method PopAndExecute(draws: nat -> real, drawn: nat) returns (event: Event, drawn': nat, raised: bool)
      requires Valid() && NonNegativeDraws(draws)
      modifies this, monitor, beingServed, queue
      ensures Owned() && fresh(Repr - old(Repr))
      ensures raised <==> event.kind == Monitor && old(recentlyDied) == null
      ensures !raised ==> Valid()
      ensures old(Abstract()).pending != [] && event == Pop(old(Abstract())).1
      ensures !raised ==> Abstract() == Execute(Pop(old(Abstract())).0, event.kind, draws, drawn).0
      ensures !raised ==> drawn' == Execute(Pop(old(Abstract())).0, event.kind, draws, drawn).1
      ensures raised ==> Abstract() == Pop(old(Abstract())).0
      ensures raised ==> monitor.numSnapshots == |monitor.requestsWaiting| + 1
      ensures time == event.time && NoneEarlier(time, schedule)
      ensures old(NoneEarlier(time, schedule)) ==> old(time) <= time
      ensures monitorStartingTime == old(monitorStartingTime)
      ensures (recentlyDied == null) == (old(recentlyDied) == null && event.kind != Death)
      ensures monitor.numSnapshots == old(monitor.numSnapshots) + (if event.kind == Monitor then 1 else 0)
      ensures monitor.attemptedRequests ==
        old(monitor.attemptedRequests) + (if event.kind == Birth && time > monitorStartingTime then 1 else 0)
      ensures monitor.rejectedRequests <= monitor.attemptedRequests
      ensures monitor.rejectedRequests ==
        old(monitor.rejectedRequests) + (if event.kind == Birth && time > monitorStartingTime && |old(queue)| == Capacity then 1 else 0)
      ensures monitor.Recorded() == Record(old(monitor.Recorded()), Pop(old(Abstract())).0, event.kind, old(Departure()))
      ensures Departure() == NextDeparture(Pop(old(Abstract())).0, event.kind, old(Departure()))
    {
      ghost var s := Abstract();
      PopIsReady(s);
      ghost var popped := Pop(s);
      ExecuteKeepsBounded(popped.0, popped.1.kind, draws, drawn);
      if popped.1.kind == Death {
        DeathFindsServer(popped.0);
      }
      event := PopNext();
      drawn', raised := ExecuteEvent(event.kind, draws, drawn);
    }

    /**
     * One iteration of runSimulation's loop: heappop, set the clock,
     * executeEvent. Unless the Monitor event raised, the state moves as Step
     * does and the invariant holds again.
     */
    method ExecuteNextEvent(draws: nat -> real, drawn: nat) returns (event: Event, drawn': nat, raised: bool)
      requires Valid() && NonNegativeDraws(draws)
      modifies this, monitor, beingServed, queue
      ensures Owned() && fresh(Repr - old(Repr))
      ensures raised <==> event.kind == Monitor && old(recentlyDied) == null
      ensures !raised ==> Valid()
      ensures !raised ==> Abstract() == Step(old(Abstract()), draws, drawn).0
      ensures raised ==> Abstract() == Pop(old(Abstract())).0
      ensures raised ==> monitor.numSnapshots == |monitor.requestsWaiting| + 1
      ensures time == event.time && NoneEarlier(time, schedule)
      ensures old(NoneEarlier(time, schedule)) ==> old(time) <= time
      ensures monitorStartingTime == old(monitorStartingTime)
      ensures (recentlyDied == null) == (old(recentlyDied) == null && event.kind != Death)
      ensures monitor.numSnapshots == old(monitor.numSnapshots) + (if event.kind == Monitor then 1 else 0)
      ensures monitor.attemptedRequests ==
        old(monitor.attemptedRequests) + (if event.kind == Birth && time > monitorStartingTime then 1 else 0)
      ensures monitor.rejectedRequests <= monitor.attemptedRequests
      ensures monitor.rejectedRequests ==
        old(monitor.rejectedRequests) + (if event.kind == Birth && time > monitorStartingTime && |old(queue)| == Capacity then 1 else 0)
      ensures monitor.Recorded() == Record(old(monitor.Recorded()), Pop(old(Abstract())).0, event.kind, old(Departure()))
      ensures Departure() == NextDeparture(Pop(old(Abstract())).0, event.kind, old(Departure()))
      ensures Tally(monitor.Recorded(), monitor.rejectedRequests)
        == Tallied(Tally(old(monitor.Recorded()), old(monitor.rejectedRequests)), Pop(old(Abstract())).0, event.kind,
                   old(Departure()), monitorStartingTime)
      ensures event == Step(old(Abstract()), draws, drawn).1
      ensures !raised ==> drawn' == Step(old(Abstract()), draws, drawn).2
    {
      ghost var s := Abstract();
      event, drawn', raised := PopAndExecute(draws, drawn);
      StepIsPopThenExecute(s, draws, drawn);
      assert time == Pop(s).0.time && |Pop(s).0.waiting| == |old(queue)|;
    }

    /**
     * The head of runSimulation: record monitorStartingTime and push the first
     * Birth, one draw away, and the first Monitor, at monitorStartingTime.
     */
    method Seed(monitorStartingTime: real, draws: nat -> real)
      requires Initial() && NonNegativeDraws(draws)
      modifies this
      ensures Valid() && Repr == old(Repr) && recentlyDied == null
      ensures Abstract() == Seeded(monitorStartingTime, draws)
      ensures this.monitorStartingTime == monitorStartingTime
    {
      this.monitorStartingTime := monitorStartingTime;
      schedule := HeapPush(schedule, Event(draws(0), Birth));
      schedule := HeapPush(schedule, Event(monitorStartingTime, Monitor));
      assert Abstract() == Seeded(monitorStartingTime, draws);
    }

    /**
     * One iteration of the loop in runSimulation, accounted for in the trace
     * of popped events. recentlyDied is None exactly until the first Death.
     */
    method Advance(draws: nat -> real, drawn: nat, ghost trace: seq<Event>) returns (event: Event, drawn': nat, raised: bool)
      requires Valid() && NonNegativeDraws(draws)
      requires Traced(trace, time, schedule, monitor.numSnapshots, monitor.attemptedRequests, monitorStartingTime)
      requires DeathBeforeEveryMonitor(trace)
      requires (recentlyDied == null) == (KindCount(trace, Death) == 0)
      modifies this, monitor, beingServed, queue
      ensures Owned() && fresh(Repr - old(Repr))
      ensures monitorStartingTime == old(monitorStartingTime)
      ensures Traced(trace + [event], time, schedule, monitor.numSnapshots, monitor.attemptedRequests, monitorStartingTime)
      ensures monitor.rejectedRequests <= monitor.attemptedRequests
      ensures (recentlyDied == null) == (KindCount(trace + [event], Death) == 0)
      ensures raised <==> event.kind == Monitor && KindCount(trace, Death) == 0
      ensures !raised ==> Valid() && DeathBeforeEveryMonitor(trace + [event])
      ensures raised ==> monitor.numSnapshots == |monitor.requestsWaiting| + 1
      ensures event == Step(old(Abstract()), draws, drawn).1
      ensures !raised ==> Abstract() == Step(old(Abstract()), draws, drawn).0
      ensures !raised ==> drawn' == Step(old(Abstract()), draws, drawn).2
      ensures raised ==> Abstract() == Pop(old(Abstract())).0
      ensures monitor.rejectedRequests ==
        old(monitor.rejectedRequests) + (if event.kind == Birth && time > monitorStartingTime && |old(queue)| == Capacity then 1 else 0)
      ensures monitor.Recorded() == Record(old(monitor.Recorded()), Pop(old(Abstract())).0, event.kind, old(Departure()))
      ensures Departure() == NextDeparture(Pop(old(Abstract())).0, event.kind, old(Departure()))
      ensures Tally(monitor.Recorded(), monitor.rejectedRequests)
        == Tallied(Tally(old(monitor.Recorded()), old(monitor.rejectedRequests)), Pop(old(Abstract())).0, event.kind,
                   old(Departure()), monitorStartingTime)
    {
      ghost var time0, schedule0 := time, schedule;
      ghost var numSnapshots0, attempted0 := monitor.numSnapshots, monitor.attemptedRequests;
      event, drawn', raised := ExecuteNextEvent(draws, drawn);
      TracedExtend(trace, time0, schedule0, numSnapshots0, attempted0, monitorStartingTime,
                   event, schedule, monitor.numSnapshots, monitor.attemptedRequests);
      KindCountAppend(trace, event, Death);
      if !raised {
        DeathBeforeEveryMonitorExtend(trace, event);
      }
    }

    /**
     * The run of at most fuel events from start, begun with drawn0 draws made,
     * before any Death and with the monitor's lists and rejection count
     * empty, has so far executed trace and goes on as the run of at most
     * remaining events from the current state, recentlyDied and monitor: it
     * ends in the same state, raises alike and leaves the same tally.
     */
    ghost predicate Tracks(start: State, draws: nat -> real, drawn0: nat, fuel: nat, trace: seq<Event>, drawn: nat, remaining: nat)
      reads this, beingServed, recentlyDied, monitor
    {
      var whole := Run(start, draws, drawn0, fuel, simulationTime, None, Tally(NoSamples, 0), monitorStartingTime);
      var rest := Run(Abstract(), draws, drawn, remaining, simulationTime, Departure(),
                      Tally(monitor.Recorded(), monitor.rejectedRequests), monitorStartingTime);
      whole.0 == rest.0 && whole.1 == trace + rest.1 && whole.3 == rest.3 && whole.4 == rest.4
    }

    /**
     * The state of the loop of runSimulation while nothing has raised: the
     * object invariant holds, trace lists the events executed so far, a Death
     * came before each Monitor among them, recentlyDied is None exactly until
     * the first Death, and trace and the remaining events make up the run
     * from start.
     */
    ghost predicate Running(start: State, draws: nat -> real, drawn0: nat, fuel: nat, trace: seq<Event>, drawn: nat, remaining: nat)
      reads this, beingServed, recentlyDied, monitor
    {
      && Valid() && NonNegativeDraws(draws)
      && Traced(trace, time, schedule, monitor.numSnapshots, monitor.attemptedRequests, monitorStartingTime)
      && monitor.rejectedRequests <= monitor.attemptedRequests
      && DeathBeforeEveryMonitor(trace)
      && (recentlyDied == null) == (KindCount(trace, Death) == 0)
      && |trace| + remaining == fuel
      && Tracks(start, draws, drawn0, fuel, trace, drawn, remaining)
    }

    /**
     * The state in which runSimulation ends when recordSnapshot raised: trace
     * lists the events executed, the last of them the Monitor event that
     * raised with no Death before it, and the run from start raised on it,
     * left the controller as it is and left the monitor's lists and
     * rejection count as they are.
     */
    ghost predicate Raised(start: State, draws: nat -> real, drawn0: nat, fuel: nat, trace: seq<Event>)
      reads this, beingServed, monitor
    {
      && Traced(trace, time, schedule, monitor.numSnapshots, monitor.attemptedRequests, monitorStartingTime)
      && monitor.rejectedRequests <= monitor.attemptedRequests
      && trace != [] && trace[|trace| - 1].kind == Monitor && KindCount(trace, Death) == 0
      && DeathBeforeEveryMonitor(trace[..|trace| - 1])
      && monitor.numSnapshots == |monitor.requestsWaiting| + 1
      && var whole := Run(start, draws, drawn0, fuel, simulationTime, None, Tally(NoSamples, 0), monitorStartingTime);
         Abstract() == whole.0 && trace == whole.1 && whole.3
         && Tally(monitor.Recorded(), monitor.rejectedRequests) == whole.4
    }

    /**
     * The state in which runSimulation ends when nothing raised: the object
     * invariant holds, trace lists the events executed, a Death came before
     * each Monitor among them, and the run from start did not raise, executed
     * trace, left the controller as it is and left the monitor's lists and
     * rejection count as they are.
     */
    ghost predicate Completed(start: State, draws: nat -> real, drawn0: nat, fuel: nat, trace: seq<Event>)
      reads this, beingServed, recentlyDied, monitor
    {
      && Valid()
      && Traced(trace, time, schedule, monitor.numSnapshots, monitor.attemptedRequests, monitorStartingTime)
      && monitor.rejectedRequests <= monitor.attemptedRequests
      && DeathBeforeEveryMonitor(trace)
      && var whole := Run(start, draws, drawn0, fuel, simulationTime, None, Tally(NoSamples, 0), monitorStartingTime);
         Abstract() == whole.0 && trace == whole.1 && !whole.3
         && Tally(monitor.Recorded(), monitor.rejectedRequests) == whole.4
    }

    /**
     * Before the first iteration nothing has been executed, recentlyDied is
     * None, the monitor's lists and rejection count are empty and the whole
     * run is still ahead.
     */
    lemma RunningStarts(draws: nat -> real, drawn: nat, fuel: nat)
      requires Valid() && NonNegativeDraws(draws) && recentlyDied == null
      requires Traced([], time, schedule, monitor.numSnapshots, monitor.attemptedRequests, monitorStartingTime)
      requires monitor.rejectedRequests <= monitor.attemptedRequests
      ensures Running(Abstract(), draws, drawn, fuel, [], drawn, fuel)
    {
      assert Departure() == None;
      assert Tally(monitor.Recorded(), monitor.rejectedRequests) == Tally(NoSamples, 0);
      var whole := Run(Abstract(), draws, drawn, fuel, simulationTime, None, Tally(NoSamples, 0), monitorStartingTime);
      assert [] + whole.1 == whole.1;
    }

    /** A loop that stops because the clock reached simulationTime or the fuel ran out has completed the run. */
    lemma RunningStops(start: State, draws: nat -> real, drawn0: nat, fuel: nat, trace: seq<Event>, drawn: nat, remaining: nat)
      requires Running(start, draws, drawn0, fuel, trace, drawn, remaining)
      requires time >= simulationTime || remaining == 0
      ensures Completed(start, draws, drawn0, fuel, trace)
    {
      assert trace + [] == trace;
    }

    /**
     * One iteration of the loop, accounted for in the trace of executed
     * events and against Run: with remaining events left and the clock before
     * simulationTime, the run from here is the executed event followed by the
     * run from the new state, or ends with it when it raised.
     */
    method AdvanceRun(draws: nat -> real, drawn: nat, ghost start: State, ghost drawn0: nat, ghost fuel: nat, ghost trace: seq<Event>, ghost remaining: nat)
      returns (event: Event, drawn': nat, raised: bool)
      requires Running(start, draws, drawn0, fuel, trace, drawn, remaining)
      requires time < simulationTime && remaining != 0
      modifies Repr
      ensures !raised ==> Running(start, draws, drawn0, fuel, trace + [event], drawn', remaining - 1)
      ensures raised ==> Raised(start, draws, drawn0, fuel, trace + [event])
      ensures fresh(Repr - old(Repr))
      ensures monitorStartingTime == old(monitorStartingTime)
    {
      ghost var s := Abstract();
      ghost var departed, tally := Departure(), Tally(monitor.Recorded(), monitor.rejectedRequests);
      StepKeepsBounded(s, draws, drawn);
      StepIsPopThenExecute(s, draws, drawn);
      event, drawn', raised := Advance(draws, drawn, trace);
      if raised {
        RunRaises(s, draws, drawn, remaining, simulationTime, tally, monitorStartingTime);
        assert (trace + [event])[..|trace + [event]| - 1] == trace;
      } else {
        RunUnfolds(s, draws, drawn, remaining, simulationTime, departed, tally, monitorStartingTime, Abstract(), event, drawn');
        ShiftEvent(trace, event, Run(Abstract(), draws, drawn', remaining - 1, simulationTime, Departure(),
                                     Tally(monitor.Recorded(), monitor.rejectedRequests), monitorStartingTime).1);
      }
    }

    /** The loop body of runSimulation, with the trace extended by the executed event and one event less remaining. */
    method NextIteration(draws: nat -> real, drawn: nat, ghost start: State, ghost drawn0: nat, ghost fuel: nat, ghost trace: seq<Event>, ghost remaining: nat)
      returns (drawn': nat, raised: bool, ghost trace': seq<Event>, ghost remaining': nat)
      requires Running(start, draws, drawn0, fuel, trace, drawn, remaining)
      requires time < simulationTime && remaining != 0
      modifies Repr
      ensures |trace'| == |trace| + 1 && remaining' == remaining - 1
      ensures !raised ==> Running(start, draws, drawn0, fuel, trace', drawn', remaining')
      ensures raised ==> Raised(start, draws, drawn0, fuel, trace')
      ensures fresh(Repr - old(Repr))
      ensures monitorStartingTime == old(monitorStartingTime)
    {
      var event;
      event, drawn', raised := AdvanceRun(draws, drawn, start, drawn0, fuel, trace, remaining);
      trace', remaining' := trace + [event], remaining - 1;
    }

    /**
     * The loop of runSimulation, entered with the whole run from start still
     * ahead (RunningStarts): execute events while the clock is before
     * simulationTime, at most fuel of them, until recordSnapshot raises. The
     * controller ends where Run from start ends, trace lists the events Run
     * executes, the monitor holds the tally Run leaves, and the loop ends in
     * AttributeError exactly when Run raised.
     */
    method RunLoop(draws: nat -> real, drawn: nat, fuel: nat, ghost start: State) returns (outcome: RunOutcome, ghost trace: seq<Event>)
      requires Running(start, draws, drawn, fuel, [], drawn, fuel)
      modifies Repr
      ensures fresh(Repr - old(Repr))
      ensures monitorStartingTime == old(monitorStartingTime)
      ensures outcome != AttributeError ==> Completed(start, draws, drawn, fuel, trace)
      ensures outcome == AttributeError ==> Raised(start, draws, drawn, fuel, trace)
      ensures outcome == ReachedHorizon ==> time >= simulationTime
      ensures outcome == OutOfFuel ==> |trace| == fuel && time < simulationTime
    {
      var drawn' := drawn;
      var steps := 0;
      trace := [];
      ghost var remaining := fuel;

      while time < simulationTime && steps < fuel
        invariant Running(start, draws, drawn, fuel, trace, drawn', remaining)
        invariant fresh(Repr - old(Repr))
        invariant monitorStartingTime == old(monitorStartingTime)
        invariant steps == |trace|
        decreases fuel - steps
      {
        var raised;
        drawn', raised, trace, remaining := NextIteration(draws, drawn', start, drawn, fuel, trace, remaining);
        steps := steps + 1;
        if raised {
          return AttributeError, trace;
        }
      }
      RunningStops(start, draws, drawn, fuel, trace, drawn', remaining);
      outcome := if time >= simulationTime then ReachedHorizon else OutOfFuel;
    }

    /**
     * runSimulation: seed the heap with a Birth one draw away and a Monitor at
     * monitorStartingTime, then execute events until the clock reaches
     * simulationTime; the model stops after at most fuel events. The
     * controller ends where Run from the seeded state ends and trace lists the
     * events it executes: every one but the last ran with the clock before
     * simulationTime, their times never decrease, the clock ends at the last
     * of them, and the monitor counted one snapshot per Monitor event and one
     * attempt per Birth after the warm-up, with no more rejections than
     * attempts. The run ends in AttributeError exactly when a Monitor event
     * comes before any Death; it is then the last event of the trace. The
     * monitor's lists and rejection count are what the run collects.
     */
    method RunSimulation(monitorStartingTime: real, draws: nat -> real, fuel: nat) returns (outcome: RunOutcome, ghost trace: seq<Event>)
      requires Initial() && NonNegativeDraws(draws)
      modifies this, monitor
      ensures this.monitorStartingTime == monitorStartingTime
      ensures ClockNonDecreasing(trace) && |trace| <= fuel
      ensures trace != [] ==> time == trace[|trace| - 1].time
      ensures monitor.numSnapshots == KindCount(trace, Monitor)
      ensures monitor.attemptedRequests == CountAfter(trace, Birth, monitorStartingTime)
      ensures monitor.rejectedRequests <= monitor.attemptedRequests
      ensures outcome != AttributeError ==> Valid() && DeathBeforeEveryMonitor(trace)
      ensures outcome == ReachedHorizon ==> time >= simulationTime
      ensures outcome == OutOfFuel ==> |trace| == fuel && time < simulationTime
      ensures outcome == AttributeError ==>
        && trace != [] && trace[|trace| - 1].kind == Monitor && KindCount(trace, Death) == 0
        && DeathBeforeEveryMonitor(trace[..|trace| - 1])
        && monitor.numSnapshots == |monitor.requestsWaiting| + 1
      ensures var whole := Run(Seeded(monitorStartingTime, draws), draws, 1, fuel, simulationTime, None, Tally(NoSamples, 0), monitorStartingTime);
        && Abstract() == whole.0 && trace == whole.1
        && (outcome == AttributeError <==> whole.3)
        && monitor.Recorded() == whole.4.samples && monitor.rejectedRequests == whole.4.rejected
      ensures forall i :: 0 <= i < |trace| - 1 ==> trace[i].time < simulationTime
    {
      Seed(monitorStartingTime, draws);
      RunningStarts(draws, 1, fuel);
      outcome, trace := RunLoop(draws, 1, fuel, Seeded(monitorStartingTime, draws));
      RunBeforeHorizon(Seeded(monitorStartingTime, draws), draws, 1, fuel, simulationTime, None, Tally(NoSamples, 0), monitorStartingTime);
    }
  }

  /**
   * At every point of a run that has not raised, the statistics printReport
   * would print are in range: the mean number in system within
   * [0, Capacity + 1], the mean queuing time non-negative and its variance
   * defined, the rejection probability in [0, 1], and the result variance of
   * line 168 at least 1/4.
   */
  lemma ReportStatisticsInRange(c: Controller)
    requires c.Valid()
    ensures c.monitor.numSnapshots != 0 ==>
      && 0.0 <= c.monitor.MeanOfRequestsInSystem().value <= (Capacity + 1) as real
      && c.monitor.MeanQueuingTime().value >= 0.0
      && c.monitor.VarianceOfQueuingTime().Some?
    ensures c.monitor.attemptedRequests != 0 ==>
      && 0.0 <= c.monitor.RejectionProbability().value <= 1.0
      && WrittenResultVariance(c.monitor.rejectedRequests, c.monitor.attemptedRequests).value >= 0.25
      && 0.0 <= ResultVariance(c.monitor.rejectedRequests, c.monitor.attemptedRequests).value <= 0.25
  {
    var m := c.monitor;
    if m.numSnapshots != 0 {
      MeanInSystemWithinCapacity(m);
      MeanQueuingTimeNonNegative(m);
    }
    if m.attemptedRequests != 0 {
      RejectionProbabilityBounds(m);
      ResultVarianceDiscrepancy(m.rejectedRequests, m.attemptedRequests);
      ResultVarianceOfOutcomes(m.rejectedRequests, m.attemptedRequests);
    }
  }
}
