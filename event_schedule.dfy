/**
 * The schedule both simulators keep: a binary heap (Python's heapq) of
 * (time, kind) pairs, where kind is one of the strings "Birth", "Death" and
 * "Monitor". Pairs compare as Python tuples: by time, then by the kind's name.
 *
 * The heap is modelled by its contents: a sequence whose order carries no
 * meaning, pushed to at the end and popped at an earliest element.
 */
module EventSchedule {

  /** The three event kinds. */
  datatype Kind = Birth | Death | Monitor

  /** The string the simulators store for each kind. */
  function Name(k: Kind): string
  {
    match k
    case Birth => "Birth"
    case Death => "Death"
    case Monitor => "Monitor"
  }

  /** Python's `<` on strings: lexicographic by code point. */
  predicate StringLess(a: string, b: string)
  {
    if b == [] then false
    else if a == [] then true
    else if a[0] != b[0] then a[0] < b[0]
    else StringLess(a[1..], b[1..])
  }

  /** Position of a kind in the order of the names. */
  function Rank(k: Kind): nat
  {
    match k
    case Birth => 0
    case Death => 1
    case Monitor => 2
  }

  /** Ranks order kinds exactly as Python orders their names. */
  lemma RankAgreesWithNames(a: Kind, b: Kind)
    ensures Rank(a) < Rank(b) <==> StringLess(Name(a), Name(b))
  {
    assert Name(Birth) == "Birth" && Name(Death) == "Death" && Name(Monitor) == "Monitor";
    assert "Birth"[1..] == "irth" && "Death"[1..] == "eath" && "Monitor"[1..] == "onitor";
    assert "irth"[1..] == "rth" && "eath"[1..] == "ath" && "onitor"[1..] == "nitor";
    assert "rth"[1..] == "th" && "ath"[1..] == "th" && "nitor"[1..] == "itor";
    assert "th"[1..] == "h" && "itor"[1..] == "tor";
    assert "h"[1..] == [] && "tor"[1..] == "or";
  }

  /** A scheduled event: the pair pushed on the heap. */
  datatype Event = Event(time: real, kind: Kind)

  /** Python's `a < b` on the (time, kind) pairs. */
  predicate Before(a: Event, b: Event)
  {
    a.time < b.time || (a.time == b.time && Rank(a.kind) < Rank(b.kind))
  }

  /** `a <= b` on the pairs. */
  predicate NotAfter(a: Event, b: Event)
  {
    !Before(b, a)
  }

  /** Index of an earliest event of a non-empty heap. */
  function EarliestIndex(h: seq<Event>): (i: nat)
    requires h != []
    ensures i < |h|
    ensures forall j :: 0 <= j < |h| ==> NotAfter(h[i], h[j])
  {
    if |h| == 1 then 0
    else
      var i := EarliestIndex(h[..|h| - 1]);
      if Before(h[|h| - 1], h[i]) then |h| - 1 else i
  }

  /** heapq.heappush: the heap gains exactly the pushed event. */
  function HeapPush(h: seq<Event>, e: Event): seq<Event>
  {
    h + [e]
  }

  /** heappush adds exactly the pushed event to the heap's contents. */
  lemma HeapPushContents(h: seq<Event>, e: Event)
    ensures multiset(HeapPush(h, e)) == multiset(h) + multiset{e}
    ensures forall x :: x in HeapPush(h, e) <==> x in h || x == e
  {
  }

  /**
   * heapq.heappop: removes and returns an event no later than any other.
   * Python raises IndexError on an empty heap; the simulators never let the
   * heap run empty, which their invariants show.
   */
  function HeapPop(h: seq<Event>): (r: (Event, seq<Event>))
    requires h != []
    ensures forall e :: e in r.1 ==> NotAfter(r.0, e)
  {
    var i := EarliestIndex(h);
    assert h == h[..i] + [h[i]] + h[i + 1..];
    (h[i], h[..i] + h[i + 1..])
  }

  /** heappop loses nothing: what is left plus the popped event is the old contents. */
  lemma HeapPopContents(h: seq<Event>)
    requires h != []
    ensures multiset(HeapPop(h).1) + multiset{HeapPop(h).0} == multiset(h)
  {
    var i := EarliestIndex(h);
    assert h == h[..i] + [h[i]] + h[i + 1..];
  }

  /**
   * When one event of the heap is strictly earlier than all the others,
   * heappop returns that one and leaves the rest in their order.
   */
  lemma HeapPopStrictlyEarliest(h: seq<Event>, i: nat)
    requires i < |h|
    requires forall e :: e in h[..i] + h[i + 1..] ==> Before(h[i], e)
    ensures HeapPop(h) == (h[i], h[..i] + h[i + 1..])
  {
  }

  /** Number of events of kind k in h. */
  function KindCount(h: seq<Event>, k: Kind): nat
  {
    if h == [] then 0
    else KindCount(h[..|h| - 1], k) + (if h[|h| - 1].kind == k then 1 else 0)
  }

  /** Number of events of kind k in h whose time is strictly after start. */
  function CountAfter(h: seq<Event>, k: Kind, start: real): nat
  {
    if h == [] then 0
    else CountAfter(h[..|h| - 1], k, start) + (if h[|h| - 1].kind == k && h[|h| - 1].time > start then 1 else 0)
  }

  lemma KindCountAppend(h: seq<Event>, e: Event, k: Kind)
    ensures KindCount(h + [e], k) == KindCount(h, k) + (if e.kind == k then 1 else 0)
  {
    assert (h + [e])[..|h|] == h;
  }

  lemma CountAfterAppend(h: seq<Event>, e: Event, k: Kind, start: real)
    ensures CountAfter(h + [e], k, start) == CountAfter(h, k, start) + (if e.kind == k && e.time > start then 1 else 0)
  {
    assert (h + [e])[..|h|] == h;
  }

  /** A push adds one to the count of the pushed kind and leaves the others. */
  lemma KindCountPush(h: seq<Event>, e: Event)
    ensures forall k :: KindCount(HeapPush(h, e), k) == KindCount(h, k) + (if e.kind == k then 1 else 0)
  {
    forall k {
      KindCountAppend(h, e, k);
    }
  }

  /** Taking one event out of a heap lowers the count of its kind by one. */
  lemma {:induction false} KindCountRemove(h: seq<Event>, i: nat, k: Kind)
    requires i < |h|
    ensures KindCount(h[..i] + h[i + 1..], k) + (if h[i].kind == k then 1 else 0) == KindCount(h, k)
  {
    if i == |h| - 1 {
      assert h[..i] + h[i + 1..] == h[..|h| - 1];
    } else {
      var prefix := h[..|h| - 1];
      KindCountRemove(prefix, i, k);
      var removed := h[..i] + h[i + 1..];
      assert removed[..|removed| - 1] == prefix[..i] + prefix[i + 1..];
      assert removed[|removed| - 1] == h[|h| - 1];
    }
  }

  /** The count of a kind depends only on the heap's contents, not on its layout. */
  lemma {:induction false} KindCountPermutation(a: seq<Event>, b: seq<Event>, k: Kind)
    requires multiset(a) == multiset(b)
    ensures KindCount(a, k) == KindCount(b, k)
    decreases |a|
  {
    if a == [] {
      assert |b| == |multiset(b)| == 0;
    } else {
      var x := a[|a| - 1];
      var a' := a[..|a| - 1];
      assert a == a' + [x];
      assert multiset(a) == multiset(a') + multiset{x};
      assert x in multiset(b);
      var j :| 0 <= j < |b| && b[j] == x;
      var b' := b[..j] + b[j + 1..];
      assert multiset(b') + multiset{x} == multiset(b) by {
        assert b == b[..j] + [x] + b[j + 1..];
      }
      assert multiset(a') == multiset(a) - multiset{x};
      assert multiset(b') == multiset(b) - multiset{x};
      KindCountPermutation(a', b', k);
      KindCountRemove(b, j, k);
      KindCountAppend(a', x, k);
    }
  }

  /** Popping and pushing the popped event back leaves every kind's count as it was. */
  lemma KindCountPop(h: seq<Event>, k: Kind)
    requires h != []
    ensures KindCount(HeapPop(h).1 + [HeapPop(h).0], k) == KindCount(h, k)
  {
    var r := HeapPop(h);
    HeapPopContents(h);
    assert multiset(r.1 + [r.0]) == multiset(h);
    KindCountPermutation(r.1 + [r.0], h, k);
  }

  /** A heap holding an event of some kind is not empty. */
  lemma KindCountNonEmpty(h: seq<Event>, k: Kind)
    requires KindCount(h, k) > 0
    ensures h != []
  {
  }

  /** Times of the popped events never decrease: the clock is monotone. */
  ghost predicate ClockNonDecreasing(history: seq<Event>)
  {
    forall i, j :: 0 <= i < j < |history| ==> history[i].time <= history[j].time
  }

  /** Moving one event from the head of the rest of a run to the end of its history. */
  lemma ShiftEvent(history: seq<Event>, e: Event, rest: seq<Event>)
    ensures history + ([e] + rest) == (history + [e]) + rest
  {
  }

  /** Putting an event in front of a run keeps its last event, or makes it the last of an empty one. */
  lemma LastOfPrepend(e: Event, rest: seq<Event>)
    ensures ([e] + rest)[|rest|] == if rest == [] then e else rest[|rest| - 1]
  {
  }

  /**
   * All but the last event of a run come before horizon, when the run put in
   * front of them is followed by more events only if it came before horizon.
   */
  lemma BeforeHorizonPrepend(e: Event, rest: seq<Event>, horizon: real)
    requires rest != [] ==> e.time < horizon
    requires forall i :: 0 <= i < |rest| - 1 ==> rest[i].time < horizon
    ensures forall i :: 0 <= i < |[e] + rest| - 1 ==> ([e] + rest)[i].time < horizon
  {
    var r := [e] + rest;
    forall i | 0 <= i < |r| - 1
      ensures r[i].time < horizon
    {
      if i != 0 {
        assert r[i] == rest[i - 1];
      }
    }
  }

  /** No event of a kind among e and rest when there is none in rest and e is not of it. */
  lemma NoKindPrepend(e: Event, rest: seq<Event>, k: Kind)
    requires e.kind != k
    requires forall i :: 0 <= i < |rest| ==> rest[i].kind != k
    ensures forall i :: 0 <= i < |[e] + rest| ==> ([e] + rest)[i].kind != k
  {
    var r := [e] + rest;
    forall i | 0 <= i < |r|
      ensures r[i].kind != k
    {
      if i != 0 {
        assert r[i] == rest[i - 1];
      }
    }
  }

  /** An event no earlier than the last of a non-decreasing sequence extends it at the end. */
  lemma ClockAppend(history: seq<Event>, e: Event)
    requires ClockNonDecreasing(history)
    requires history != [] ==> history[|history| - 1].time <= e.time
    ensures ClockNonDecreasing(history + [e])
  {
    var h := history + [e];
    forall i, j | 0 <= i < j < |h|
      ensures h[i].time <= h[j].time
    {
      if j == |history| {
        assert history[i].time <= history[|history| - 1].time;
      }
    }
  }

  /**
   * The variate source: draws(n) is the value the n-th call of
   * exponentialValue returns. Every draw is a non-negative delay.
   */
  ghost predicate NonNegativeDraws(draws: nat -> real)
  {
    forall n :: draws(n) >= 0.0
  }

  /** How runSimulation ends. */
  datatype RunOutcome =
    | ReachedHorizon   // the clock reached simulationTime
    | OutOfFuel        // the step bound of the model was used up first
    | AttributeError   // recordSnapshot dereferenced a recentlyDied of None
}
