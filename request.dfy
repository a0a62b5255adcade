/**
 * A request: born on a Birth event, served once the single server takes it,
 * and dead on its Death event. Both simulators define this class the same way.
 * Python sets serviceTime and deathTime as attributes only when the setters
 * run; None stands for an attribute that does not exist yet.
 */
module Requests {
  import opened Optional

  class Request {
    const birthTime: real
    var serviceTime: Option<real>
    var deathTime: Option<real>

    constructor (birthTime: real)
      ensures this.birthTime == birthTime
      ensures serviceTime == None && deathTime == None
    {
      this.birthTime := birthTime;
      serviceTime := None;
      deathTime := None;
    }

    method SetServiceTime(serviceTime: real)
      modifies this
      ensures this.serviceTime == Some(serviceTime)
      ensures deathTime == old(deathTime)
    {
      this.serviceTime := Some(serviceTime);
    }

    method SetDeathTime(deathTime: real)
      modifies this
      ensures this.deathTime == Some(deathTime)
      ensures serviceTime == old(serviceTime)
    {
      this.deathTime := Some(deathTime);
    }

    /** Born, then served, then dead, in that order of time. */
    ghost predicate Chronological()
      reads this
    {
      serviceTime.Some? && deathTime.Some? && birthTime <= serviceTime.value <= deathTime.value
    }

    /**
     * Time spent waiting for the server. Python raises AttributeError before
     * service starts, hence the precondition.
     */
    function WaitingTime(): (w: real)
      reads this
      requires serviceTime.Some?
      ensures serviceTime.value == birthTime + w
      ensures w >= 0.0 <==> birthTime <= serviceTime.value
    {
      serviceTime.value - birthTime
    }

    /** Time spent in the system, birth to death; at least the waiting time. */
    function QueuingTime(): (q: real)
      reads this
      requires deathTime.Some?
      ensures q >= 0.0 <==> birthTime <= deathTime.value
      ensures Chronological() ==> 0.0 <= WaitingTime() <= q
    {
      deathTime.value - birthTime
    }
  }

  /** The birth times of a list of requests, in list order. */
  function Births(requests: seq<Request>): (b: seq<real>)
    ensures |b| == |requests|
    ensures forall i :: 0 <= i < |requests| ==> b[i] == requests[i].birthTime
  {
    if requests == [] then []
    else Births(requests[..|requests| - 1]) + [requests[|requests| - 1].birthTime]
  }
}
