/** The render queue's lock-protected state. Every function below is one critical
    section of the queue; class RenderQueue runs the same sections on fields. */
module Queue {
  import opened Prelude
  import opened Api

  /** `inflight` and `pending` are the queue's maps; `outstanding` is its wait group. */
  datatype Locked = Locked(closing: bool, inflight: set<int>, pending: map<int, PR>, outstanding: nat)

  datatype Admission = Refused | Coalesced | Started

  /** The section of `enqueue`: refuse while closing, coalesce onto a live worker,
      or claim the number and count a new worker. */
  function Admit(q: Locked, pr: PR): (Locked, Admission)
  {
    if q.closing then
      (q, Refused)
    else if pr.number in q.inflight then
      (q.(pending := q.pending[pr.number := pr]), Coalesced)
    else
      (q.(inflight := q.inflight + {pr.number}, outstanding := q.outstanding + 1), Started)
  }

  /** The section that ends one iteration of a worker's loop: continue with the
      pending snapshot, or leave the in-flight set. */
  function Decide(q: Locked, number: int): (Locked, Option<PR>)
  {
    if number in q.pending then
      (q.(pending := q.pending - {number}), Some(q.pending[number]))
    else
      (q.(inflight := q.inflight - {number}), None)
  }

  /** `clear`: a worker pre-empted by shutdown forgets its number. */
  function Forget(q: Locked, number: int): Locked
  {
    q.(inflight := q.inflight - {number}, pending := q.pending - {number})
  }

  function Capacity(concurrency: int): (slots: nat)
    ensures slots >= 1 && slots >= concurrency
  {
    if concurrency < 1 then 1 else concurrency
  }

  class RenderQueue {
    var closing: bool
    var inflight: set<int>
    var pending: map<int, PR>
    var outstanding: nat
    const slots: nat

    ghost function View(): Locked
      reads this
    {
      Locked(closing, inflight, pending, outstanding)
    }

    constructor (concurrency: int)
      ensures View() == Locked(false, {}, map[], 0)
      ensures slots == Capacity(concurrency)
    {
      closing, inflight, pending, outstanding := false, {}, map[], 0;
      slots := if concurrency < 1 then 1 else concurrency;
    }

    method Enqueue(pr: PR) returns (admission: Admission)
      modifies this
      ensures (View(), admission) == Admit(old(View()), pr)
      ensures admission.Refused? <==> old(closing)
      ensures old(closing) ==> View() == old(View())
      ensures !old(closing) && pr.number in old(inflight) ==>
                pending == old(pending)[pr.number := pr] && inflight == old(inflight) && outstanding == old(outstanding)
      ensures !old(closing) && pr.number !in old(inflight) ==>
                pending == old(pending) && inflight == old(inflight) + {pr.number} && outstanding == old(outstanding) + 1
      ensures closing == old(closing)
    {
      if closing {
        return Refused;
      }
      if pr.number in inflight {
        pending := pending[pr.number := pr];
        return Coalesced;
      }
      inflight := inflight + {pr.number};
      outstanding := outstanding + 1;
      return Started;
    }

    method FinishRound(number: int) returns (next: Option<PR>)
      modifies this
      ensures (View(), next) == Decide(old(View()), number)
      ensures next.Some? <==> number in old(pending)
      ensures next.Some? ==> next.value == old(pending)[number] && inflight == old(inflight)
      ensures next.None? ==> inflight == old(inflight) - {number}
      ensures pending == old(pending) - {number}
      ensures closing == old(closing) && outstanding == old(outstanding)
    {
      if number in pending {
        next := Some(pending[number]);
        pending := pending - {number};
        return;
      }
      inflight := inflight - {number};
      next := None;
    }

    method Clear(number: int)
      modifies this
      ensures View() == Forget(old(View()), number)
      ensures number !in inflight && number !in pending
      ensures inflight == old(inflight) - {number} && pending == old(pending) - {number}
      ensures closing == old(closing) && outstanding == old(outstanding)
    {
      inflight := inflight - {number};
      pending := pending - {number};
    }

    /** The deferred `wg.Done()` of a worker that `Enqueue` counted. */
    method Done()
      requires outstanding > 0
      modifies this
      ensures View() == old(View()).(outstanding := old(outstanding) - 1)
    {
      outstanding := outstanding - 1;
    }

    /** The first half of `wait`: from here on `Enqueue` refuses. */
    method Close()
      modifies this
      ensures View() == old(View()).(closing := true)
    {
      closing := true;
    }
  }
}
