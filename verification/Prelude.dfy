/** Shared datatypes and facts about weighted sums over sequences, which the
    protocol modules use to count tasks, slots and tokens. */
module Prelude {

  datatype Option<+T> = None | Some(value: T)

  /** The sum of the weights of a sequence's elements. */
  function Total<T>(ts: seq<T>, w: T -> nat): (total: nat)
  {
    if ts == [] then 0 else Total(ts[..|ts| - 1], w) + w(ts[|ts| - 1])
  }

  lemma TotalAppend<T>(ts: seq<T>, t: T, w: T -> nat)
    ensures Total(ts + [t], w) == Total(ts, w) + w(t)
  {
    assert (ts + [t])[..|ts|] == ts;
  }

  lemma {:induction false} TotalUpdate<T>(ts: seq<T>, i: nat, t: T, w: T -> nat)
    requires i < |ts|
    ensures Total(ts[i := t], w) + w(ts[i]) == Total(ts, w) + w(t)
  {
    var last := |ts| - 1;
    if i == last {
      assert ts[i := t][..last] == ts[..last];
    } else {
      assert ts[i := t][..last] == ts[..last][i := t];
      TotalUpdate(ts[..last], i, t, w);
    }
  }

  lemma {:induction false} TotalAtLeast<T>(ts: seq<T>, i: nat, w: T -> nat)
    requires i < |ts|
    ensures w(ts[i]) <= Total(ts, w)
  {
    if i < |ts| - 1 {
      TotalAtLeast(ts[..|ts| - 1], i, w);
    }
  }

  lemma {:induction false} TotalPair<T>(ts: seq<T>, i: nat, j: nat, w: T -> nat)
    requires i < j < |ts|
    ensures w(ts[i]) + w(ts[j]) <= Total(ts, w)
  {
    if j < |ts| - 1 {
      TotalPair(ts[..|ts| - 1], i, j, w);
    } else {
      TotalAtLeast(ts[..|ts| - 1], i, w);
    }
  }

  lemma {:induction false} TotalWitness<T>(ts: seq<T>, w: T -> nat) returns (i: nat)
    requires Total(ts, w) > 0
    ensures i < |ts| && w(ts[i]) > 0
  {
    if w(ts[|ts| - 1]) > 0 {
      i := |ts| - 1;
    } else {
      i := TotalWitness(ts[..|ts| - 1], w);
    }
  }

  lemma {:induction false} TotalMonotone<T>(ts: seq<T>, v: T -> nat, w: T -> nat)
    requires forall i :: 0 <= i < |ts| ==> v(ts[i]) <= w(ts[i])
    ensures Total(ts, v) <= Total(ts, w)
  {
    if ts != [] {
      TotalMonotone(ts[..|ts| - 1], v, w);
    }
  }

  lemma SomeMember<T>(s: set<T>) returns (x: T)
    requires s != {}
    ensures x in s
  {
    x :| x in s;
  }
}
