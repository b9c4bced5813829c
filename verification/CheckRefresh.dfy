/** Coalesced check refreshes: requesters add a head SHA to a set and nudge one
    worker through a single-token channel; the worker drains the set. */
module CheckRefresh {
  import opened Prelude

  datatype Phase = Sleeping | Draining | Polling(sha: string) | Stopped

  datatype Event = Requested(sha: string) | PollBegan(sha: string) | PollEnded(sha: string)

  /** `wake` is the token; `nudges` counts requesters between their insertion and
      their send on the channel. */
  datatype State = State(
    pending: set<string>, wake: bool, nudges: nat, worker: Phase, cancelled: bool, log: seq<Event>)

  datatype Action =
    | Request(sha: string) | Nudge | Wake | Pick(sha: string) | Drained | Polled | Cancel | Stop

  function Init(): State
  {
    State({}, false, 0, Sleeping, false, [])
  }

  predicate Enabled(s: State, a: Action)
  {
    match a
    case Request(_) => true
    case Nudge => s.nudges > 0
    case Wake => s.worker.Sleeping? && s.wake
    case Pick(sha) => s.worker.Draining? && !s.cancelled && sha in s.pending
    case Drained => s.worker.Draining? && (s.cancelled || s.pending == {})
    case Polled => s.worker.Polling?
    case Cancel => true
    case Stop => s.worker.Sleeping? && s.cancelled
  }

  function Apply(s: State, a: Action): State
    requires Enabled(s, a)
  {
    match a
    case Request(sha) =>
      if sha == "" then s
      else s.(pending := s.pending + {sha}, nudges := s.nudges + 1, log := s.log + [Requested(sha)])
    case Nudge => s.(wake := true, nudges := s.nudges - 1)
    case Wake => s.(wake := false, worker := Draining)
    case Pick(sha) => s.(pending := s.pending - {sha}, worker := Polling(sha), log := s.log + [PollBegan(sha)])
    case Drained => s.(worker := Sleeping)
    case Polled => s.(worker := Draining, log := s.log + [PollEnded(s.worker.sha)])
    case Cancel => s.(cancelled := true)
    case Stop => s.(worker := Stopped)
  }

  function Run(s: State, acts: seq<Action>): Option<State>
  {
    if acts == [] then Some(s)
    else
      var before := Run(s, acts[..|acts| - 1]);
      var a := acts[|acts| - 1];
      if before.None? || !Enabled(before.value, a) then None else Some(Apply(before.value, a))
  }

  // ---- readings of the history ----

  /** The newest request for `sha` has not been followed by the start of a poll. */
  predicate Unanswered(log: seq<Event>, sha: string)
  {
    log != [] && (
      var e := log[|log| - 1];
      e == Requested(sha) || (e != PollBegan(sha) && Unanswered(log[..|log| - 1], sha)))
  }

  function Count(log: seq<Event>, e: Event): nat
  {
    if log == [] then 0 else Count(log[..|log| - 1], e) + if log[|log| - 1] == e then 1 else 0
  }

  /** Polls alternate begin and end; Some is the poll still running. None? of the
      outer option would mean two polls overlapped. */
  function Running(log: seq<Event>): Option<Option<string>>
  {
    if log == [] then Some(None)
    else
      var before := Running(log[..|log| - 1]);
      match log[|log| - 1]
      case Requested(_) => before
      case PollBegan(sha) => if before == Some(None) then Some(Some(sha)) else None
      case PollEnded(sha) => if before == Some(Some(sha)) then Some(None) else None
  }

  predicate Awake(s: State)
  {
    s.worker.Draining? || s.worker.Polling?
  }

  ghost predicate Inv(s: State)
  {
    && (s.pending != {} ==> s.wake || s.nudges > 0 || Awake(s) || s.cancelled)
    && "" !in s.pending
    && (s.worker.Stopped? ==> s.cancelled)
    && Running(s.log) == Some(if s.worker.Polling? then Some(s.worker.sha) else None)
    && (forall sha :: sha in s.pending <==> Unanswered(s.log, sha))
    && (forall sha :: Count(s.log, PollBegan(sha)) + (if sha in s.pending then 1 else 0) <= Count(s.log, Requested(sha)))
  }

  lemma Logged(log: seq<Event>, e: Event)
    ensures (log + [e])[..|log|] == log && (log + [e])[|log|] == e
  {
  }

  lemma RequestKeepsInv(s: State, sha: string)
    requires Inv(s)
    ensures Inv(Apply(s, Request(sha)))
  {
    Logged(s.log, Requested(sha));
  }

  lemma PickKeepsInv(s: State, sha: string)
    requires Inv(s) && Enabled(s, Pick(sha))
    ensures Inv(Apply(s, Pick(sha)))
  {
    Logged(s.log, PollBegan(sha));
  }

  lemma PolledKeepsInv(s: State)
    requires Inv(s) && Enabled(s, Polled)
    ensures Inv(Apply(s, Polled))
  {
    Logged(s.log, PollEnded(s.worker.sha));
  }

  lemma StepKeepsInv(s: State, a: Action)
    requires Inv(s) && Enabled(s, a)
    ensures Inv(Apply(s, a))
  {
    match a
    case Request(sha) => RequestKeepsInv(s, sha);
    case Pick(sha) => PickKeepsInv(s, sha);
    case Polled => PolledKeepsInv(s);
    case _ => assert Apply(s, a).log == s.log;
  }

  lemma {:induction false} RunKeepsInv(acts: seq<Action>)
    requires Run(Init(), acts).Some?
    ensures Inv(Run(Init(), acts).value)
  {
    if acts != [] {
      RunKeepsInv(acts[..|acts| - 1]);
      StepKeepsInv(Run(Init(), acts[..|acts| - 1]).value, acts[|acts| - 1]);
    }
  }

  /** Whenever a SHA is pending the token is present, a requester is about to send it,
      or the worker is draining; and a SHA is pending exactly while its newest request
      still awaits a poll that begins after it. */
  lemma NoLostWakeup(acts: seq<Action>, s: State)
    requires Run(Init(), acts) == Some(s) && !s.cancelled
    ensures s.pending != {} ==> s.wake || s.nudges > 0 || Awake(s)
    ensures forall sha :: sha in s.pending <==> Unanswered(s.log, sha)
  {
    RunKeepsInv(acts);
  }

  /** Polls never overlap, and per SHA never outnumber the requests. */
  lemma PollsAreSerialAndBounded(acts: seq<Action>, s: State, sha: string)
    requires Run(Init(), acts) == Some(s)
    ensures Running(s.log).Some?
    ensures Count(s.log, PollBegan(sha)) <= Count(s.log, Requested(sha))
  {
    RunKeepsInv(acts);
  }

  // ---- every request is answered ----

  /** The steps left if no further request arrives. */
  function Remaining(s: State): nat
  {
    3 * s.nudges + (if s.wake then 2 else 0) + 2 * |s.pending|
    + match s.worker case Draining => 1 case Polling(_) => 2 case _ => 0
  }

  predicate Internal(a: Action)
  {
    !a.Request? && !a.Cancel? && !a.Stop?
  }

  /** Until shutdown, the requesters and the worker run out of steps, */
  lemma {:induction false} WorkEnds(s: State, acts: seq<Action>, s': State)
    requires Run(s, acts) == Some(s') && !s.cancelled
    requires forall a :: a in acts ==> Internal(a)
    ensures |acts| + Remaining(s') <= Remaining(s) && !s'.cancelled
  {
    if acts != [] {
      var mid, a := Run(s, acts[..|acts| - 1]).value, acts[|acts| - 1];
      WorkEnds(s, acts[..|acts| - 1], mid);
      assert Internal(a);
      if a.Pick? {
        assert |mid.pending| == |s'.pending| + 1;
      }
    }
  }

  /** and when they have none left, every request so far has been followed by a poll. */
  lemma StuckMeansAnswered(acts: seq<Action>, s: State)
    requires Run(Init(), acts) == Some(s) && !s.cancelled
    requires forall a :: Internal(a) ==> !Enabled(s, a)
    ensures s.nudges == 0 && s.worker.Sleeping? && forall sha :: !Unanswered(s.log, sha)
  {
    RunKeepsInv(acts);
    assert !Enabled(s, Nudge) && !Enabled(s, Wake) && !Enabled(s, Drained) && !Enabled(s, Polled);
    if s.worker.Draining? {
      var sha := SomeMember(s.pending);
      assert Enabled(s, Pick(sha));
    }
  }

  // ---- the same of the requests that are made, not only of those recorded ----

  lemma {:induction false} RunConcat(s: State, a: seq<Action>, b: seq<Action>)
    requires Run(s, a + b).Some?
    ensures Run(s, a).Some? && Run(Run(s, a).value, b) == Run(s, a + b)
  {
    if b == [] {
      assert a + b == a;
    } else {
      assert (a + b)[..|a + b| - 1] == a + b[..|b| - 1];
      RunConcat(s, a, b[..|b| - 1]);
    }
  }

  lemma {:induction false} LogGrows(s: State, acts: seq<Action>, s': State)
    requires Run(s, acts) == Some(s')
    ensures |s.log| <= |s'.log| && s'.log[..|s.log|] == s.log
    ensures s.cancelled ==> s'.cancelled
  {
    if acts != [] {
      var mid := Run(s, acts[..|acts| - 1]).value;
      LogGrows(s, acts[..|acts| - 1], mid);
      StepGrows(mid, acts[|acts| - 1]);
      assert s'.log[..|mid.log|][..|s.log|] == s.log;
    }
  }

  lemma StepGrows(s: State, a: Action)
    requires Enabled(s, a)
    ensures var s' := Apply(s, a);
            |s.log| <= |s'.log| && s'.log[..|s.log|] == s.log && (s.cancelled ==> s'.cancelled)
  {
  }

  /** Every request for a SHA is recorded and leaves it pending, with a nudge to follow. */
  lemma RequestsAreTaken(s: State, sha: string)
    requires sha != ""
    ensures var s' := Apply(s, Request(sha));
            s'.log == s.log + [Requested(sha)] && sha in s'.pending && s'.nudges == s.nudges + 1
  {
  }

  /** A request recorded and no longer unanswered has been followed by the start of a poll. */
  lemma {:induction false} AnsweredAfter(log: seq<Event>, k: nat, sha: string) returns (i: nat)
    requires k < |log| && log[k] == Requested(sha) && !Unanswered(log, sha)
    ensures k < i < |log| && log[i] == PollBegan(sha)
    decreases |log|
  {
    var last := |log| - 1;
    if log[last] == PollBegan(sha) {
      i := last;
    } else {
      i := AnsweredAfter(log[..last], k, sha);
    }
  }

  /** Once the requesters and the worker have no step left, each request ever made for a
      SHA has been followed by a poll that began after it. */
  lemma EveryRequestIsPolled(before: seq<Action>, sha: string, after: seq<Action>, s: State) returns (i: nat)
    requires sha != "" && Run(Init(), before + [Request(sha)] + after) == Some(s) && !s.cancelled
    requires forall a :: Internal(a) ==> !Enabled(s, a)
    ensures Run(Init(), before).Some? && |Run(Init(), before).value.log| < i < |s.log| && s.log[i] == PollBegan(sha)
  {
    RunConcat(Init(), before + [Request(sha)], after);
    var mid := Run(Init(), before + [Request(sha)]).value;
    assert (before + [Request(sha)])[..|before|] == before;
    var w := Run(Init(), before).value;
    RequestsAreTaken(w, sha);
    LogGrows(mid, after, s);
    StuckMeansAnswered(before + [Request(sha)] + after, s);
    assert s.log[..|mid.log|][|w.log|] == Requested(sha);
    i := AnsweredAfter(s.log, |w.log|, sha);
  }

  /** The two sections of the requester and the worker's section, on the fields. */
  class Refresher {
    var pending: set<string>
    var wake: bool

    constructor ()
      ensures pending == {} && !wake
    {
      pending, wake := {}, false;
    }

    method Request(sha: string)
      modifies this
      ensures pending == (if sha == "" then old(pending) else old(pending) + {sha})
      ensures wake == (old(wake) || sha != "")
    {
      if sha == "" {
        return;
      }
      pending := pending + {sha};
      if !wake {
        wake := true;
      }
    }

    /** One pass of the drain: None when there is nothing left. */
    method Take() returns (sha: Option<string>)
      modifies this`pending
      ensures sha.None? <==> old(pending) == {}
      ensures sha.Some? ==> sha.value in old(pending) && pending == old(pending) - {sha.value}
      ensures sha.None? ==> pending == old(pending)
    {
      if pending == {} {
        return None;
      }
      ghost var member := SomeMember(pending);
      var k :| k in pending;
      pending := pending - {k};
      return Some(k);
    }
  }
}
