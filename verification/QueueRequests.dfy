/** What the queue owes the requests that are submitted to it, whatever becomes of them:
    until it closes none is turned away. */
module QueueRequests {
  import opened Prelude
  import opened Api
  import opened Coalescing
  import opened QueueProtocol

  /** The newest request for `n` among the actions of a run. */
  function LastSubmitted(acts: seq<Action>, n: int): Option<PR>
  {
    if acts == [] then None
    else
      var a := acts[|acts| - 1];
      if a.Request? && a.pr.number == n then Some(a.pr) else LastSubmitted(acts[..|acts| - 1], n)
  }

  function Submitted(acts: seq<Action>, n: int): nat
  {
    if acts == [] then 0
    else
      var a := acts[|acts| - 1];
      Submitted(acts[..|acts| - 1], n) + if a.Request? && a.pr.number == n then 1 else 0
  }

  /** A queue that is not closing accepts every request: on a number in flight it becomes
      the pending snapshot, whatever was pending; otherwise a worker is started for it. */
  lemma OpenQueueAccepts(concurrency: int, acts: seq<Action>, s: State, pr: PR)
    requires Run(Init(concurrency), acts) == Some(s) && !s.q.closing
    ensures var s' := Apply(s, Request(pr));
            && s'.log == s.log + [Accepted(pr)]
            && (HasWorker(s, pr.number) ==>
                  pr.number in s'.q.pending && s'.q.pending[pr.number] == pr && s'.tasks == s.tasks)
            && (!HasWorker(s, pr.number) ==>
                  && |s'.tasks| == |s.tasks| + 1 && s'.tasks[..|s.tasks|] == s.tasks && s'.q.pending == s.q.pending
                  && s'.tasks[|s.tasks|].pr == pr && s'.tasks[|s.tasks|].at == Announcing)
  {
    RunKeepsInv(concurrency, acts);
    assert HasWorker(s, pr.number) <==> pr.number in s.q.inflight;
  }

  /** A closing queue ignores every request. */
  lemma ClosingQueueRefuses(s: State, pr: PR)
    requires s.q.closing
    ensures Apply(s, Request(pr)) == s
  {
  }

  /** What `more` adds to the accepted requests of `n`. */
  ghost predicate Accounts(before: seq<Event>, after: seq<Event>, acts: seq<Action>, n: int)
  {
    && Requests(after, n) == Requests(before, n) + Submitted(acts, n)
    && LastAccepted(after, n) == if LastSubmitted(acts, n).Some? then LastSubmitted(acts, n) else LastAccepted(before, n)
  }

  /** What a move records. */
  function Recorded(t: Task, m: Move): seq<Event>
  {
    match m
    case Start => [Begun(t.pr)]
    case Conclude => [Ended(t.pr.number)]
    case Clear => [Abandoned(t.pr.number)]
    case _ => []
  }

  lemma MoveRecords(s: State, i: nat, m: Move)
    requires i < |s.tasks| && Ready(s, s.tasks[i], m)
    ensures ApplyMove(s, i, m).log == s.log + Recorded(s.tasks[i], m)
  {
  }

  lemma OtherEventAccounts(log: seq<Event>, e: Event, n: int)
    requires !e.Accepted?
    ensures Requests(log + [e], n) == Requests(log, n) && LastAccepted(log + [e], n) == LastAccepted(log, n)
  {
    assert (log + [e])[..|log|] == log;
  }

  lemma AcceptedAccounts(log: seq<Event>, pr: PR, n: int)
    ensures Requests(log + [Accepted(pr)], n) == Requests(log, n) + if pr.number == n then 1 else 0
    ensures LastAccepted(log + [Accepted(pr)], n) == if pr.number == n then Some(pr) else LastAccepted(log, n)
  {
    assert (log + [Accepted(pr)])[..|log|] == log;
  }

  lemma OneSubmitted(a: Action, n: int)
    ensures Submitted([a], n) == if a.Request? && a.pr.number == n then 1 else 0
    ensures LastSubmitted([a], n) == if a.Request? && a.pr.number == n then Some(a.pr) else None
  {
    assert [a][..0] == [];
  }

  lemma RequestAccounts(s: State, pr: PR, n: int)
    requires !s.q.closing
    ensures Accounts(s.log, Submit(s, pr).log, [Request(pr)], n)
  {
    OneSubmitted(Request(pr), n);
    AcceptedAccounts(s.log, pr, n);
  }

  lemma StepAccounts(s: State, a: Action, n: int)
    requires Enabled(s, a) && !s.q.closing
    ensures Accounts(s.log, Apply(s, a).log, [a], n)
  {
    OneSubmitted(a, n);
    match a
    case Request(pr) => RequestAccounts(s, pr, n);
    case Step(i, m) =>
      MoveRecords(s, i, m);
      if Recorded(s.tasks[i], m) != [] {
        OtherEventAccounts(s.log, Recorded(s.tasks[i], m)[0], n);
        assert Recorded(s.tasks[i], m) == [Recorded(s.tasks[i], m)[0]];
      } else {
        assert s.log + [] == s.log;
      }
    case _ =>
  }

  /** Until the queue closes, every submitted request is an accepted one. */
  lemma {:induction false} AllAreAccepted(s: State, acts: seq<Action>, s': State, n: int)
    requires Run(s, acts) == Some(s') && !s'.q.closing
    ensures !s.q.closing && Accounts(s.log, s'.log, acts, n)
  {
    if acts != [] {
      var front, a := acts[..|acts| - 1], acts[|acts| - 1];
      var mid := Run(s, front).value;
      StepGrowsLog(mid, a);
      AllAreAccepted(s, front, mid, n);
      StepAccounts(mid, a, n);
      OneSubmitted(a, n);
    }
  }

  /** Until shutdown the newest request ever submitted for a number is pending, or held by
      its worker, or (not in flight) the one last rendered. */
  lemma NewestRequestIsNeverLost(concurrency: int, acts: seq<Action>, s: State, n: int)
    requires Run(Init(concurrency), acts) == Some(s) && !s.cancelled && !s.q.closing
    ensures n in s.q.pending ==> LastSubmitted(acts, n) == Some(s.q.pending[n])
    ensures !HasWorker(s, n) ==> LastSubmitted(acts, n) == LastBegun(s.log, n)
    ensures forall i :: 0 <= i < |s.tasks| && Live(s.tasks[i]) && s.tasks[i].pr.number == n && n !in s.q.pending ==>
              LastSubmitted(acts, n) == Some(s.tasks[i].pr)
  {
    RunKeepsInv(concurrency, acts);
    Freshness(concurrency, acts, s, n);
    AllAreAccepted(Init(concurrency), acts, s, n);
  }

  /** The worker is in the round it was in, whose snapshot it has handed to the engine. */
  predicate InRound(s: State, i: nat, n: int)
  {
    && i < |s.tasks| && s.tasks[i].pr.number == n
    && (s.tasks[i].at == Rendering || s.tasks[i].at == Settling || s.tasks[i].at == Deciding)
  }

  lemma OwnMoveKeepsRound(s: State, i: nat, m: Move, n: int)
    requires InRound(s, i, n) && Ready(s, s.tasks[i], m) && !m.Conclude? && !s.cancelled
    ensures InRound(ApplyMove(s, i, m), i, n) && ApplyMove(s, i, m).log == s.log
  {
  }

  lemma OtherMoveKeepsRound(s: State, k: nat, m: Move, i: nat, n: int)
    requires Owned(s) && InRound(s, i, n) && k < |s.tasks| && k != i && Ready(s, s.tasks[k], m)
    ensures InRound(ApplyMove(s, k, m), i, n)
    ensures m.Conclude? ==> s.tasks[k].pr.number != n
  {
    MoveIsLocal(s, k, m);
    assert ApplyMove(s, k, m).tasks[i] == s.tasks[i];
    assert Live(s.tasks[i]) && (m.Conclude? ==> Live(s.tasks[k]));
  }

  lemma StepKeepsRound(s: State, a: Action, i: nat, n: int)
    requires Inv(s) && InRound(s, i, n) && Enabled(s, a) && a != Step(i, Conclude) && !s.cancelled
    ensures InRound(Apply(s, a), i, n)
    ensures forall k :: |s.log| <= k < |Apply(s, a).log| ==> Apply(s, a).log[k] != Ended(n)
  {
    match a
    case Step(k, m) =>
      if k == i {
        OwnMoveKeepsRound(s, i, m, n);
      } else {
        OtherMoveKeepsRound(s, k, m, i, n);
        MoveRecords(s, k, m);
      }
    case Request(pr) =>
    case _ =>
  }

  lemma StepKeepsCancelled(s: State, a: Action)
    requires Enabled(s, a) && s.cancelled
    ensures Apply(s, a).cancelled
  {
  }

  /** History was only extended, and not by an end of `n`'s round. */
  ghost predicate Continues(before: seq<Event>, after: seq<Event>, n: int)
  {
    && |before| <= |after| && after[..|before|] == before
    && forall k :: |before| <= k < |after| ==> after[k] != Ended(n)
  }

  lemma ContinuesOn(a: seq<Event>, b: seq<Event>, c: seq<Event>, n: int)
    requires Continues(a, b, n) && Continues(b, c, n)
    ensures Continues(a, c, n)
  {
    assert c[..|a|] == c[..|b|][..|a|];
    forall k | |a| <= k < |c|
      ensures c[k] != Ended(n)
    {
      assert k < |b| ==> c[..|b|][k] == b[k];
    }
  }

  lemma StepContinues(s: State, a: Action, i: nat, n: int)
    requires Inv(s) && InRound(s, i, n) && Enabled(s, a) && a != Step(i, Conclude) && !s.cancelled
    ensures Continues(s.log, Apply(s, a).log, n)
  {
    StepKeepsRound(s, a, i, n);
    StepGrowsLog(s, a);
  }

  /** While a worker has not concluded its round nothing ends a round of its number. */
  lemma {:induction false} RoundLasts(s: State, acts: seq<Action>, s': State, i: nat, n: int)
    requires Inv(s) && InRound(s, i, n) && Run(s, acts) == Some(s') && !s'.cancelled
    requires Step(i, Conclude) !in acts
    ensures Inv(s') && InRound(s', i, n) && Continues(s.log, s'.log, n)
  {
    if acts != [] {
      var front, a := acts[..|acts| - 1], acts[|acts| - 1];
      var mid := Run(s, front).value;
      if mid.cancelled {
        StepKeepsCancelled(mid, a);
      }
      RoundLasts(s, front, mid, i, n);
      assert a in acts;
      StepKeepsInv(mid, a);
      StepKeepsRound(mid, a, i, n);
      StepContinues(mid, a, i, n);
      ContinuesOn(s.log, mid.log, s'.log, n);
    }
  }

  lemma {:induction false} CountsAfter(before: seq<Event>, during: seq<Event>, n: int)
    ensures Requests(before + during, n) == Requests(before, n) + Requests(during, n)
    ensures LastAccepted(before + during, n) ==
            if LastAccepted(during, n).Some? then LastAccepted(during, n) else LastAccepted(before, n)
    ensures Requests(during, n) > 0 <==> LastAccepted(during, n).Some?
  {
    if during == [] {
      assert before + during == before;
    } else {
      assert (before + during)[..|before + during| - 1] == before + during[..|during| - 1];
      CountsAfter(before, during[..|during| - 1], n);
    }
  }

  /** However many requests are submitted while a render of `n` is in the engine, if none
      follows, exactly one more render is begun before the number is idle again, and it is
      of the newest of them. */
  lemma BurstOfRequestsCausesOneRender(concurrency: int, past: seq<Action>, s: State, during: seq<Action>, mid: State,
                                       after: seq<Action>, s': State, i: nat, n: int)
    requires Run(Init(concurrency), past) == Some(s) && i < |s.tasks| && s.tasks[i].at == Rendering && s.tasks[i].pr.number == n
    requires Run(s, during) == Some(mid) && Step(i, Conclude) !in during && Submitted(during, n) > 0
    requires Enabled(mid, Step(i, Conclude)) && Run(Apply(mid, Step(i, Conclude)), after) == Some(s')
    requires Submitted(after, n) == 0 && !HasWorker(s', n) && !s'.cancelled && !s'.q.closing
    ensures Renders(s'.log, n) == Renders(s.log, n) + 1 && LastBegun(s'.log, n) == LastSubmitted(during, n)
  {
    var acts := during + [Step(i, Conclude)] + after;
    NeverUndone(Apply(mid, Step(i, Conclude)), after, s');
    var held := WhileRendering(concurrency, past, s, during, mid, i, n);
    var rest := Afterwards(mid, i, n, after, s');
    assert s'.log == s.log + held + [Ended(n)] + rest;
    JoinRuns(s, during, mid, Step(i, Conclude), after, s');
    GoesIdle(concurrency, past, s, acts, s', n);
    BurstCausesOneRender(concurrency, past, s, acts, s', i, held, rest);
    OneMore(s.log, held, rest, n);
  }

  /** What is logged for `n` until its round ends: the submitted requests, and no end. */
  lemma WhileRendering(concurrency: int, past: seq<Action>, s: State, during: seq<Action>, mid: State, i: nat, n: int)
    returns (held: seq<Event>)
    requires Run(Init(concurrency), past) == Some(s) && InRound(s, i, n)
    requires Run(s, during) == Some(mid) && Step(i, Conclude) !in during && !mid.cancelled && !mid.q.closing
    ensures mid.log == s.log + held && Ended(n) !in held && InRound(mid, i, n)
    ensures Requests(held, n) == Submitted(during, n)
    ensures Submitted(during, n) > 0 ==> LastAccepted(held, n) == LastSubmitted(during, n)
  {
    RunKeepsInv(concurrency, past);
    RoundLasts(s, during, mid, i, n);
    held := Segment(s, during, mid, n);
  }

  /** What a run logs accounts for the requests submitted in it. */
  lemma Segment(s: State, acts: seq<Action>, s': State, n: int) returns (part: seq<Event>)
    requires Run(s, acts) == Some(s') && !s'.q.closing
    ensures s'.log == s.log + part && Requests(part, n) == Submitted(acts, n)
    ensures Submitted(acts, n) > 0 ==> LastAccepted(part, n) == LastSubmitted(acts, n)
  {
    LogOnlyGrows(s, acts);
    part := s'.log[|s.log|..];
    assert s'.log == s.log + part;
    AllAreAccepted(s, acts, s', n);
    CountsAfter(s.log, part, n);
    SubmittedWhenSome(acts, n);
  }

  lemma Afterwards(mid: State, i: nat, n: int, after: seq<Action>, s': State) returns (rest: seq<Event>)
    requires InRound(mid, i, n) && Ready(mid, mid.tasks[i], Conclude)
    requires Run(ApplyMove(mid, i, Conclude), after) == Some(s') && Submitted(after, n) == 0 && !s'.q.closing
    ensures s'.log == mid.log + [Ended(n)] + rest && Requests(rest, n) == 0
  {
    MoveRecords(mid, i, Conclude);
    rest := Segment(ApplyMove(mid, i, Conclude), after, s', n);
  }

  lemma {:induction false} SubmittedWhenSome(acts: seq<Action>, n: int)
    ensures Submitted(acts, n) > 0 <==> LastSubmitted(acts, n).Some?
  {
    if acts != [] {
      SubmittedWhenSome(acts[..|acts| - 1], n);
    }
  }

  lemma GoesIdle(concurrency: int, past: seq<Action>, s: State, acts: seq<Action>, s': State, n: int)
    requires Run(Init(concurrency), past) == Some(s) && Run(s, acts) == Some(s') && !HasWorker(s', n)
    ensures n !in s'.q.inflight
  {
    RunConcat(Init(concurrency), past, acts);
    RunKeepsInv(concurrency, past + acts);
  }

  lemma OneMore(before: seq<Event>, held: seq<Event>, rest: seq<Event>, n: int)
    requires Renders(held, n) == 0 && Renders(rest, n) == 1
    ensures Renders(before + held + [Ended(n)] + rest, n) == Renders(before, n) + 1
    ensures LastBegun(before + held + [Ended(n)] + rest, n) == LastBegun(rest, n)
  {
    RendersAfter(before, held, n);
    RendersAfter(before + held, [Ended(n)], n);
    RendersAfter(before + held + [Ended(n)], rest, n);
    assert [Ended(n)][..0] == [];
    BegunWhenRendered(rest, n);
  }

  lemma {:induction false} BegunWhenRendered(log: seq<Event>, n: int)
    ensures Renders(log, n) > 0 <==> LastBegun(log, n).Some?
  {
    if log != [] {
      BegunWhenRendered(log[..|log| - 1], n);
    }
  }

  /** Neither shutdown flag is ever taken back. */
  lemma {:induction false} NeverUndone(s: State, acts: seq<Action>, s': State)
    requires Run(s, acts) == Some(s')
    ensures s.cancelled ==> s'.cancelled
    ensures s.q.closing ==> s'.q.closing
  {
    if acts != [] {
      var mid := Run(s, acts[..|acts| - 1]).value;
      NeverUndone(s, acts[..|acts| - 1], mid);
      StepGrowsLog(mid, acts[|acts| - 1]);
    }
  }

  lemma RunOneMore(s: State, acts: seq<Action>, mid: State, a: Action)
    requires Run(s, acts) == Some(mid) && Enabled(mid, a)
    ensures Run(s, acts + [a]) == Some(Apply(mid, a))
  {
    assert (acts + [a])[..|acts|] == acts;
  }

  lemma JoinRuns(s: State, during: seq<Action>, mid: State, a: Action, after: seq<Action>, s': State)
    requires Run(s, during) == Some(mid) && Enabled(mid, a) && Run(Apply(mid, a), after) == Some(s')
    ensures Run(s, during + [a] + after) == Some(s')
  {
    RunOneMore(s, during, mid, a);
    RunConcat(s, during + [a], after);
  }

  lemma {:induction false} RendersAfter(before: seq<Event>, during: seq<Event>, n: int)
    ensures Renders(before + during, n) == Renders(before, n) + Renders(during, n)
    ensures LastBegun(before + during, n) == if LastBegun(during, n).Some? then LastBegun(during, n) else LastBegun(before, n)
  {
    if during == [] {
      assert before + during == before;
    } else {
      assert (before + during)[..|before + during| - 1] == before + during[..|during| - 1];
      RendersAfter(before, during[..|during| - 1], n);
    }
  }
}
