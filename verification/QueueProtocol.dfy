/** The render queue as a transition system: any number of workers interleave their
    critical sections, channel operations and engine calls one atomic step at a time. */
module QueueProtocol {
  import opened Prelude
  import opened Api
  import opened Queue
  import opened Coalescing

  /** Where a worker is. Announcing is the tail of `enqueue`, before `go run`. */
  datatype Point =
    | Announcing | Entering | AwaitToken | AwaitSlot | Starting
    | Rendering | Settling | Deciding | Clearing | Unwinding | Gone

  /** `begun` records whether `pr` has been handed to the engine in this round. */
  datatype Task = Task(pr: PR, at: Point, sweeping: bool, token: bool, slot: bool, begun: bool)

  /** `slots` and `tokens` count the entries in the two buffered channels. */
  datatype State = State(
    q: Locked, tasks: seq<Task>, slots: nat, tokens: nat,
    capacity: nat, cancelled: bool, log: seq<Event>)

  datatype Move =
    | Announce
    | Classify(sweeping: bool)
    | TakeToken
    | TakeSlot
    | Bail                     // the select picked ctx.Done()
    | Start
    | Return(cancelled: bool)  // the engine returned, with context.Canceled or otherwise
    | Settle
    | Conclude
    | Clear
    | ReleaseSlot
    | ReleaseToken
    | Depart

  datatype Action = Request(pr: PR) | Cancel | Close | Step(i: nat, m: Move)

  function Init(concurrency: int): State
  {
    State(Locked(false, {}, map[], 0), [], 0, 0, Capacity(concurrency), false, [])
  }

  predicate Ready(s: State, t: Task, m: Move)
  {
    match m
    case Announce => t.at == Announcing
    case Classify(_) => t.at == Entering
    case TakeToken => t.at == AwaitToken && s.tokens < 1
    case TakeSlot => t.at == AwaitSlot && s.slots < s.capacity
    case Bail => (t.at == AwaitToken || t.at == AwaitSlot) && s.cancelled
    case Start => t.at == Starting
    case Return(c) => t.at == Rendering && (c ==> s.cancelled)
    case Settle => t.at == Settling
    case Conclude => t.at == Deciding
    case Clear => t.at == Clearing
    case ReleaseSlot => t.at == Unwinding && t.slot && s.slots > 0
    case ReleaseToken => t.at == Unwinding && !t.slot && t.token && s.tokens > 0
    case Depart => t.at == Unwinding && !t.slot && !t.token && s.q.outstanding > 0
  }

  predicate Enabled(s: State, a: Action)
  {
    a.Step? ==> a.i < |s.tasks| && Ready(s, s.tasks[a.i], a.m)
  }

  function Put(s: State, i: nat, t: Task): State
    requires i < |s.tasks|
  {
    s.(tasks := s.tasks[i := t])
  }

  function Apply(s: State, a: Action): State
    requires Enabled(s, a)
  {
    match a
    case Request(pr) => Submit(s, pr)
    case Cancel => s.(cancelled := true)
    case Close => s.(q := s.q.(closing := true))
    case Step(i, m) => ApplyMove(s, i, m)
  }

  /** `enqueue`, up to and including its critical section. */
  function Submit(s: State, pr: PR): State
  {
    var (q, admission) := Admit(s.q, pr);
    match admission
    case Refused => s
    case Coalesced => s.(q := q, log := s.log + [Accepted(pr)])
    case Started =>
      s.(q := q, log := s.log + [Accepted(pr)],
         tasks := s.tasks + [Task(pr, Announcing, false, false, false, false)])
  }

  function ApplyMove(s: State, i: nat, m: Move): State
    requires i < |s.tasks| && Ready(s, s.tasks[i], m)
  {
    var t := s.tasks[i];
    match m
    case Announce => Put(s, i, t.(at := Entering))
    case Classify(sweeping) => Put(s, i, t.(at := if sweeping then AwaitToken else AwaitSlot, sweeping := sweeping))
    case TakeToken => Put(s, i, t.(at := AwaitSlot, token := true)).(tokens := s.tokens + 1)
    case TakeSlot => Put(s, i, t.(at := Starting, slot := true)).(slots := s.slots + 1)
    case Bail => Put(s, i, t.(at := Clearing))
    case Start => Put(s, i, t.(at := Rendering, begun := true)).(log := s.log + [Begun(t.pr)])
    case Return(cancelled) => Put(s, i, t.(at := if cancelled then Clearing else Settling))
    case Settle => Put(s, i, t.(at := Deciding))
    case Conclude =>
      var (q, next) := Decide(s.q, t.pr.number);
      Put(s, i, if next.Some? then t.(pr := next.value, at := Starting, begun := false)
                else t.(at := Unwinding)).(q := q, log := s.log + [Ended(t.pr.number)])
    case Clear =>
      Put(s, i, t.(at := Unwinding)).(q := Forget(s.q, t.pr.number), log := s.log + [Abandoned(t.pr.number)])
    case ReleaseSlot => Put(s, i, t.(slot := false)).(slots := s.slots - 1)
    case ReleaseToken => Put(s, i, t.(token := false)).(tokens := s.tokens - 1)
    case Depart => Put(s, i, t.(at := Gone)).(q := s.q.(outstanding := s.q.outstanding - 1))
  }

  /** The state a run of actions reaches, or None when one was not enabled. */
  function Run(s: State, acts: seq<Action>): Option<State>
  {
    if acts == [] then Some(s)
    else
      var before := Run(s, acts[..|acts| - 1]);
      var a := acts[|acts| - 1];
      if before.None? || !Enabled(before.value, a) then None else Some(Apply(before.value, a))
  }

  // ---- the invariant ----

  predicate Live(t: Task) { t.at != Unwinding && t.at != Gone }

  function Alive(t: Task): nat { if t.at == Gone then 0 else 1 }
  function HoldsSlot(t: Task): nat { if t.slot then 1 else 0 }
  function HoldsToken(t: Task): nat { if t.token then 1 else 0 }
  function InEngine(t: Task): nat { if t.at == Rendering then 1 else 0 }
  function SweepingInEngine(t: Task): nat { if t.at == Rendering && t.sweeping then 1 else 0 }

  /** What a worker holds at each point. */
  predicate Coherent(t: Task)
  {
    && (t.token ==> t.sweeping)
    && (t.slot ==> t.token == t.sweeping)
    && match t.at
       case Announcing | Entering => !t.token && !t.slot && !t.begun && !t.sweeping
       case AwaitToken => t.sweeping && !t.token && !t.slot && !t.begun
       case AwaitSlot => t.token == t.sweeping && !t.slot && !t.begun
       case Starting => t.slot && !t.begun
       case Rendering | Settling | Deciding => t.slot && t.begun
       case Clearing => t.begun == t.slot
       case Unwinding => true
       case Gone => !t.token && !t.slot
  }

  ghost predicate Counted(s: State)
  {
    && s.q.outstanding == Total(s.tasks, Alive)
    && s.slots == Total(s.tasks, HoldsSlot)
    && s.tokens == Total(s.tasks, HoldsToken)
    && s.slots <= s.capacity && s.tokens <= 1 && s.capacity >= 1
  }

  ghost predicate Owned(s: State)
  {
    && (forall i :: 0 <= i < |s.tasks| ==> Coherent(s.tasks[i]))
    && (forall i, j :: 0 <= i < j < |s.tasks| && Live(s.tasks[i]) && Live(s.tasks[j]) ==>
          s.tasks[i].pr.number != s.tasks[j].pr.number)
    && (forall i :: 0 <= i < |s.tasks| && Live(s.tasks[i]) ==> s.tasks[i].pr.number in s.q.inflight)
    && (forall n :: n in s.q.inflight ==> HasWorker(s, n))
    && (forall n :: n in s.q.pending ==> n in s.q.inflight && s.q.pending[n].number == n)
  }

  ghost predicate HasWorker(s: State, n: int)
  {
    exists i :: 0 <= i < |s.tasks| && Live(s.tasks[i]) && s.tasks[i].pr.number == n
  }

  function Waiting(q: Locked, n: int): Option<PR>
  {
    if n in q.pending then Some(q.pending[n]) else None
  }

  /** Each number's share of the queue is the coalescing cell its history describes. */
  ghost predicate Refines(s: State)
  {
    && (forall i :: 0 <= i < |s.tasks| && Live(s.tasks[i]) ==>
          Replay(s.log, s.tasks[i].pr.number) ==
          Some(Held(s.tasks[i].pr, s.tasks[i].begun, Waiting(s.q, s.tasks[i].pr.number))))
    && (forall n :: n !in s.q.inflight ==> Replay(s.log, n) == Some(Idle))
    && (!s.cancelled ==> forall n :: Undisturbed(s.log, n))
    && (!s.cancelled ==> forall i :: 0 <= i < |s.tasks| ==> s.tasks[i].at != Clearing)
  }

  ghost predicate Inv(s: State)
  {
    Counted(s) && Owned(s) && Refines(s)
  }

  lemma RequestCounted(s: State, pr: PR)
    requires Counted(s)
    ensures Counted(Submit(s, pr))
  {
    var t := Task(pr, Announcing, false, false, false, false);
    TotalAppend(s.tasks, t, Alive);
    TotalAppend(s.tasks, t, HoldsSlot);
    TotalAppend(s.tasks, t, HoldsToken);
  }

  /** A move changes each count by what its worker takes or gives back. */
  lemma MoveTallies(s: State, i: nat, m: Move)
    requires Counted(s) && i < |s.tasks| && Coherent(s.tasks[i]) && Ready(s, s.tasks[i], m)
    ensures var s' := ApplyMove(s, i, m);
            var t, t' := s.tasks[i], s'.tasks[i];
            && s'.tasks == s.tasks[i := t'] && s'.capacity == s.capacity
            && s'.q.outstanding + Alive(t) == s.q.outstanding + Alive(t')
            && s'.slots + HoldsSlot(t) == s.slots + HoldsSlot(t')
            && s'.tokens + HoldsToken(t) == s.tokens + HoldsToken(t')
            && s'.slots <= s.capacity && s'.tokens <= 1
  {
  }

  lemma MoveCounted(s: State, i: nat, m: Move)
    requires Counted(s) && i < |s.tasks| && Coherent(s.tasks[i]) && Ready(s, s.tasks[i], m)
    ensures Counted(ApplyMove(s, i, m))
  {
    MoveTallies(s, i, m);
    var t := ApplyMove(s, i, m).tasks[i];
    TotalUpdate(s.tasks, i, t, Alive);
    TotalUpdate(s.tasks, i, t, HoldsSlot);
    TotalUpdate(s.tasks, i, t, HoldsToken);
  }

  lemma RequestOwned(s: State, pr: PR)
    requires Owned(s)
    ensures Owned(Submit(s, pr))
  {
    var s' := Submit(s, pr);
    if Admit(s.q, pr).1.Started? {
      forall n | n in s'.q.inflight
        ensures HasWorker(s', n)
      {
        if n in s.q.inflight {
          var i :| 0 <= i < |s.tasks| && Live(s.tasks[i]) && s.tasks[i].pr.number == n;
          assert s'.tasks[i] == s.tasks[i];
        } else {
          assert Live(s'.tasks[|s.tasks|]);
        }
      }
    } else {
      assert forall n :: HasWorker(s, n) ==> HasWorker(s', n);
    }
  }

  /** One move changes one worker, keeps its number and its coherence, and revives nobody. */
  lemma MoveIsLocal(s: State, i: nat, m: Move)
    requires Owned(s) && i < |s.tasks| && Ready(s, s.tasks[i], m)
    ensures var s' := ApplyMove(s, i, m);
            && |s'.tasks| == |s.tasks| && s'.tasks == s.tasks[i := s'.tasks[i]]
            && Coherent(s'.tasks[i])
            && s'.tasks[i].pr.number == s.tasks[i].pr.number
            && (Live(s'.tasks[i]) ==> Live(s.tasks[i]))
            && s'.q.closing == s.q.closing
            && (m.Conclude? || m.Clear? || (s'.q.inflight == s.q.inflight && s'.q.pending == s.q.pending
                                            && Live(s'.tasks[i]) == Live(s.tasks[i])))
  {
  }

  /** What a move does to the in-flight set and the pending snapshots. */
  lemma MoveFrees(s: State, i: nat, m: Move)
    requires Owned(s) && i < |s.tasks| && Ready(s, s.tasks[i], m)
    ensures var s' := ApplyMove(s, i, m);
            var number := s.tasks[i].pr.number;
            && s'.q.inflight == (if Live(s.tasks[i]) && !Live(s'.tasks[i]) then s.q.inflight - {number} else s.q.inflight)
            && (forall n :: n in s'.q.pending ==> n in s.q.pending && s'.q.pending[n] == s.q.pending[n])
            && (number in s'.q.pending ==> Live(s.tasks[i]) == Live(s'.tasks[i]))
  {
  }

  lemma MoveOwned(s: State, i: nat, m: Move)
    requires Owned(s) && i < |s.tasks| && Ready(s, s.tasks[i], m)
    ensures Owned(ApplyMove(s, i, m))
  {
    MoveIsLocal(s, i, m);
    MoveFrees(s, i, m);
    OwnedAfter(s, ApplyMove(s, i, m), i);
  }

  lemma OwnedAfter(s: State, s': State, i: nat)
    requires Owned(s) && i < |s.tasks| == |s'.tasks| && s'.tasks == s.tasks[i := s'.tasks[i]]
    requires Coherent(s'.tasks[i]) && s'.tasks[i].pr.number == s.tasks[i].pr.number
    requires Live(s'.tasks[i]) ==> Live(s.tasks[i])
    requires s'.q.inflight == if Live(s.tasks[i]) && !Live(s'.tasks[i]) then s.q.inflight - {s.tasks[i].pr.number} else s.q.inflight
    requires forall n :: n in s'.q.pending ==> n in s.q.pending && s'.q.pending[n] == s.q.pending[n]
    requires s.tasks[i].pr.number in s'.q.pending ==> Live(s.tasks[i]) == Live(s'.tasks[i])
    ensures Owned(s')
  {
    forall n | n in s'.q.inflight
      ensures HasWorker(s', n)
    {
      var k :| 0 <= k < |s.tasks| && Live(s.tasks[k]) && s.tasks[k].pr.number == n;
      assert Live(s'.tasks[k]);
    }
  }

  lemma LoggedOne(s: State, s': State, e: Event)
    requires s'.log == s.log + [e]
    ensures forall n :: Replay(s'.log, n) ==
                        if Replay(s.log, n).None? || NumberOf(e) != n then Replay(s.log, n)
                        else CellStep(Replay(s.log, n).value, e)
    ensures forall n :: Undisturbed(s.log, n) && e != Abandoned(n) ==> Undisturbed(s'.log, n)
  {
    forall n {
      ReplayAppend(Idle, s.log, e, n);
    }
  }

  lemma RequestRefines(s: State, pr: PR)
    requires Owned(s) && Refines(s)
    ensures Refines(Submit(s, pr))
  {
    if !s.q.closing {
      LoggedOne(s, Submit(s, pr), Accepted(pr));
    }
  }

  lemma StartRefines(s: State, i: nat)
    requires Owned(s) && Refines(s) && i < |s.tasks| && Ready(s, s.tasks[i], Start)
    ensures Refines(ApplyMove(s, i, Start))
  {
    MoveIsLocal(s, i, Start);
    LoggedOne(s, ApplyMove(s, i, Start), Begun(s.tasks[i].pr));
  }

  lemma ConcludeRefines(s: State, i: nat)
    requires Owned(s) && Refines(s) && i < |s.tasks| && Ready(s, s.tasks[i], Conclude)
    ensures Refines(ApplyMove(s, i, Conclude))
  {
    MoveIsLocal(s, i, Conclude);
    LoggedOne(s, ApplyMove(s, i, Conclude), Ended(s.tasks[i].pr.number));
  }

  lemma ClearRefines(s: State, i: nat)
    requires Owned(s) && Refines(s) && i < |s.tasks| && Ready(s, s.tasks[i], Clear)
    ensures Refines(ApplyMove(s, i, Clear))
  {
    MoveIsLocal(s, i, Clear);
    LoggedOne(s, ApplyMove(s, i, Clear), Abandoned(s.tasks[i].pr.number));
  }

  /** A move that records nothing leaves its worker's snapshot and progress alone. */
  lemma QuietMove(s: State, i: nat, m: Move)
    requires Owned(s) && Refines(s) && i < |s.tasks| && Ready(s, s.tasks[i], m)
    requires !m.Start? && !m.Conclude? && !m.Clear?
    ensures var s' := ApplyMove(s, i, m);
            && s'.log == s.log && s'.cancelled == s.cancelled && s'.q.pending == s.q.pending && s'.q.inflight == s.q.inflight
            && (Live(s.tasks[i]) ==> s'.tasks[i].pr == s.tasks[i].pr && s'.tasks[i].begun == s.tasks[i].begun)
            && (s'.tasks[i].at == Clearing ==> s.cancelled || s.tasks[i].at == Clearing)
  {
  }

  lemma QuietRefines(s: State, i: nat, m: Move)
    requires Owned(s) && Refines(s) && i < |s.tasks| && Ready(s, s.tasks[i], m)
    requires !m.Start? && !m.Conclude? && !m.Clear?
    ensures Refines(ApplyMove(s, i, m))
  {
    MoveIsLocal(s, i, m);
    QuietMove(s, i, m);
  }

  lemma MoveRefines(s: State, i: nat, m: Move)
    requires Owned(s) && Refines(s) && i < |s.tasks| && Ready(s, s.tasks[i], m)
    ensures Refines(ApplyMove(s, i, m))
  {
    match m
    case Start => StartRefines(s, i);
    case Conclude => ConcludeRefines(s, i);
    case Clear => ClearRefines(s, i);
    case _ => QuietRefines(s, i, m);
  }

  lemma RequestKeepsInv(s: State, pr: PR)
    requires Inv(s)
    ensures Inv(Submit(s, pr))
  {
    RequestCounted(s, pr);
    RequestOwned(s, pr);
    RequestRefines(s, pr);
  }

  lemma MoveKeepsInv(s: State, i: nat, m: Move)
    requires Inv(s) && i < |s.tasks| && Ready(s, s.tasks[i], m)
    ensures Inv(ApplyMove(s, i, m))
  {
    MoveCounted(s, i, m);
    MoveOwned(s, i, m);
    MoveRefines(s, i, m);
  }

  lemma FlagKeepsInv(s: State, a: Action)
    requires Inv(s) && (a.Cancel? || a.Close?)
    ensures Inv(Apply(s, a))
  {
    assert forall n :: HasWorker(s, n) ==> HasWorker(Apply(s, a), n);
  }

  lemma StepKeepsInv(s: State, a: Action)
    requires Inv(s) && Enabled(s, a)
    ensures Inv(Apply(s, a))
  {
    match a
    case Request(pr) => RequestKeepsInv(s, pr);
    case Step(i, m) => MoveKeepsInv(s, i, m);
    case _ => FlagKeepsInv(s, a);
  }

  /** The invariant holds in every state of every run. */
  lemma {:induction false} RunKeepsInv(concurrency: int, acts: seq<Action>)
    requires Run(Init(concurrency), acts).Some?
    ensures Inv(Run(Init(concurrency), acts).value)
  {
    if acts != [] {
      RunKeepsInv(concurrency, acts[..|acts| - 1]);
      StepKeepsInv(Run(Init(concurrency), acts[..|acts| - 1]).value, acts[|acts| - 1]);
    }
  }

  // ---- what every run guarantees ----

  lemma StepGrowsLog(s: State, a: Action)
    requires Enabled(s, a)
    ensures var s' := Apply(s, a);
            && |s.log| <= |s'.log| && s'.log[..|s.log|] == s.log
            && s'.capacity == s.capacity && (s.q.closing ==> s'.q.closing)
  {
  }

  lemma {:induction false} LogOnlyGrows(s: State, acts: seq<Action>)
    requires Run(s, acts).Some?
    ensures |s.log| <= |Run(s, acts).value.log| && Run(s, acts).value.log[..|s.log|] == s.log
    ensures Run(s, acts).value.capacity == s.capacity
    ensures s.q.closing ==> Run(s, acts).value.q.closing
  {
    if acts != [] {
      LogOnlyGrows(s, acts[..|acts| - 1]);
      var mid := Run(s, acts[..|acts| - 1]).value;
      StepGrowsLog(mid, acts[|acts| - 1]);
      assert Run(s, acts).value.log[..|mid.log|][..|s.log|] == s.log;
    }
  }

  /** At most one render per number, at most `capacity` in all, at most one sweeping. */
  lemma RendersAreBounded(concurrency: int, acts: seq<Action>, s: State)
    requires Run(Init(concurrency), acts) == Some(s)
    ensures forall i, j :: 0 <= i < j < |s.tasks| && s.tasks[i].at == Rendering && s.tasks[j].at == Rendering ==>
              s.tasks[i].pr.number != s.tasks[j].pr.number
    ensures Total(s.tasks, InEngine) <= Capacity(concurrency)
    ensures Total(s.tasks, SweepingInEngine) <= 1
  {
    RunKeepsInv(concurrency, acts);
    LogOnlyGrows(Init(concurrency), acts);
    TotalMonotone(s.tasks, InEngine, HoldsSlot);
    TotalMonotone(s.tasks, SweepingInEngine, HoldsToken);
  }

  /** A worker waiting for the sweep token occupies no slot, and a slot holder never
      waits: its next move needs no channel. Queued sweeping renders therefore leave
      every slot to routine ones. */
  lemma SlotsAreNeverHeldWhileWaiting(concurrency: int, acts: seq<Action>, s: State, i: nat)
    requires Run(Init(concurrency), acts) == Some(s) && i < |s.tasks|
    ensures s.tasks[i].at == AwaitToken ==> !s.tasks[i].slot && !s.tasks[i].token
    ensures s.tasks[i].slot ==> Ready(s, s.tasks[i], NextMove(s.tasks[i]))
  {
    RunKeepsInv(concurrency, acts);
    TotalAtLeast(s.tasks, i, HoldsSlot);
  }

  /** The newest accepted request for a number is the pending snapshot, or the one
      its worker holds, or (not in flight) the one last rendered. */
  lemma Freshness(concurrency: int, acts: seq<Action>, s: State, n: int)
    requires Run(Init(concurrency), acts) == Some(s) && !s.cancelled
    ensures n in s.q.pending ==> LastAccepted(s.log, n) == Some(s.q.pending[n])
    ensures n !in s.q.inflight ==> LastAccepted(s.log, n) == LastBegun(s.log, n)
    ensures forall i :: 0 <= i < |s.tasks| && Live(s.tasks[i]) && s.tasks[i].pr.number == n && n !in s.q.pending ==>
              LastAccepted(s.log, n) == Some(s.tasks[i].pr)
    ensures n in s.q.inflight ==> HasWorker(s, n)
  {
    RunKeepsInv(concurrency, acts);
    if n in s.q.inflight {
      var i :| 0 <= i < |s.tasks| && Live(s.tasks[i]) && s.tasks[i].pr.number == n;
    }
    NewestIsNeverLost(s.log, n);
  }

  /** However many requests arrive while a render of `n` is in the engine, once its
      round ends and the number goes idle again there was exactly one more render,
      of the newest request. */
  lemma BurstCausesOneRender(concurrency: int, acts: seq<Action>, s: State, rest: seq<Action>, s': State, i: nat,
                             during: seq<Event>, after: seq<Event>)
    requires Run(Init(concurrency), acts) == Some(s) && i < |s.tasks| && s.tasks[i].at == Rendering
    requires Run(s, rest) == Some(s') && !s'.cancelled && s.tasks[i].pr.number !in s'.q.inflight
    requires var n := s.tasks[i].pr.number;
             && s'.log == s.log + during + [Ended(n)] + after
             && Ended(n) !in during && Requests(during, n) > 0 && Requests(after, n) == 0
    ensures var n := s.tasks[i].pr.number;
            && Renders(during, n) == 0 && Renders(after, n) == 1
            && LastBegun(after, n) == LastAccepted(during, n)
  {
    var n := s.tasks[i].pr.number;
    RunKeepsInv(concurrency, acts);
    RunConcat(Init(concurrency), acts, rest);
    RunKeepsInv(concurrency, acts + rest);
    assert Undisturbed(s'.log, n);
    BurstCollapses(s.log, during, after, n);
  }

  lemma {:induction false} RunConcat(s: State, a: seq<Action>, b: seq<Action>)
    requires Run(s, a).Some? && Run(Run(s, a).value, b).Some?
    ensures Run(s, a + b) == Run(Run(s, a).value, b)
  {
    if b == [] {
      assert a + b == a;
    } else {
      assert (a + b)[..|a + b| - 1] == a + b[..|b| - 1];
      RunConcat(s, a, b[..|b| - 1]);
    }
  }

  /** Whatever reaches the engine was accepted by `enqueue` before. */
  lemma {:induction false} RendersWereRequested(log: seq<Event>, n: int, k: nat)
    requires Replay(log, n).Some? && k < |log| && log[k].Begun? && log[k].pr.number == n
    ensures Accepted(log[k].pr) in log[..k]
    decreases |log|
  {
    if k < |log| - 1 {
      RendersWereRequested(log[..|log| - 1], n, k);
      assert log[..|log| - 1][..k] == log[..k];
    } else {
      HeldWasRequested(log[..k], n);
    }
  }

  lemma {:induction false} HeldWasRequested(log: seq<Event>, n: int)
    requires Replay(log, n).Some? && Replay(log, n).value.Held?
    ensures Accepted(Replay(log, n).value.cur) in log
    ensures Replay(log, n).value.next.Some? ==> Accepted(Replay(log, n).value.next.value) in log
  {
    var front := log[..|log| - 1];
    if Replay(front, n).value.Held? {
      HeldWasRequested(front, n);
    }
  }

  lemma MovesUnlessBlocked(s: State, i: nat)
    requires Counted(s) && i < |s.tasks| && Coherent(s.tasks[i]) && Alive(s.tasks[i]) > 0
    requires s.tasks[i].at == AwaitToken ==> s.tokens < 1
    requires s.tasks[i].at == AwaitSlot ==> s.slots < s.capacity
    ensures Ready(s, s.tasks[i], NextMove(s.tasks[i]))
  {
    TotalAtLeast(s.tasks, i, HoldsSlot);
    TotalAtLeast(s.tasks, i, HoldsToken);
    TotalAtLeast(s.tasks, i, Alive);
  }

  /** Before shutdown nothing can wedge: while a worker exists, some worker can move
      without waiting for shutdown. */
  lemma SomeoneCanMove(concurrency: int, acts: seq<Action>, s: State) returns (i: nat, m: Move)
    requires Run(Init(concurrency), acts) == Some(s) && s.q.outstanding > 0
    ensures Enabled(s, Step(i, m)) && !m.Bail?
  {
    RunKeepsInv(concurrency, acts);
    i := TotalWitness(s.tasks, Alive);
    if s.tasks[i].at == AwaitToken && s.tokens >= 1 {
      i := TotalWitness(s.tasks, HoldsToken);
    }
    if s.tasks[i].at == AwaitSlot && s.slots >= s.capacity {
      i := TotalWitness(s.tasks, HoldsSlot);
    }
    MovesUnlessBlocked(s, i);
    m := NextMove(s.tasks[i]);
  }

  function NextMove(t: Task): Move
  {
    match t.at
    case Announcing => Announce
    case Entering => Classify(false)
    case AwaitToken => TakeToken
    case AwaitSlot => TakeSlot
    case Starting => Start
    case Rendering => Return(false)
    case Settling => Settle
    case Deciding => Conclude
    case Clearing => Clear
    case Unwinding | Gone => if t.slot then ReleaseSlot else if t.token then ReleaseToken else Depart
  }

  // ---- draining ----

  /** The moves a worker has left if no further round is added. */
  function Ahead(t: Task): nat
  {
    match t.at
    case Announcing => 12
    case Entering => 11
    case AwaitToken => 10
    case AwaitSlot => 9
    case Starting => 8
    case Rendering => 7
    case Settling => 6
    case Deciding => 5
    case Clearing => 4
    case Unwinding => 1 + HoldsSlot(t) + HoldsToken(t)
    case Gone => 0
  }

  function Remaining(s: State): nat
  {
    Total(s.tasks, Ahead) + 4 * |s.q.pending|
  }

  function Moves(acts: seq<Action>): nat
  {
    if acts == [] then 0 else Moves(acts[..|acts| - 1]) + if acts[|acts| - 1].Step? then 1 else 0
  }

  lemma Dropped(m: map<int, PR>, n: int)
    ensures n in m ==> |m - {n}| == |m| - 1
    ensures n !in m ==> m - {n} == m
  {
    assert n in m ==> m == (m - {n})[n := m[n]];
  }

  lemma QuietUsesUp(s: State, i: nat, m: Move)
    requires Owned(s) && i < |s.tasks| && Ready(s, s.tasks[i], m) && !m.Conclude? && !m.Clear?
    ensures ApplyMove(s, i, m).q.pending == s.q.pending
    ensures Ahead(ApplyMove(s, i, m).tasks[i]) < Ahead(s.tasks[i])
  {
  }

  lemma ConcludeUsesUp(s: State, i: nat)
    requires Owned(s) && i < |s.tasks| && Ready(s, s.tasks[i], Conclude)
    ensures var s' := ApplyMove(s, i, Conclude);
            Ahead(s'.tasks[i]) + 4 * |s'.q.pending| < Ahead(s.tasks[i]) + 4 * |s.q.pending|
  {
    Dropped(s.q.pending, s.tasks[i].pr.number);
  }

  lemma ClearUsesUp(s: State, i: nat)
    requires Owned(s) && i < |s.tasks| && Ready(s, s.tasks[i], Clear)
    ensures var s' := ApplyMove(s, i, Clear);
            Ahead(s'.tasks[i]) + 4 * |s'.q.pending| < Ahead(s.tasks[i]) + 4 * |s.q.pending|
  {
    Dropped(s.q.pending, s.tasks[i].pr.number);
  }

  lemma MoveUsesUp(s: State, i: nat, m: Move)
    requires Owned(s) && i < |s.tasks| && Ready(s, s.tasks[i], m)
    ensures Remaining(ApplyMove(s, i, m)) < Remaining(s)
  {
    MoveIsLocal(s, i, m);
    TotalUpdate(s.tasks, i, ApplyMove(s, i, m).tasks[i], Ahead);
    match m
    case Conclude => ConcludeUsesUp(s, i);
    case Clear => ClearUsesUp(s, i);
    case _ => QuietUsesUp(s, i, m);
  }

  /** Once closing, a step neither adds work nor reopens the queue. */
  lemma StepDrains(s: State, a: Action)
    requires Inv(s) && s.q.closing && Enabled(s, a)
    ensures var s' := Apply(s, a);
            && s'.q.closing && s'.q.outstanding <= s.q.outstanding
            && (if a.Step? then Remaining(s') < Remaining(s) else Remaining(s') == Remaining(s))
  {
    if a.Step? {
      MoveIsLocal(s, a.i, a.m);
      MoveTallies(s, a.i, a.m);
      MoveOnlyLeaves(s, a.i, a.m);
      MoveUsesUp(s, a.i, a.m);
    }
  }

  lemma MoveOnlyLeaves(s: State, i: nat, m: Move)
    requires i < |s.tasks| && Ready(s, s.tasks[i], m)
    ensures Alive(ApplyMove(s, i, m).tasks[i]) <= Alive(s.tasks[i])
  {
  }

  /** Once closing, the outstanding count never rises and only finitely many moves
      remain, however requests keep arriving: `wait` returns. */
  lemma {:induction false} DrainTerminates(s: State, acts: seq<Action>, s': State)
    requires Inv(s) && s.q.closing && Run(s, acts) == Some(s')
    ensures Inv(s') && s'.q.closing
    ensures s'.q.outstanding <= s.q.outstanding
    ensures Moves(acts) + Remaining(s') <= Remaining(s)
  {
    if acts != [] {
      var mid := Run(s, acts[..|acts| - 1]).value;
      var a := acts[|acts| - 1];
      DrainTerminates(s, acts[..|acts| - 1], mid);
      StepKeepsInv(mid, a);
      StepDrains(mid, a);
    }
  }

  lemma NobodyLeft(ts: seq<Task>)
    requires Total(ts, Alive) == 0
    ensures forall i :: 0 <= i < |ts| ==> ts[i].at == Gone
  {
    forall i | 0 <= i < |ts|
      ensures ts[i].at == Gone
    {
      TotalAtLeast(ts, i, Alive);
    }
  }

  lemma EmptyWhenNobodyLeft(s: State)
    requires Owned(s) && forall i :: 0 <= i < |s.tasks| ==> s.tasks[i].at == Gone
    ensures s.q.inflight == {} && s.q.pending == map[]
  {
    assert forall n :: n in s.q.inflight ==> HasWorker(s, n);
    assert forall n :: !HasWorker(s, n);
    assert forall n :: n !in s.q.inflight;
    assert forall n :: n !in s.q.pending;
  }

  /** When the outstanding count is zero nothing is in flight or pending, no channel
      entry is held, and every worker is gone. */
  lemma DrainedIsEmpty(concurrency: int, acts: seq<Action>, s: State)
    requires Run(Init(concurrency), acts) == Some(s) && s.q.outstanding == 0
    ensures s.q.inflight == {} && s.q.pending == map[] && s.slots == 0 && s.tokens == 0
    ensures forall i :: 0 <= i < |s.tasks| ==> s.tasks[i].at == Gone
  {
    RunKeepsInv(concurrency, acts);
    NobodyLeft(s.tasks);
    EmptyWhenNobodyLeft(s);
    TotalMonotone(s.tasks, HoldsSlot, Alive);
    TotalMonotone(s.tasks, HoldsToken, Alive);
  }
}
