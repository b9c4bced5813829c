/** The render gate: handlers, store and queue composed into one transition system,
    to say which snapshots can ever reach the engine. */
module Pipeline {
  import opened Prelude
  import opened Api
  import Store
  import StoreProtocol
  import QueueProtocol
  import C = Coalescing

  /** `filter` evaluates the operator's expression; None is an evaluation error. */
  datatype Config = Config(renderForkPRs: bool, filter: Option<PR -> Option<bool>>)

  /** The fork gate first, whatever the expression says. */
  function Verdict(cfg: Config, pr: PR): Option<bool>
  {
    if pr.fork && !cfg.renderForkPRs then Some(false)
    else if cfg.filter.None? then Some(true)
    else cfg.filter.value(pr)
  }

  predicate Allowed(cfg: Config, pr: PR)
  {
    Verdict(cfg, pr) == Some(true)
  }

  /** What the two gates are for: a fork is rendered only where that is switched on, and
      with a filter only what the filter says yes to. */
  predicate Permitted(cfg: Config, pr: PR)
  {
    (pr.fork ==> cfg.renderForkPRs) && (cfg.filter.Some? ==> cfg.filter.value(pr) == Some(true))
  }

  /** `held` are the snapshots a handler has decided to enqueue. */
  datatype Pipe = Pipe(cfg: Config, q: QueueProtocol.State, s: Store.Tracked, held: set<PR>)

  datatype Outcome = Rendered(result: Store.DiffResult) | Errored(msg: string) | HeadGone

  datatype Action =
    | Fetched(pr: PR, now: int)     // refreshPR, or a head-gone callback, after its fetch
    | Listed(pr: PR, now: int)      // one entry of refreshList
    | Reconciled(pr: PR, now: int)  // an entry that left the open list
    | Dropped(number: int)
    | Pruned(numbers: set<int>)
    | Stale(number: int)
    | Enqueue(pr: PR)
    | Shutdown(close: bool)
    | Worker(i: nat, m: QueueProtocol.Move, outcome: Outcome, now: int)

  /** reconcileState: track an open PR, shelve an admitted merge, drop the rest. */
  function ReconcileState(cfg: Config, s: Store.Tracked, pr: PR, now: int): Store.Tracked
  {
    if pr.open then Store.UpsertPR(s, pr, !Allowed(cfg, pr), now)
    else if pr.merged && Allowed(cfg, pr) then Store.MarkClosed(s, pr.number, now).0
    else Store.Remove(s, {pr.number})
  }

  /** dropFilteredOnLoad: remove clean exclusions, keep evaluation errors. */
  function DropFiltered(cfg: Config, s: Store.Tracked): Store.Tracked
  {
    s.(jobs := map n | n in s.jobs && Verdict(cfg, s.jobs[n].pr) != Some(false) :: s.jobs[n])
  }

  function Init(cfg: Config, concurrency: int, files: map<int, Store.Record>): Pipe
  {
    Pipe(cfg, QueueProtocol.Init(concurrency), DropFiltered(cfg, Store.LoadFrom(files, 0)), {})
  }

  predicate IsStale(s: Store.Tracked, n: int)
  {
    n in s.jobs && !s.jobs[n].hidden && s.jobs[n].closedAt.None? && s.jobs[n].renderedAt.Some?
  }

  predicate Enabled(p: Pipe, a: Action)
  {
    match a
    case Pruned(ns) => forall n :: n in ns ==> n in p.s.jobs && p.s.jobs[n].closedAt.Some?
    case Stale(n) => IsStale(p.s, n)
    case Enqueue(pr) => pr in p.held
    case Worker(i, m, _, _) => QueueProtocol.Enabled(p.q, QueueProtocol.Step(i, m))
    case _ => true
  }

  /** What a worker's move does to the store. */
  function WorkerEffect(s: Store.Tracked, pr: PR, m: QueueProtocol.Move, outcome: Outcome, now: int): Store.Tracked
  {
    match m
    case Announce => Store.SetStatus(s, pr, Store.Pending, now)
    case Start => Store.SetStatus(s, pr, Store.Running, now)
    case Settle =>
      (match outcome
       case Rendered(result) => Store.SetResult(s, pr.number, result, now).0
       case Errored(msg) => Store.FailRender(s, pr.number, msg, now).0
       case HeadGone => s)
    case _ => s
  }

  function Apply(p: Pipe, a: Action): Pipe
    requires Enabled(p, a)
  {
    match a
    case Fetched(pr, now) =>
      if pr.open && Allowed(p.cfg, pr) then p.(s := Store.UpsertPR(p.s, pr, false, now), held := p.held + {pr})
      else p.(s := ReconcileState(p.cfg, p.s, pr, now))
    case Listed(pr, now) =>
      var allowed := Allowed(p.cfg, pr);
      p.(s := Store.MarkOpen(p.s, pr, !allowed, now).0, held := if allowed then p.held + {pr} else p.held)
    case Reconciled(pr, now) => p.(s := ReconcileState(p.cfg, p.s, pr, now))
    case Dropped(n) => p.(s := Store.Remove(p.s, {n}))
    case Pruned(ns) => p.(s := Store.Remove(p.s, ns))
    case Stale(n) => p.(held := p.held + {p.s.jobs[n].pr})
    case Enqueue(pr) => p.(q := QueueProtocol.Apply(p.q, QueueProtocol.Request(pr)))
    case Shutdown(close) => p.(q := QueueProtocol.Apply(p.q, if close then QueueProtocol.Close else QueueProtocol.Cancel))
    case Worker(i, m, outcome, now) =>
      p.(q := QueueProtocol.Apply(p.q, QueueProtocol.Step(i, m)),
         s := WorkerEffect(p.s, p.q.tasks[i].pr, m, outcome, now))
  }

  function Run(p: Pipe, acts: seq<Action>): Option<Pipe>
  {
    if acts == [] then Some(p)
    else
      var before := Run(p, acts[..|acts| - 1]);
      var a := acts[|acts| - 1];
      if before.None? || !Enabled(before.value, a) then None else Some(Apply(before.value, a))
  }

  // ---- what each handler decides ----

  /** Dropping on load keeps, unchanged, exactly the records that neither the fork gate nor
      the filter cleanly excludes. */
  lemma LoadKeepsExactly(cfg: Config, s: Store.Tracked, n: int)
    ensures n in DropFiltered(cfg, s).jobs <==>
            && n in s.jobs
            && (s.jobs[n].pr.fork ==> cfg.renderForkPRs)
            && (cfg.filter.Some? ==> cfg.filter.value(s.jobs[n].pr) != Some(false))
    ensures n in DropFiltered(cfg, s).jobs ==> DropFiltered(cfg, s).jobs[n] == s.jobs[n]
  {
    if n in s.jobs {
      var pr := s.jobs[n].pr;
      assert Verdict(cfg, pr) == Some(false) <==>
             (pr.fork && !cfg.renderForkPRs) || (cfg.filter.Some? && cfg.filter.value(pr) == Some(false));
    }
  }

  /** An open pull request that is fetched or listed is tracked; it is held for rendering,
      and shown, exactly when it is permitted. */
  lemma SeenOpenIsHeldExactly(p: Pipe, pr: PR, now: int, listed: bool)
    requires pr.open
    ensures var p' := Apply(p, if listed then Listed(pr, now) else Fetched(pr, now));
            && pr.number in p'.s.jobs && p'.s.jobs[pr.number].pr == pr
            && (p'.s.jobs[pr.number].hidden <==> !Permitted(p.cfg, pr))
            && p'.held == if Permitted(p.cfg, pr) then p.held + {pr} else p.held
  {
    assert Allowed(p.cfg, pr) <==> Permitted(p.cfg, pr);
  }

  /** One that is no longer open is never held; a permitted merge keeps its job, frozen, and
      anything else is dropped. */
  lemma SeenClosedIsShelvedOrDropped(p: Pipe, pr: PR, now: int, fetched: bool)
    requires !pr.open && Store.Keyed(p.s)
    ensures var p' := Apply(p, if fetched then Fetched(pr, now) else Reconciled(pr, now));
            && p'.held == p.held
            && (pr.merged && Permitted(p.cfg, pr) ==>
                  && p'.s.jobs.Keys == p.s.jobs.Keys
                  && (pr.number in p.s.jobs ==>
                        && p'.s.jobs[pr.number].result == p.s.jobs[pr.number].result
                        && p'.s.jobs[pr.number].closedAt ==
                           if p.s.jobs[pr.number].closedAt.Some? then p.s.jobs[pr.number].closedAt else Some(now)))
            && (!(pr.merged && Permitted(p.cfg, pr)) ==> p'.s.jobs == p.s.jobs - {pr.number})
  {
    assert Allowed(p.cfg, pr) <==> Permitted(p.cfg, pr);
  }

  /** What a worker's progress makes of an open job: pending when announced, running when
      started, then ready with the new result, or failed; a failure keeps an old result. */
  lemma ProgressIsStored(p: Pipe, i: nat, m: QueueProtocol.Move, outcome: Outcome, now: int)
    requires Enabled(p, Worker(i, m, outcome, now)) && Store.Open(p.s, p.q.tasks[i].pr.number)
    ensures var pr := p.q.tasks[i].pr;
            var o, s' := p.s.jobs[pr.number], Apply(p, Worker(i, m, outcome, now)).s;
            && pr.number in s'.jobs
            && (m.Announce? ==> s'.jobs[pr.number].status == Store.Pending && s'.jobs[pr.number].pr == pr)
            && (m.Start? ==> s'.jobs[pr.number].status == Store.Running && s'.jobs[pr.number].pr == pr)
            && (m.Settle? && outcome.Rendered? ==>
                  s'.jobs[pr.number].status == Store.Ready && s'.jobs[pr.number].result == Some(outcome.result))
            && (m.Settle? && outcome.Errored? ==>
                  && s'.jobs[pr.number].result == o.result
                  && (o.result.None? ==> s'.jobs[pr.number].status == Store.Failed && s'.jobs[pr.number].errMsg == outcome.msg)
                  && (o.result.Some? ==> s'.jobs[pr.number].status == o.status && s'.jobs[pr.number].refreshErr == outcome.msg))
            && (m.Settle? && outcome.HeadGone? ==> s' == p.s)
            && (!m.Announce? && !m.Start? && !m.Settle? ==> s' == p.s)
  {
  }

  // ---- the gate ----

  ghost predicate RendersAdmitted(p: Pipe)
  {
    forall pr :: C.Begun(pr) in p.q.log ==> Permitted(p.cfg, pr)
  }

  /** Open and not hidden implies permitted, and so does being on the way to the engine. */
  ghost predicate Gated(p: Pipe)
  {
    && (forall n :: n in p.s.jobs && p.s.jobs[n].closedAt.None? && !p.s.jobs[n].hidden ==> Permitted(p.cfg, p.s.jobs[n].pr))
    && (forall pr :: pr in p.held ==> Permitted(p.cfg, pr))
    && (forall n :: n in p.q.q.pending ==> Permitted(p.cfg, p.q.q.pending[n]))
    && (forall i :: 0 <= i < |p.q.tasks| ==> Permitted(p.cfg, p.q.tasks[i].pr))
    && RendersAdmitted(p)
  }

  lemma WorkerGated(p: Pipe, i: nat, m: QueueProtocol.Move, outcome: Outcome, now: int)
    requires Gated(p) && Enabled(p, Worker(i, m, outcome, now))
    ensures Gated(Apply(p, Worker(i, m, outcome, now)))
  {
    var p' := Apply(p, Worker(i, m, outcome, now));
    assert p'.q.tasks == p.q.tasks[i := p'.q.tasks[i]];
    assert Permitted(p.cfg, p.q.tasks[i].pr);
  }

  lemma StepGated(p: Pipe, a: Action)
    requires Gated(p) && Enabled(p, a)
    ensures Gated(Apply(p, a))
  {
    if a.Worker? {
      WorkerGated(p, a.i, a.m, a.outcome, a.now);
    }
  }

  /** A restored open record that the fork gate lets pass and on which the filter errs. */
  ghost predicate Unjudged(cfg: Config, files: map<int, Store.Record>, n: int)
  {
    && n in files && files[n].closedAt.None?
    && (files[n].pr.fork ==> cfg.renderForkPRs)
    && cfg.filter.Some? && cfg.filter.value(files[n].pr).None?
  }

  /** Over every run from judged files whatever reaches the engine is permitted: no fork
      unless forks are switched on, and nothing the filter does not say yes to. */
  lemma {:induction false} RunGated(cfg: Config, concurrency: int, files: map<int, Store.Record>, acts: seq<Action>)
    requires Run(Init(cfg, concurrency, files), acts).Some?
    requires forall n :: !Unjudged(cfg, files, n)
    ensures Gated(Run(Init(cfg, concurrency, files), acts).value)
    ensures Run(Init(cfg, concurrency, files), acts).value.cfg == cfg
  {
    if acts == [] {
      var p := Init(cfg, concurrency, files);
      forall n | n in p.s.jobs && p.s.jobs[n].closedAt.None?
        ensures Permitted(cfg, p.s.jobs[n].pr)
      {
        assert !Unjudged(cfg, files, n);
        LoadKeepsExactly(cfg, Store.LoadFrom(files, 0), n);
        if cfg.filter.Some? {
          var answer := cfg.filter.value(files[n].pr);
          assert answer.Some? && answer != Some(false);
          assert !answer.value ==> answer == Some(false);
        }
      }
    } else {
      RunGated(cfg, concurrency, files, acts[..|acts| - 1]);
      StepGated(Run(Init(cfg, concurrency, files), acts[..|acts| - 1]).value, acts[|acts| - 1]);
    }
  }

  ghost predicate GateHolds(cfg: Config, concurrency: int, files: map<int, Store.Record>)
  {
    forall acts :: Run(Init(cfg, concurrency, files), acts).Some? ==>
      RendersAdmitted(Run(Init(cfg, concurrency, files), acts).value)
  }

  lemma RunOne(p: Pipe, acts: seq<Action>, a: Action)
    requires Run(p, acts).Some? && Enabled(Run(p, acts).value, a)
    ensures Run(p, acts + [a]) == Some(Apply(Run(p, acts).value, a))
  {
    assert (acts + [a])[..|acts|] == acts;
  }

  /** A worker announced on an idle queue reaches the engine. */
  lemma AnnouncedReachesEngine(p0: Pipe, acts: seq<Action>, pr: PR) returns (longer: seq<Action>)
    requires Run(p0, acts).Some?
    requires var p := Run(p0, acts).value;
             && p.q.tasks == [QueueProtocol.Task(pr, QueueProtocol.Announcing, false, false, false, false)]
             && p.q.slots < p.q.capacity
    ensures Run(p0, longer).Some? && Run(p0, longer).value.cfg == Run(p0, acts).value.cfg
    ensures C.Begun(pr) in Run(p0, longer).value.q.log
  {
    longer := Extend(p0, acts, Worker(0, QueueProtocol.Announce, HeadGone, 0));
    longer := Extend(p0, longer, Worker(0, QueueProtocol.Classify(false), HeadGone, 0));
    longer := Extend(p0, longer, Worker(0, QueueProtocol.TakeSlot, HeadGone, 0));
    longer := Extend(p0, longer, Worker(0, QueueProtocol.Start, HeadGone, 0));
    var log := Run(p0, longer).value.q.log;
    assert log[|log| - 1] == C.Begun(pr);
  }

  /** A kept record the filter cannot judge goes stale and is rendered unadmitted. */
  lemma UnjudgedIsRendered(cfg: Config, concurrency: int, files: map<int, Store.Record>, n: int) returns (acts: seq<Action>)
    requires Unjudged(cfg, files, n) && StoreProtocol.RecordOk(n, files[n])
    ensures Run(Init(cfg, concurrency, files), acts).Some?
    ensures !RendersAdmitted(Run(Init(cfg, concurrency, files), acts).value)
  {
    var p, pr := Init(cfg, concurrency, files), files[n].pr;
    assert n in p.s.jobs && p.s.jobs[n].pr == pr;
    acts := [];
    acts := Extend(p, acts, Stale(n));
    acts := Extend(p, acts, Enqueue(pr));
    acts := AnnouncedReachesEngine(p, acts, pr);
    assert !Permitted(cfg, pr);
  }

  lemma Extend(p: Pipe, acts: seq<Action>, a: Action) returns (longer: seq<Action>)
    requires Run(p, acts).Some? && Enabled(Run(p, acts).value, a)
    ensures Run(p, longer) == Some(Apply(Run(p, acts).value, a))
  {
    longer := acts + [a];
    RunOne(p, acts, a);
  }

  /** Over the files any past history can leave on disk: every snapshot ever rendered
      was permitted exactly when no restored open record makes the
      filter err. In particular a filter that never errs is never bypassed. */
  lemma GateHoldsExactlyWhenJudged(cfg: Config, concurrency: int, past: seq<StoreProtocol.Action>, w: StoreProtocol.World)
    requires StoreProtocol.Run(StoreProtocol.Init(), past) == Some(w)
    ensures GateHolds(cfg, concurrency, w.files) <==> forall n :: !Unjudged(cfg, w.files, n)
  {
    StoreProtocol.RunWellShaped(past);
    if forall n :: !Unjudged(cfg, w.files, n) {
      forall acts | Run(Init(cfg, concurrency, w.files), acts).Some?
        ensures RendersAdmitted(Run(Init(cfg, concurrency, w.files), acts).value)
      {
        RunGated(cfg, concurrency, w.files, acts);
      }
    } else {
      var n :| Unjudged(cfg, w.files, n);
      var acts := UnjudgedIsRendered(cfg, concurrency, w.files, n);
    }
  }
}
