/** The store, its off-lock file operations and crashes as a transition system.
    Critical sections, file writes and file removals interleave freely. */
module StoreProtocol {
  import opened Prelude
  import opened Api
  import opened Store

  /** Where a persistRecord call or a removal's file deletions are. */
  datatype Op =
    | Hashing(w: Write)
    | Saving(w: Write)
    | Committing(w: Write)
    | Deleting(numbers: seq<int>)
    | Finished

  /** `leaked` collects the numbers of which a file deletion has failed. */
  datatype World = World(s: Tracked, files: map<int, Record>, ops: seq<Op>, leaked: set<int>)

  datatype Action =
    | Upsert(pr: PR, hidden: bool, now: int)
    | Relist(pr: PR, hidden: bool, now: int)
    | Transition(pr: PR, status: Status, now: int)
    | Succeed(number: int, result: DiffResult, now: int)
    | Fail(number: int, msg: string, now: int)
    | Close(number: int, when: int)
    | Drop(number: int)
    | Prune(numbers: seq<int>)
    | Advance(i: nat, fault: bool)
    | Restart

  function Init(): World
  {
    World(Tracked(map[], 0), map[], [], {})
  }

  predicate Enabled(w: World, a: Action)
  {
    match a
    case Transition(_, status, _) => status == Pending || status == Running
    case Prune(numbers) => forall n :: n in numbers ==> n in w.s.jobs && w.s.jobs[n].closedAt.Some?
    case Advance(i, _) => i < |w.ops| && !w.ops[i].Finished?
    case _ => true
  }

  function Begin(w: World, s: Tracked, write: Option<Write>): World
  {
    w.(s := s, ops := if write.Some? then w.ops + [Hashing(write.value)] else w.ops)
  }

  function Apply(w: World, a: Action): World
    requires Enabled(w, a)
  {
    match a
    case Upsert(pr, hidden, now) => w.(s := UpsertPR(w.s, pr, hidden, now))
    case Relist(pr, hidden, now) => w.(s := MarkOpen(w.s, pr, hidden, now).0)
    case Transition(pr, status, now) => w.(s := SetStatus(w.s, pr, status, now))
    case Succeed(n, result, now) => var (s, write) := SetResult(w.s, n, result, now); Begin(w, s, write)
    case Fail(n, msg, now) => w.(s := FailRender(w.s, n, msg, now).0)
    case Close(n, when) => var (s, write) := MarkClosed(w.s, n, when); Begin(w, s, write)
    case Drop(n) => w.(s := Remove(w.s, {n}), ops := w.ops + [Deleting([n])])
    case Prune(ns) => w.(s := Remove(w.s, set n | n in ns), ops := w.ops + [Deleting(ns)])
    case Advance(i, fault) => Proceed(w, i, fault)
    case Restart => World(LoadFrom(w.files, w.s.issued), w.files, [], {})
  }

  /** One atomic step of the i-th operation; `fault` makes a file operation fail. */
  function Proceed(w: World, i: nat, fault: bool): World
    requires i < |w.ops| && !w.ops[i].Finished?
  {
    match w.ops[i]
    case Hashing(write) =>
      var skip := write.prev == Some(Digest(write.rec));
      w.(s := NoteDigest(w.s, write), ops := w.ops[i := if skip then Finished else Saving(write)])
    case Saving(write) =>
      if fault then w.(ops := w.ops[i := Finished])
      else w.(files := w.files[write.rec.pr.number := write.rec], ops := w.ops[i := Committing(write)])
    case Committing(write) =>
      w.(s := NoteSaved(w.s, write),
         ops := w.ops[i := if Owns(w.s, write) then Finished else Deleting([write.rec.pr.number])])
    case Deleting(ns) =>
      if ns == [] then w.(ops := w.ops[i := Finished])
      else
        var rest := w.ops[i := Deleting(ns[1..])];
        if fault then w.(ops := rest, leaked := w.leaked + {ns[0]})
        else w.(ops := rest, files := w.files - {ns[0]})
  }

  function Run(w: World, acts: seq<Action>): Option<World>
  {
    if acts == [] then Some(w)
    else
      var before := Run(w, acts[..|acts| - 1]);
      var a := acts[|acts| - 1];
      if before.None? || !Enabled(before.value, a) then None else Some(Apply(before.value, a))
  }

  // ---- no file outlives its job ----

  /** The operation will look at, or remove, the file of `n`. */
  predicate Guards(op: Op, n: int)
  {
    match op
    case Committing(write) => write.rec.pr.number == n
    case Deleting(ns) => n in ns
    case _ => false
  }

  ghost predicate Guarded(w: World, n: int)
  {
    exists i :: 0 <= i < |w.ops| && Guards(w.ops[i], n)
  }

  ghost predicate NoOrphans(w: World)
  {
    forall n :: n in w.files ==> n in w.s.jobs || n in w.leaked || Guarded(w, n)
  }

  lemma StepNoOrphans(w: World, a: Action)
    requires NoOrphans(w) && Enabled(w, a)
    ensures NoOrphans(Apply(w, a))
  {
    var w' := Apply(w, a);
    forall n | n in w'.files && n !in w'.s.jobs && n !in w'.leaked
      ensures Guarded(w', n)
    {
      match a
      case Drop(_) =>
        assert n in w.s.jobs ==> Guards(w'.ops[|w.ops|], n);
        if n !in w.s.jobs {
          var i :| 0 <= i < |w.ops| && Guards(w.ops[i], n);
          assert w'.ops[i] == w.ops[i];
        }
      case Prune(_) =>
        assert n in w.s.jobs ==> Guards(w'.ops[|w.ops|], n);
        if n !in w.s.jobs {
          var i :| 0 <= i < |w.ops| && Guards(w.ops[i], n);
          assert w'.ops[i] == w.ops[i];
        }
      case Advance(k, fault) =>
        if w.ops[k].Saving? && w.ops[k].w.rec.pr.number == n && !fault {
          assert Guards(w'.ops[k], n);
        } else {
          var i :| 0 <= i < |w.ops| && Guards(w.ops[i], n);
          assert Guards(w'.ops[i], n);
        }
      case Restart =>
      case _ =>
        var i :| 0 <= i < |w.ops| && Guards(w.ops[i], n);
        assert w'.ops[i] == w.ops[i];
    }
  }

  lemma {:induction false} RunNoOrphans(acts: seq<Action>)
    requires Run(Init(), acts).Some?
    ensures NoOrphans(Run(Init(), acts).value)
  {
    if acts != [] {
      RunNoOrphans(acts[..|acts| - 1]);
      StepNoOrphans(Run(Init(), acts[..|acts| - 1]).value, acts[|acts| - 1]);
    }
  }

  ghost predicate Quiescent(w: World)
  {
    forall i :: 0 <= i < |w.ops| ==> w.ops[i].Finished?
  }

  lemma QuiescentGuardsNothing(w: World)
    requires Quiescent(w)
    ensures forall n :: !Guarded(w, n)
  {
  }

  /** Once nothing is in flight, a file without a live job is one whose removal
      failed; with removals succeeding, a restart brings back live jobs only. */
  lemma NothingResurrects(acts: seq<Action>, w: World)
    requires Run(Init(), acts) == Some(w) && Quiescent(w)
    ensures w.files.Keys <= w.s.jobs.Keys + w.leaked
    ensures w.leaked == {} ==> Apply(w, Restart).s.jobs.Keys <= w.s.jobs.Keys
  {
    RunNoOrphans(acts);
    QuiescentGuardsNothing(w);
    forall n | n in w.files
      ensures n in w.s.jobs || n in w.leaked
    {
      assert !Guarded(w, n);
    }
  }

  // ---- the shape of jobs and records ----

  predicate Shaped(status: Status, result: Option<DiffResult>, refreshErr: string, renderedAt: Option<int>)
  {
    && (status == Ready ==> result.Some?)
    && (status == Failed ==> result.None?)
    && (refreshErr != "" ==> result.Some?)
    && (result.Some? ==> renderedAt.Some?)
  }

  predicate JobOk(n: int, j: Job, issued: nat)
  {
    && j.pr.number == n && j.id < issued
    && Shaped(j.status, j.result, j.refreshErr, j.renderedAt)
    && j.signals == SignalsOf(j.result)
  }

  /** On disk an open record has always been rendered. */
  predicate RecordOk(n: int, r: Record)
  {
    && r.pr.number == n
    && Shaped(r.status, r.result, r.refreshErr, r.renderedAt)
    && (r.closedAt.None? ==> r.renderedAt.Some?)
  }

  function WriteOf(op: Op): Option<Write>
  {
    match op
    case Hashing(write) => Some(write)
    case Saving(write) => Some(write)
    case Committing(write) => Some(write)
    case _ => None
  }

  predicate OpOk(op: Op, issued: nat)
  {
    WriteOf(op).Some? ==> RecordOk(WriteOf(op).value.rec.pr.number, WriteOf(op).value.rec) && WriteOf(op).value.id < issued
  }

  ghost predicate WellShaped(w: World)
  {
    && (forall n :: n in w.s.jobs ==> JobOk(n, w.s.jobs[n], w.s.issued))
    && (forall n :: n in w.files ==> RecordOk(n, w.files[n]))
    && (forall i :: 0 <= i < |w.ops| ==> OpOk(w.ops[i], w.s.issued))
  }

  lemma StepWellShaped(w: World, a: Action)
    requires WellShaped(w) && Enabled(w, a)
    ensures WellShaped(Apply(w, a))
  {
    if a.Advance? {
      AdvanceWellShaped(w, a.i, a.fault);
    } else if !a.Restart? {
      MemoryStepWellShaped(w, a);
    }
  }

  lemma MemoryStepWellShaped(w: World, a: Action)
    requires WellShaped(w) && Enabled(w, a) && !a.Advance? && !a.Restart?
    ensures WellShaped(Apply(w, a))
  {
    if a.Succeed? || a.Close? {
      PersistWellShaped(w, a);
    } else if a.Drop? || a.Prune? {
      RemovalWellShaped(w, a);
    }
  }

  lemma PersistWellShaped(w: World, a: Action)
    requires WellShaped(w) && (a.Succeed? || a.Close?)
    ensures WellShaped(Apply(w, a))
  {
  }

  lemma RemovalWellShaped(w: World, a: Action)
    requires WellShaped(w) && Enabled(w, a) && (a.Drop? || a.Prune?)
    ensures WellShaped(Apply(w, a))
  {
  }

  lemma AdvanceWellShaped(w: World, i: nat, fault: bool)
    requires WellShaped(w) && i < |w.ops| && !w.ops[i].Finished?
    ensures WellShaped(Proceed(w, i, fault))
  {
    var w' := Proceed(w, i, fault);
    assert w'.ops == w.ops[i := w'.ops[i]];
  }

  /** In every reachable state, across any crashes: ready implies a result, a failure
      implies none, a refresh error implies one, and signals match the result. */
  lemma {:induction false} RunWellShaped(acts: seq<Action>)
    requires Run(Init(), acts).Some?
    ensures WellShaped(Run(Init(), acts).value)
  {
    if acts != [] {
      RunWellShaped(acts[..|acts| - 1]);
      StepWellShaped(Run(Init(), acts[..|acts| - 1]).value, acts[|acts| - 1]);
    }
  }

  // ---- the merged shelf and the last good render ----

  /** Actions that take `n` off the shelf or out of the store. */
  predicate Releases(a: Action, n: int)
  {
    match a
    case Relist(pr, _, _) => pr.number == n
    case Drop(m) => m == n
    case Prune(ns) => n in ns
    case Restart => true
    case _ => false
  }

  predicate SameRender(a: Job, b: Job)
  {
    && a.id == b.id && a.status == b.status && a.result == b.result && a.signals == b.signals
    && a.errMsg == b.errMsg && a.refreshErr == b.refreshErr && a.lastFailMsg == b.lastFailMsg
    && a.closedAt == b.closedAt && a.renderedAt == b.renderedAt
  }

  /** From its close until a relisting or a removal, no interleaving of queue and
      webhook steps changes anything about a merged job's render. */
  lemma {:induction false} ShelfIsFrozen(w: World, acts: seq<Action>, w': World, n: int)
    requires Run(w, acts) == Some(w')
    requires n in w.s.jobs && w.s.jobs[n].closedAt.Some?
    requires forall a :: a in acts ==> !Releases(a, n)
    ensures n in w'.s.jobs && SameRender(w.s.jobs[n], w'.s.jobs[n])
  {
    if acts != [] {
      var mid := Run(w, acts[..|acts| - 1]).value;
      ShelfIsFrozen(w, acts[..|acts| - 1], mid, n);
      assert acts[|acts| - 1] in acts;
      StepKeepsShelf(mid, acts[|acts| - 1], n);
    }
  }

  lemma StepKeepsShelf(w: World, a: Action, n: int)
    requires Enabled(w, a) && !Releases(a, n) && n in w.s.jobs && w.s.jobs[n].closedAt.Some?
    ensures var w' := Apply(w, a); n in w'.s.jobs && SameRender(w.s.jobs[n], w'.s.jobs[n])
  {
    match a
    case Advance(i, fault) => AdvanceKeepsShelf(w, i, fault, n);
    case _ =>
  }

  lemma AdvanceKeepsShelf(w: World, i: nat, fault: bool, n: int)
    requires i < |w.ops| && !w.ops[i].Finished? && n in w.s.jobs
    ensures var w' := Proceed(w, i, fault); n in w'.s.jobs && SameRender(w.s.jobs[n], w'.s.jobs[n])
  {
  }

  predicate Removes(a: Action, n: int)
  {
    Releases(a, n) && !a.Relist?
  }

  lemma StepKeepsResult(w: World, a: Action, n: int)
    requires Enabled(w, a) && !Removes(a, n) && n in w.s.jobs && w.s.jobs[n].result.Some?
    ensures var w' := Apply(w, a);
            && n in w'.s.jobs && w'.s.jobs[n].result.Some? && w'.s.jobs[n].id == w.s.jobs[n].id
            && (!(a.Succeed? && a.number == n) ==>
                  w'.s.jobs[n].result == w.s.jobs[n].result && w'.s.jobs[n].signals == w.s.jobs[n].signals)
  {
  }

  /** A stored diff is replaced by newer ones but never lost before removal. */
  lemma {:induction false} LastGoodRenderSurvives(w: World, acts: seq<Action>, w': World, n: int)
    requires Run(w, acts) == Some(w')
    requires n in w.s.jobs && w.s.jobs[n].result.Some?
    requires forall a :: a in acts ==> !Removes(a, n)
    ensures n in w'.s.jobs && w'.s.jobs[n].result.Some? && w'.s.jobs[n].id == w.s.jobs[n].id
    ensures (forall a :: a in acts ==> !(a.Succeed? && a.number == n)) ==>
              w'.s.jobs[n].result == w.s.jobs[n].result && w'.s.jobs[n].signals == w.s.jobs[n].signals
  {
    if acts != [] {
      var front, a := acts[..|acts| - 1], acts[|acts| - 1];
      var mid := Run(w, front).value;
      LastGoodRenderSurvives(w, front, mid, n);
      assert a in acts;
      StepKeepsResult(mid, a, n);
    }
  }

  // ---- stale operations ----

  lemma StepKeepsDead(w: World, a: Action, write: Write)
    requires Enabled(w, a) && write.id < w.s.issued && !Owns(w.s, write)
    ensures !Owns(Apply(w, a).s, write) && write.id < Apply(w, a).s.issued
  {
    var n := write.rec.pr.number;
    match a
    case Restart => assert n in w.files ==> Apply(w, a).s.jobs[n].id == w.s.issued;
    case _ => assert n in w.s.jobs && n in Apply(w, a).s.jobs ==> Apply(w, a).s.jobs[n].id == w.s.jobs[n].id;
  }

  /** Once the job an operation serves is gone, no later step ever mistakes a
      replacement for it: its digests stay out of the store for good. */
  lemma {:induction false} DeadWritesStayDead(w: World, acts: seq<Action>, w': World, write: Write)
    requires Run(w, acts) == Some(w')
    requires write.id < w.s.issued && !Owns(w.s, write)
    ensures !Owns(w'.s, write) && write.id < w'.s.issued
    ensures NoteDigest(w'.s, write) == w'.s && NoteSaved(w'.s, write) == w'.s
  {
    if acts != [] {
      var mid := Run(w, acts[..|acts| - 1]).value;
      DeadWritesStayDead(w, acts[..|acts| - 1], mid, write);
      StepKeepsDead(mid, acts[|acts| - 1], write);
    }
  }

  // ---- digests and the disk ----

  predicate Touches(op: Op, n: int)
  {
    match op
    case Deleting(ns) => n in ns
    case _ => WriteOf(op).Some? && WriteOf(op).value.rec.pr.number == n
  }

  /** No file operation on `n` is in flight. */
  ghost predicate Quiet(w: World, n: int)
  {
    forall i :: 0 <= i < |w.ops| ==> !Touches(w.ops[i], n)
  }

  /** Starting a file operation only where none on that number is in flight. */
  ghost predicate Serial(w: World, a: Action)
  {
    match a
    case Succeed(n, _, _) => Quiet(w, n)
    case Close(n, _) => Quiet(w, n)
    case Drop(n) => Quiet(w, n)
    case Prune(ns) => forall n :: n in ns ==> Quiet(w, n)
    case _ => true
  }

  /** A known digest on file is the digest of what the disk holds. */
  predicate DiskAgrees(w: World, n: int)
  {
    n in w.s.jobs && w.s.jobs[n].savedDigest.Some? ==>
      n in w.files && Digest(w.files[n]) == w.s.jobs[n].savedDigest.value
  }

  predicate OpAgrees(w: World, op: Op)
  {
    match op
    case Deleting(ns) => forall n :: n in ns ==> n !in w.s.jobs || w.s.jobs[n].savedDigest.None?
    case Committing(write) => Owns(w.s, write) && write.rec.pr.number in w.files && w.files[write.rec.pr.number] == write.rec
    case Finished => true
    case _ =>
      var write := WriteOf(op).value;
      Owns(w.s, write) && write.prev == w.s.jobs[write.rec.pr.number].savedDigest && DiskAgrees(w, write.rec.pr.number)
  }

  ghost predicate Orderly(w: World)
  {
    && (forall n :: Quiet(w, n) ==> DiskAgrees(w, n))
    && (forall i :: 0 <= i < |w.ops| ==> OpAgrees(w, w.ops[i]))
    && (forall i, j, n :: 0 <= i < j < |w.ops| && Touches(w.ops[i], n) ==> !Touches(w.ops[j], n))
  }

  ghost predicate SerialRun(w: World, acts: seq<Action>)
    requires Run(w, acts).Some?
  {
    acts == [] || (SerialRun(w, acts[..|acts| - 1]) && Serial(Run(w, acts[..|acts| - 1]).value, acts[|acts| - 1]))
  }

  /** What an operation on `n` relies on is the same in both states. */
  predicate SameAt(w: World, w': World, n: int)
  {
    && (n in w.s.jobs ==> n in w'.s.jobs && w'.s.jobs[n].id == w.s.jobs[n].id
                          && w'.s.jobs[n].savedDigest == w.s.jobs[n].savedDigest)
    && (n !in w.s.jobs && n in w'.s.jobs ==> w'.s.jobs[n].savedDigest.None?)
    && (n in w.files <==> n in w'.files)
    && (n in w.files ==> w'.files[n] == w.files[n])
  }

  lemma OpFrame(w: World, w': World, op: Op)
    requires OpAgrees(w, op)
    requires forall n :: Touches(op, n) ==> SameAt(w, w', n)
    ensures OpAgrees(w', op)
  {
    if op.Deleting? {
      assert forall n :: n in op.numbers ==> Touches(op, n);
    } else if WriteOf(op).Some? {
      assert Touches(op, WriteOf(op).value.rec.pr.number);
    }
  }

  /** Steps that touch neither operations nor files. */
  lemma LocalStepOrderly(w: World, w': World)
    requires Orderly(w) && w'.ops == w.ops && forall n :: SameAt(w, w', n)
    ensures Orderly(w')
  {
    forall i | 0 <= i < |w'.ops|
      ensures OpAgrees(w', w'.ops[i])
    {
      OpFrame(w, w', w.ops[i]);
    }
    forall n | Quiet(w', n)
      ensures DiskAgrees(w', n)
    {
      assert Quiet(w, n);
      assert SameAt(w, w', n);
    }
  }

  /** A step that starts one operation on numbers that were quiet. */
  lemma StartedOrderly(w: World, w': World, op: Op)
    requires Orderly(w) && w'.ops == w.ops + [op] && OpAgrees(w', op)
    requires forall n :: Touches(op, n) ==> Quiet(w, n)
    requires forall n :: !Touches(op, n) ==> SameAt(w, w', n)
    ensures Orderly(w')
  {
    forall i | 0 <= i < |w'.ops|
      ensures OpAgrees(w', w'.ops[i])
    {
      if i < |w.ops| {
        OpFrame(w, w', w.ops[i]);
      }
    }
    forall n | Quiet(w', n)
      ensures DiskAgrees(w', n)
    {
      assert w'.ops[|w.ops|] == op;
      assert forall i :: 0 <= i < |w.ops| ==> w'.ops[i] == w.ops[i];
      assert Quiet(w, n) && SameAt(w, w', n);
    }
  }

  /** A step of an operation concerns only the numbers it is about. */
  lemma ProceedFrame(w: World, i: nat, fault: bool)
    requires i < |w.ops| && !w.ops[i].Finished? && OpAgrees(w, w.ops[i])
    ensures var w' := Proceed(w, i, fault);
            && w'.ops == w.ops[i := w'.ops[i]]
            && (forall n :: Touches(w'.ops[i], n) ==> Touches(w.ops[i], n))
            && (forall n :: !Touches(w.ops[i], n) ==> SameAt(w, w', n))
  {
  }

  lemma ProceedAgrees(w: World, i: nat, fault: bool)
    requires i < |w.ops| && !w.ops[i].Finished? && OpAgrees(w, w.ops[i])
    ensures var w' := Proceed(w, i, fault);
            && OpAgrees(w', w'.ops[i])
            && (forall n :: Touches(w.ops[i], n) && !Touches(w'.ops[i], n) ==> DiskAgrees(w', n))
  {
  }

  /** A step of the i-th operation. */
  lemma ProceedOrderly(w: World, i: nat, fault: bool)
    requires Orderly(w) && i < |w.ops| && !w.ops[i].Finished?
    ensures Orderly(Proceed(w, i, fault))
  {
    var w' := Proceed(w, i, fault);
    assert OpAgrees(w, w.ops[i]);
    ProceedFrame(w, i, fault);
    ProceedAgrees(w, i, fault);
    forall k | 0 <= k < |w'.ops|
      ensures OpAgrees(w', w'.ops[k])
    {
      if k != i {
        OpFrame(w, w', w.ops[k]);
      }
    }
    forall n | Quiet(w', n)
      ensures DiskAgrees(w', n)
    {
      assert !Touches(w'.ops[i], n);
      if !Touches(w.ops[i], n) {
        assert forall k :: 0 <= k < |w.ops| && k != i ==> w'.ops[k] == w.ops[k];
        assert Quiet(w, n) && SameAt(w, w', n);
      }
    }
  }

  /** Persists start with what the store knows of the disk. */
  lemma PersistOrderly(w: World, a: Action, n: int)
    requires Orderly(w) && WellShaped(w) && Serial(w, a) && Open(w.s, n)
    requires (a.Succeed? && a.number == n) || (a.Close? && a.number == n)
    ensures Orderly(Apply(w, a))
  {
    var w' := Apply(w, a);
    StartedOrderly(w, w', w'.ops[|w.ops|]);
  }

  lemma RemovalOrderly(w: World, a: Action)
    requires Orderly(w) && Serial(w, a) && (a.Drop? || a.Prune?) && Enabled(w, a)
    ensures Orderly(Apply(w, a))
  {
    var w' := Apply(w, a);
    StartedOrderly(w, w', w'.ops[|w.ops|]);
  }

  /** Everything else changes neither files, operations nor what is known of the disk. */
  lemma MemoryStepOrderly(w: World, a: Action)
    requires Orderly(w) && Enabled(w, a)
    requires match a
             case Upsert(_, _, _) => true
             case Relist(_, _, _) => true
             case Transition(_, _, _) => true
             case Fail(_, _, _) => true
             case Succeed(n, _, _) => !Open(w.s, n)
             case Close(n, _) => !Open(w.s, n)
             case _ => false
    ensures Orderly(Apply(w, a))
  {
    LocalStepOrderly(w, Apply(w, a));
  }

  lemma StepOrderly(w: World, a: Action)
    requires Orderly(w) && WellShaped(w) && Enabled(w, a) && Serial(w, a)
    ensures Orderly(Apply(w, a))
  {
    match a
    case Advance(i, fault) => ProceedOrderly(w, i, fault);
    case Restart => RestartOrderly(w);
    case Succeed(n, _, _) => if Open(w.s, n) { PersistOrderly(w, a, n); } else { MemoryStepOrderly(w, a); }
    case Close(n, _) => if Open(w.s, n) { PersistOrderly(w, a, n); } else { MemoryStepOrderly(w, a); }
    case Drop(_) => RemovalOrderly(w, a);
    case Prune(_) => RemovalOrderly(w, a);
    case _ => MemoryStepOrderly(w, a);
  }

  lemma RestartOrderly(w: World)
    ensures Orderly(Apply(w, Restart))
  {
  }

  /** Where operations on one number never overlap, saves may fail at will and the
      program may crash at any point, and still a known digest is the disk's. */
  lemma {:induction false} SerialRunsAgree(acts: seq<Action>)
    requires Run(Init(), acts).Some? && SerialRun(Init(), acts)
    ensures Orderly(Run(Init(), acts).value)
    ensures var w := Run(Init(), acts).value;
            forall n :: Quiet(w, n) ==> DiskAgrees(w, n)
  {
    if acts != [] {
      var front := acts[..|acts| - 1];
      SerialRunsAgree(front);
      RunWellShaped(front);
      StepOrderly(Run(Init(), front).value, acts[|acts| - 1]);
    }
  }

  /** A write is skipped only when the disk already holds equal content; so a failed
      save is retried by the next identical render. */
  lemma SkippedWritesAreOnDisk(acts: seq<Action>, w: World, i: nat)
    requires Run(Init(), acts) == Some(w) && SerialRun(Init(), acts)
    requires i < |w.ops| && w.ops[i].Hashing? && Proceed(w, i, false).ops[i].Finished?
    ensures var rec := w.ops[i].w.rec;
            rec.pr.number in w.files && Digest(w.files[rec.pr.number]) == Digest(rec)
  {
    SerialRunsAgree(acts);
    assert OpAgrees(w, w.ops[i]);
  }

  // ---- what goes wrong when operations on one number overlap ----

  lemma RunOne(w: World, acts: seq<Action>, a: Action)
    requires Run(w, acts).Some? && Enabled(Run(w, acts).value, a)
    ensures Run(w, acts + [a]) == Some(Apply(Run(w, acts).value, a))
  {
    assert (acts + [a])[..|acts|] == acts;
  }

  /** A persist left to itself ends with its record on disk and its digest on file. */
  lemma PersistRuns(w: World, k: nat) returns (acts: seq<Action>, w': World)
    requires k < |w.ops| && w.ops[k].Hashing? && Owns(w.s, w.ops[k].w) && w.ops[k].w.prev != Some(Digest(w.ops[k].w.rec))
    ensures Run(w, acts) == Some(w') && (forall a :: a in acts ==> a.Advance?) && w'.ops == w.ops[k := Finished]
    ensures var n := w.ops[k].w.rec.pr.number;
            && n in w'.files && w'.files[n] == w.ops[k].w.rec
            && n in w'.s.jobs && w'.s.jobs[n].id == w.s.jobs[n].id && w'.s.jobs[n].result == w.s.jobs[n].result
            && w'.s.jobs[n].savedDigest == Some(Digest(w.ops[k].w.rec))
  {
    var w1 := Apply(w, Advance(k, false));
    var w2 := Apply(w1, Advance(k, false));
    w' := Apply(w2, Advance(k, false));
    acts := [Advance(k, false), Advance(k, false), Advance(k, false)];
    RunThrice(w, Advance(k, false));
  }

  lemma RunThrice(w: World, a: Action)
    requires Enabled(w, a) && Enabled(Apply(w, a), a) && Enabled(Apply(Apply(w, a), a), a)
    ensures Run(w, [a, a, a]) == Some(Apply(Apply(Apply(w, a), a), a))
  {
    RunOne(w, [], a);
    assert [] + [a] == [a];
    RunOne(w, [a], a);
    assert [a] + [a] == [a, a];
    RunOne(w, [a, a], a);
    assert [a, a] + [a] == [a, a, a];
  }

  function StepsLeft(op: Op): nat
  {
    match op
    case Hashing(_) => 5
    case Saving(_) => 4
    case Committing(_) => 3
    case Deleting(ns) => 1 + |ns|
    case Finished => 0
  }

  /** The only operation in flight, run to its end: its save fails, or its deletions do, as told. */
  function Alone(w: World, saveFails: bool, deleteFails: bool): World
    requires |w.ops| == 1
    decreases StepsLeft(w.ops[0])
  {
    if w.ops[0].Finished? then w
    else Alone(Proceed(w, 0, if w.ops[0].Saving? then saveFails else deleteFails), saveFails, deleteFails)
  }

  /** That is a run of the protocol. */
  lemma {:induction false} AloneIsARun(w: World, saveFails: bool, deleteFails: bool) returns (acts: seq<Action>)
    requires |w.ops| == 1
    ensures Run(w, acts) == Some(Alone(w, saveFails, deleteFails))
    ensures Alone(w, saveFails, deleteFails).ops == [Finished]
    decreases StepsLeft(w.ops[0])
  {
    if w.ops[0].Finished? {
      acts := [];
    } else {
      var a := Advance(0, if w.ops[0].Saving? then saveFails else deleteFails);
      var rest := AloneIsARun(Apply(w, a), saveFails, deleteFails);
      RunOne(w, [], a);
      assert [] + [a] == [a];
      RunConcat(w, [a], rest);
      acts := [a] + rest;
    }
  }

  lemma DeletingAlone(w: World, n: int, saveFails: bool, deleteFails: bool)
    requires w.ops == [Deleting([n])]
    ensures var end := Alone(w, saveFails, deleteFails);
            end.s == w.s && end.files == if deleteFails then w.files else w.files - {n}
  {
    var next := Proceed(w, 0, deleteFails);
    assert [n][1..] == [];
    assert next.ops == [Deleting([])];
    var last := Proceed(next, 0, deleteFails);
    assert Alone(last, saveFails, deleteFails) == last;
    assert Alone(next, saveFails, deleteFails) == last;
  }

  lemma CommittingAlone(w: World, write: Write, saveFails: bool, deleteFails: bool)
    requires w.ops == [Committing(write)]
    ensures var end, n := Alone(w, saveFails, deleteFails), write.rec.pr.number;
            && end.s == NoteSaved(w.s, write)
            && end.files == if Owns(w.s, write) || deleteFails then w.files else w.files - {n}
  {
    var next := Proceed(w, 0, deleteFails);
    if Owns(w.s, write) {
      assert next.ops == [Finished];
    } else {
      assert next.ops == [Deleting([write.rec.pr.number])];
      DeletingAlone(next, write.rec.pr.number, saveFails, deleteFails);
    }
  }

  lemma SavingAlone(w: World, write: Write, saveFails: bool, deleteFails: bool)
    requires w.ops == [Saving(write)]
    ensures var end, n := Alone(w, saveFails, deleteFails), write.rec.pr.number;
            if saveFails then end.s == w.s && end.files == w.files
            else
              && end.s == NoteSaved(w.s, write)
              && end.files == if Owns(w.s, write) || deleteFails then w.files[n := write.rec] else w.files - {n}
  {
    var next, n := Proceed(w, 0, saveFails), write.rec.pr.number;
    if saveFails {
      assert next.ops == [Finished];
    } else {
      assert next.ops == [Committing(write)];
      CommittingAlone(next, write, saveFails, deleteFails);
      assert w.files[n := write.rec] - {n} == w.files - {n};
    }
  }

  /** A whole `persistRecord` is its atomic steps with nothing in between: what
      `PersistAlone` says of it is where the protocol, run alone, ends. */
  lemma PersistAloneIsTheProtocol(s: Tracked, files: map<int, Record>, write: Write, saveFails: bool, deleteFails: bool)
    ensures var end := Alone(World(s, files, [Hashing(write)], {}), saveFails, deleteFails);
            (end.s, end.files) == PersistAlone(s, files, write, saveFails, deleteFails)
  {
    var w := World(s, files, [Hashing(write)], {});
    var next := Proceed(w, 0, deleteFails);
    if write.prev == Some(Digest(write.rec)) {
      assert next.ops == [Finished];
    } else {
      assert next.ops == [Saving(write)];
      SavingAlone(next, write, saveFails, deleteFails);
    }
  }

  /** Wherever a save has been written but not yet committed for an open job, closing
      that job and letting both operations finish, every file operation succeeding,
      leaves the digest of the overwritten record on file. */
  lemma OverlapBreaksAgreement(w: World, i: nat, when: int) returns (acts: seq<Action>, w': World)
    requires WellShaped(w) && i < |w.ops| && w.ops[i].Committing?
    requires Owns(w.s, w.ops[i].w) && Open(w.s, w.ops[i].w.rec.pr.number) && w.ops[i].w.rec.closedAt.None?
    requires var n := w.ops[i].w.rec.pr.number;
             w.s.jobs[n].savedDigest != Some(Digest(MarkClosed(w.s, n, when).1.value.rec))
    ensures Run(w, acts) == Some(w')
    ensures w'.ops == w.ops[i := Finished] + [Finished] && !DiskAgrees(w', w.ops[i].w.rec.pr.number)
  {
    var n, k := w.ops[i].w.rec.pr.number, |w.ops|;
    var closed := Apply(w, Close(n, when));
    assert closed.ops[k].w.rec.closedAt.Some? && closed.ops[i] == w.ops[i];
    var rest: seq<Action>;
    var mid: World;
    rest, mid := PersistRuns(closed, k);
    assert mid.ops[i] == w.ops[i];
    w' := Apply(mid, Advance(i, false));
    assert w'.files[n].closedAt.Some? && w'.s.jobs[n].savedDigest == Some(Digest(w.ops[i].w.rec));
    RunOne(w, [], Close(n, when));
    assert [] + [Close(n, when)] == [Close(n, when)];
    RunConcat(w, [Close(n, when)], rest);
    RunOne(w, [Close(n, when)] + rest, Advance(i, false));
    acts := [Close(n, when)] + rest + [Advance(i, false)];
  }

  /** A first render stopped between its write and its commit. */
  lemma FirstRenderMidSave(pr: PR, result: DiffResult) returns (acts: seq<Action>, w: World)
    ensures Run(Init(), acts) == Some(w)
    ensures |w.ops| == 1 && w.ops[0].Committing? && w.ops[0].w.rec.pr == pr && w.ops[0].w.rec.closedAt.None?
    ensures Owns(w.s, w.ops[0].w) && Open(w.s, pr.number) && w.s.jobs[pr.number].savedDigest.None?
  {
    var n := pr.number;
    var w1 := Apply(Init(), Upsert(pr, false, 1));
    var w2 := Apply(w1, Succeed(n, result, 2));
    var w3 := Apply(w2, Advance(0, false));
    w := Apply(w3, Advance(0, false));
    acts := [];
    RunOne(Init(), acts, Upsert(pr, false, 1));
    acts := acts + [Upsert(pr, false, 1)];
    RunOne(Init(), acts, Succeed(n, result, 2));
    acts := acts + [Succeed(n, result, 2)];
    RunOne(Init(), acts, Advance(0, false));
    acts := acts + [Advance(0, false)];
    RunOne(Init(), acts, Advance(0, false));
    acts := acts + [Advance(0, false)];
  }

  /** So agreement needs the operations not to overlap: a first render overlapping a
      merge ends, with nothing in flight, disagreeing with the disk. */
  lemma OverlapIsReachable(pr: PR, result: DiffResult) returns (acts: seq<Action>, w: World)
    ensures Run(Init(), acts) == Some(w) && Quiescent(w)
    ensures !DiskAgrees(w, pr.number)
  {
    var mid: World;
    acts, mid := FirstRenderMidSave(pr, result);
    RunWellShaped(acts);
    var rest: seq<Action>;
    rest, w := OverlapBreaksAgreement(mid, 0, 3);
    RunConcat(Init(), acts, rest);
    acts := acts + rest;
  }

  lemma {:induction false} RunConcat(w: World, a: seq<Action>, b: seq<Action>)
    requires Run(w, a).Some? && Run(Run(w, a).value, b).Some?
    ensures Run(w, a + b) == Run(Run(w, a).value, b)
  {
    if b == [] {
      assert a + b == a;
    } else {
      assert (a + b)[..|a + b| - 1] == a + b[..|b| - 1];
      RunConcat(w, a, b[..|b| - 1]);
    }
  }
}
