/** Which overlapping persists and removals can leave a known digest that is not the disk's. */
module StoreOverlaps {
  import opened Prelude
  import opened Api
  import opened Store
  import opened StoreProtocol

  // ---- what an operation in flight will do to one number ----

  /** The operation is a write that is not going to be skipped. */
  predicate Effective(op: Op)
  {
    match op
    case Hashing(write) => write.prev != Some(Digest(write.rec))
    case _ => WriteOf(op).Some?
  }

  /** A write for the live job, a file removal to come, or nothing that matters to the
      number. The write of a job that is gone ends by removing the file. */
  datatype Role = Idle | Serves(digest: Content, written: bool) | Removes

  function RoleOf(s: Tracked, op: Op, n: int): Role
  {
    if op.Deleting? then
      if n in op.numbers then Removes else Idle
    else if !Effective(op) || WriteOf(op).value.rec.pr.number != n then Idle
    else if Owns(s, WriteOf(op).value) then Serves(Digest(WriteOf(op).value.rec), op.Committing?)
    else Removes
  }

  function At(w: World, i: nat, n: int): Role
    requires i < |w.ops|
  {
    RoleOf(w.s, w.ops[i], n)
  }

  /** Both may be in flight on one number: writes of equal content, or removals. */
  predicate Compatible(a: Role, b: Role)
  {
    match (a, b)
    case (Serves(d, _), Serves(e, _)) => d == e
    case (Serves(_, _), Removes) => false
    case (Removes, Serves(_, _)) => false
    case _ => true
  }

  /** The write is skipped, or fits everything in flight on its number. */
  ghost predicate Fits(w: World, write: Write)
  {
    write.prev != Some(Digest(write.rec)) ==>
      forall i :: 0 <= i < |w.ops| ==> Compatible(Serves(Digest(write.rec), false), At(w, i, write.rec.pr.number))
  }

  /** The write the action starts, if any. */
  function Started(w: World, a: Action): Option<Write>
  {
    match a
    case Succeed(n, result, now) => SetResult(w.s, n, result, now).1
    case Close(n, when) => MarkClosed(w.s, n, when).1
    case _ => None
  }

  /** Only starting a write can be unclean; removals may overlap anything. */
  ghost predicate Clean(w: World, a: Action)
  {
    Started(w, a).Some? ==> Fits(w, Started(w, a).value)
  }

  ghost predicate CleanRun(w: World, acts: seq<Action>)
    requires Run(w, acts).Some?
  {
    acts == [] || (CleanRun(w, acts[..|acts| - 1]) && Clean(Run(w, acts[..|acts| - 1]).value, acts[|acts| - 1]))
  }

  // ---- clean runs agree with the disk ----

  predicate Unknown(w: World, n: int)
  {
    n in w.s.jobs ==> w.s.jobs[n].savedDigest.None?
  }

  predicate Allowed(w: World, r: Role, n: int)
  {
    match r
    case Serves(d, written) => written ==> n in w.files && Digest(w.files[n]) == d
    case Removes => Unknown(w, n)
    case Idle => true
  }

  predicate Written(r: Role)
  {
    r.Serves? && r.written
  }

  /** The disk agrees, or is about to be made to. */
  ghost predicate Agreeing(w: World, n: int)
  {
    DiskAgrees(w, n) || exists i :: 0 <= i < |w.ops| && Written(At(w, i, n))
  }

  ghost predicate Settled(w: World, n: int)
  {
    && (forall i :: 0 <= i < |w.ops| ==> Allowed(w, At(w, i, n), n))
    && (forall i, j :: 0 <= i < |w.ops| && 0 <= j < |w.ops| ==> Compatible(At(w, i, n), At(w, j, n)))
    && Agreeing(w, n)
  }

  /** Nothing that matters to `n` changes, but for operations that start or end idle on it. */
  lemma SettledFrame(w: World, w': World, n: int)
    requires Settled(w, n) && SameAt(w, w', n) && |w.ops| <= |w'.ops|
    requires forall i :: 0 <= i < |w'.ops| ==> At(w', i, n).Idle? || (i < |w.ops| && At(w', i, n) == At(w, i, n))
    requires forall i :: 0 <= i < |w.ops| && Written(At(w, i, n)) ==> At(w', i, n) == At(w, i, n)
    ensures Settled(w', n)
  {
    if !DiskAgrees(w, n) {
      var i :| 0 <= i < |w.ops| && Written(At(w, i, n));
      assert Written(At(w', i, n));
    }
  }

  lemma OwnerKept(w: World, a: Action, op: Op, n: int)
    requires WellShaped(w) && Enabled(w, a) && OpOk(op, w.s.issued) && SameAt(w, Apply(w, a), n)
    ensures RoleOf(Apply(w, a).s, op, n) == RoleOf(w.s, op, n)
  {
    if WriteOf(op).Some? && WriteOf(op).value.rec.pr.number == n && !Owns(w.s, WriteOf(op).value) {
      StepKeepsDead(w, a, WriteOf(op).value);
    }
  }

  /** Steps that start at most one operation, idle on `n`. */
  lemma ElsewhereSettled(w: World, a: Action, n: int)
    requires WellShaped(w) && Enabled(w, a) && Settled(w, n)
    requires var w' := Apply(w, a);
             && SameAt(w, w', n) && |w.ops| <= |w'.ops| <= |w.ops| + 1 && w'.ops[..|w.ops|] == w.ops
             && (|w'.ops| > |w.ops| ==> At(w', |w.ops|, n).Idle?)
    ensures Settled(Apply(w, a), n)
  {
    var w' := Apply(w, a);
    forall i | 0 <= i < |w.ops|
      ensures At(w', i, n) == At(w, i, n)
    {
      assert w'.ops[i] == w'.ops[..|w.ops|][i];
      OwnerKept(w, a, w.ops[i], n);
    }
    SettledFrame(w, w', n);
  }

  /** A write that fits starts on `n`. */
  lemma StartSettled(w: World, a: Action, n: int)
    requires WellShaped(w) && Settled(w, n) && Clean(w, a)
    requires Started(w, a).Some? && Started(w, a).value.rec.pr.number == n
    ensures Settled(Apply(w, a), n)
  {
    var w', k, write := Apply(w, a), |w.ops|, Started(w, a).value;
    if write.prev == Some(Digest(write.rec)) {
      ElsewhereSettled(w, a, n);
    } else {
      assert At(w', k, n) == Serves(Digest(write.rec), false);
      forall i | 0 <= i < k
        ensures At(w', i, n) == At(w, i, n) && Compatible(At(w', k, n), At(w', i, n))
      {
        OwnerKept(w, a, w.ops[i], n);
        assert w'.ops[i] == w.ops[i];
      }
      if !DiskAgrees(w, n) {
        var i :| 0 <= i < |w.ops| && Written(At(w, i, n));
        assert Written(At(w', i, n));
      }
    }
  }

  lemma RemovedSettled(w: World, n: int)
    requires n !in w.s.jobs
    ensures Settled(w, n)
  {
  }

  lemma MemoryStepSettled(w: World, a: Action, n: int)
    requires WellShaped(w) && Settled(w, n) && Enabled(w, a) && Clean(w, a) && !a.Advance? && !a.Restart?
    ensures Settled(Apply(w, a), n)
  {
    var w' := Apply(w, a);
    if Started(w, a).Some? && Started(w, a).value.rec.pr.number == n {
      StartSettled(w, a, n);
    } else if (a.Drop? && a.number == n) || (a.Prune? && n in a.numbers) {
      RemovedSettled(w', n);
    } else {
      ElsewhereSettled(w, a, n);
    }
  }

  /** The role of the i-th operation changes from `r` to that in `w'`, and the others keep theirs. */
  ghost predicate OnlyRole(w: World, w': World, i: nat, n: int)
  {
    && i < |w.ops| && |w'.ops| == |w.ops|
    && forall k :: 0 <= k < |w.ops| && k != i ==> At(w', k, n) == At(w, k, n)
  }

  lemma ProceedRoles(w: World, i: nat, fault: bool, n: int)
    requires i < |w.ops| && !w.ops[i].Finished?
    ensures OnlyRole(w, Proceed(w, i, fault), i, n)
  {
    var w' := Proceed(w, i, fault);
    forall k | 0 <= k < |w.ops| && k != i
      ensures At(w', k, n) == At(w, k, n)
    {
      assert w'.ops[k] == w.ops[k];
    }
  }

  /** One step of an operation, by what it does to `n`. */
  lemma ProceedRole(w: World, i: nat, fault: bool, n: int)
    requires i < |w.ops| && !w.ops[i].Finished?
    ensures var w' := Proceed(w, i, fault);
            match At(w, i, n)
            case Idle => At(w', i, n).Idle? && SameAt(w, w', n)
            case Serves(d, true) =>
              && At(w', i, n).Idle? && n in w'.s.jobs && w'.s.jobs[n].savedDigest == Some(d)
              && (n in w.files <==> n in w'.files) && (n in w.files ==> w'.files[n] == w.files[n])
            case Serves(d, false) =>
              || (At(w', i, n) in {Idle, Serves(d, false)} && SameAt(w, w', n))
              || (At(w', i, n) == Serves(d, true) && n in w'.files && Digest(w'.files[n]) == d && w'.s == w.s)
            case Removes => At(w', i, n) in {Idle, Removes} && (Unknown(w, n) ==> Unknown(w', n))
  {
  }

  lemma ProceedSettled(w: World, i: nat, fault: bool, n: int)
    requires Settled(w, n) && i < |w.ops| && !w.ops[i].Finished?
    ensures Settled(Proceed(w, i, fault), n)
  {
    var w' := Proceed(w, i, fault);
    ProceedRoles(w, i, fault, n);
    ProceedRole(w, i, fault, n);
    match At(w, i, n)
    case Idle => SettledFrame(w, w', n);
    case Removes => RemovalSettled(w, w', i, n);
    case Serves(d, true) => CommitSettled(w, w', i, n);
    case Serves(d, false) =>
      if At(w', i, n) == Serves(d, true) {
        SaveSettled(w, w', i, n);
      } else {
        SettledFrame(w, w', n);
      }
  }

  lemma RemovalSettled(w: World, w': World, i: nat, n: int)
    requires Settled(w, n) && OnlyRole(w, w', i, n)
    requires At(w, i, n).Removes? && At(w', i, n) in {Idle, Removes} && (Unknown(w, n) ==> Unknown(w', n))
    ensures Settled(w', n)
  {
    forall k | 0 <= k < |w.ops|
      ensures !At(w', k, n).Serves?
    {
      assert Compatible(At(w, i, n), At(w, k, n));
    }
  }

  lemma CommitSettled(w: World, w': World, i: nat, n: int)
    requires Settled(w, n) && OnlyRole(w, w', i, n) && Written(At(w, i, n)) && At(w', i, n).Idle?
    requires n in w'.s.jobs && w'.s.jobs[n].savedDigest == Some(At(w, i, n).digest)
    requires (n in w.files <==> n in w'.files) && (n in w.files ==> w'.files[n] == w.files[n])
    ensures Settled(w', n)
  {
    assert DiskAgrees(w', n);
    forall k | 0 <= k < |w.ops|
      ensures !At(w', k, n).Removes?
    {
      assert Compatible(At(w, i, n), At(w, k, n));
    }
  }

  lemma SaveSettled(w: World, w': World, i: nat, n: int)
    requires Settled(w, n) && OnlyRole(w, w', i, n) && At(w, i, n).Serves?
    requires At(w', i, n) == Serves(At(w, i, n).digest, true)
    requires n in w'.files && Digest(w'.files[n]) == At(w, i, n).digest
    ensures Settled(w', n)
  {
    assert Written(At(w', i, n));
    forall k | 0 <= k < |w.ops|
      ensures !At(w', k, n).Removes? && Compatible(At(w', i, n), At(w', k, n))
    {
      assert Compatible(At(w, i, n), At(w, k, n));
    }
  }

  lemma StepSettled(w: World, a: Action, n: int)
    requires WellShaped(w) && Settled(w, n) && Enabled(w, a) && Clean(w, a)
    ensures Settled(Apply(w, a), n)
  {
    if a.Advance? {
      ProceedSettled(w, a.i, a.fault, n);
    } else if !a.Restart? {
      MemoryStepSettled(w, a, n);
    }
  }

  lemma {:induction false} CleanRunSettled(w: World, acts: seq<Action>, n: int)
    requires WellShaped(w) && Settled(w, n) && Run(w, acts).Some? && CleanRun(w, acts)
    ensures WellShaped(Run(w, acts).value) && Settled(Run(w, acts).value, n)
  {
    if acts != [] {
      var front := acts[..|acts| - 1];
      CleanRunSettled(w, front, n);
      StepWellShaped(Run(w, front).value, acts[|acts| - 1]);
      StepSettled(Run(w, front).value, acts[|acts| - 1], n);
    }
  }

  lemma QuietSettledAgrees(w: World, n: int)
    requires Settled(w, n) && Quiet(w, n)
    ensures DiskAgrees(w, n)
  {
    forall i | 0 <= i < |w.ops|
      ensures !Written(At(w, i, n))
    {
      assert !Touches(w.ops[i], n);
    }
  }

  /** Across failures and crashes, runs in which every write fits what is in flight
      on its number leave no digest the disk does not hold. */
  lemma CleanRunsAgree(acts: seq<Action>, n: int)
    requires Run(Init(), acts).Some? && CleanRun(Init(), acts)
    ensures Quiet(Run(Init(), acts).value, n) ==> DiskAgrees(Run(Init(), acts).value, n)
  {
    CleanRunSettled(Init(), acts, n);
    if Quiet(Run(Init(), acts).value, n) {
      QuietSettledAgrees(Run(Init(), acts).value, n);
    }
  }

  /** Runs whose operations never overlap are clean. */
  lemma {:induction false} SerialRunsAreClean(w: World, acts: seq<Action>)
    requires WellShaped(w) && Run(w, acts).Some? && SerialRun(w, acts)
    ensures CleanRun(w, acts) && WellShaped(Run(w, acts).value)
  {
    if acts != [] {
      var front, a := acts[..|acts| - 1], acts[|acts| - 1];
      SerialRunsAreClean(w, front);
      var mid := Run(w, front).value;
      StepWellShaped(mid, a);
      if Started(mid, a).Some? {
        forall i | 0 <= i < |mid.ops|
          ensures At(mid, i, Started(mid, a).value.rec.pr.number).Idle?
        {
          assert !Touches(mid.ops[i], Started(mid, a).value.rec.pr.number);
        }
      }
    }
  }

  // ---- and no others do ----

  ghost predicate Advances(acts: seq<Action>)
  {
    forall a :: a in acts ==> a.Advance?
  }

  /** However the operations in flight are interleaved and whichever fail, when all have
      ended no digest is known that the disk does not hold. */
  ghost predicate EndsAgreeing(w: World)
  {
    forall acts, w' :: Advances(acts) && Run(w, acts) == Some(w') && Quiescent(w') ==> forall n :: DiskAgrees(w', n)
  }

  predicate SameJobs(w: World, w': World)
  {
    && w'.s.jobs.Keys == w.s.jobs.Keys
    && forall n :: n in w.s.jobs ==> w'.s.jobs[n].id == w.s.jobs[n].id
  }

  lemma ThenRun(w: World, a: Action, rest: seq<Action>, w': World)
    requires Enabled(w, a) && a.Advance? && Advances(rest) && Run(Apply(w, a), rest) == Some(w')
    ensures Advances([a] + rest) && Run(w, [a] + rest) == Some(w')
  {
    RunOne(w, [], a);
    assert [] + [a] == [a];
    RunConcat(w, [a], rest);
  }

  lemma ThenRuns(w: World, first: seq<Action>, mid: World, rest: seq<Action>, w': World)
    requires Advances(first) && Run(w, first) == Some(mid) && Advances(rest) && Run(mid, rest) == Some(w')
    ensures Advances(first + rest) && Run(w, first + rest) == Some(w')
  {
    RunConcat(w, first, rest);
  }

  /** The i-th operation left to itself comes to an end. */
  lemma {:induction false} Finish(w: World, i: nat) returns (acts: seq<Action>, w': World)
    requires i < |w.ops|
    ensures Advances(acts) && Run(w, acts) == Some(w')
    ensures w'.ops == w.ops[i := Finished] && SameJobs(w, w')
    decreases StepsLeft(w.ops[i])
  {
    if w.ops[i].Finished? {
      acts, w' := [], w;
    } else {
      var a := Advance(i, false);
      var rest: seq<Action>;
      rest, w' := Finish(Apply(w, a), i);
      ThenRun(w, a, rest, w');
      acts := [a] + rest;
    }
  }

  /** A removal of `n` left to itself ends without the file, whatever is known of it. */
  ghost predicate Removal(w: World, i: nat, n: int)
    requires i < |w.ops|
  {
    At(w, i, n).Removes? || (n !in w.files && (w.ops[i].Deleting? || w.ops[i].Finished?))
  }

  lemma {:induction false} FinishRemoval(w: World, i: nat, n: int) returns (acts: seq<Action>, w': World)
    requires i < |w.ops| && n in w.s.jobs && Removal(w, i, n)
    ensures Advances(acts) && Run(w, acts) == Some(w')
    ensures w'.ops == w.ops[i := Finished] && n !in w'.files
    ensures n in w'.s.jobs && w'.s.jobs[n].(digest := None) == w.s.jobs[n].(digest := None)
    decreases StepsLeft(w.ops[i])
  {
    if w.ops[i].Finished? {
      acts, w' := [], w;
    } else {
      var a := Advance(i, false);
      var rest: seq<Action>;
      rest, w' := FinishRemoval(Apply(w, a), i, n);
      ThenRun(w, a, rest, w');
      acts := [a] + rest;
    }
  }

  /** Every operation but two ends. */
  lemma FinishOthers(w: World, i: nat, k: nat) returns (acts: seq<Action>, w': World)
    requires i < |w.ops| && k < |w.ops|
    ensures Advances(acts) && Run(w, acts) == Some(w') && SameJobs(w, w')
    ensures |w'.ops| == |w.ops| && w'.ops[i] == w.ops[i] && w'.ops[k] == w.ops[k]
    ensures forall j :: 0 <= j < |w.ops| && j != i && j != k ==> w'.ops[j].Finished?
  {
    acts, w' := [], w;
    for j := 0 to |w.ops|
      invariant Advances(acts) && Run(w, acts) == Some(w') && SameJobs(w, w')
      invariant |w'.ops| == |w.ops| && w'.ops[i] == w.ops[i] && w'.ops[k] == w.ops[k]
      invariant forall m :: 0 <= m < j && m != i && m != k ==> w'.ops[m].Finished?
    {
      if j != i && j != k {
        var mid := w';
        var rest: seq<Action>;
        rest, w' := Finish(mid, j);
        ThenRuns(w, acts, mid, rest, w');
        acts := acts + rest;
      }
    }
  }

  /** A write for the live job can be brought to just before its commit. */
  lemma {:induction false} UpToCommit(w: World, i: nat) returns (acts: seq<Action>, w': World)
    requires i < |w.ops| && Effective(w.ops[i])
    ensures Advances(acts) && Run(w, acts) == Some(w') && SameJobs(w, w')
    ensures w'.ops == w.ops[i := Committing(WriteOf(w.ops[i]).value)]
    decreases StepsLeft(w.ops[i])
  {
    if w.ops[i].Committing? {
      acts, w' := [], w;
    } else {
      var a := Advance(i, false);
      var rest: seq<Action>;
      rest, w' := UpToCommit(Apply(w, a), i);
      ThenRun(w, a, rest, w');
      acts := [a] + rest;
    }
  }

  /** The k-th operation is a write that will be made, for the live job of `n`. */
  predicate Pending(w: World, k: nat, n: int)
  {
    k < |w.ops| && w.ops[k].Hashing? && At(w, k, n).Serves?
  }

  /** Beside a removal: the write ends first and the file is removed after it. */
  lemma RemovalBreaks(w: World, i: nat, k: nat, n: int) returns (acts: seq<Action>, w': World)
    requires Pending(w, k, n) && i < |w.ops| && i != k && At(w, i, n).Removes?
    ensures Advances(acts) && Run(w, acts) == Some(w') && !DiskAgrees(w', n)
    ensures w'.ops == w.ops[k := Finished][i := Finished]
  {
    var first, mid := PersistRuns(w, k);
    var rest: seq<Action>;
    rest, w' := FinishRemoval(mid, i, n);
    acts := first + rest;
    RunConcat(w, first, rest);
  }

  /** Beside a write of other content: that one is committed last and was saved first. */
  lemma OtherWriteBreaks(w: World, i: nat, k: nat, n: int) returns (acts: seq<Action>, w': World)
    requires Pending(w, k, n) && i < |w.ops| && i != k
    requires At(w, i, n).Serves? && At(w, i, n).digest != At(w, k, n).digest
    ensures Advances(acts) && Run(w, acts) == Some(w') && !DiskAgrees(w', n)
    ensures w'.ops == w.ops[k := Finished][i := Finished]
  {
    var first, saved := UpToCommit(w, i);
    var second, mid := PersistRuns(saved, k);
    var last := Advance(i, false);
    w' := Apply(mid, last);
    ThenRuns(w, first, saved, second, mid);
    RunOne(w, first + second, last);
    acts := first + second + [last];
  }

  /** A write that does not fit can be interleaved, nothing failing, so that the digest
      left on file is not the disk's. */
  lemma UnfitBreaks(w: World, i: nat, k: nat, n: int) returns (acts: seq<Action>, w': World)
    requires Pending(w, k, n) && i < |w.ops| && i != k && !Compatible(At(w, k, n), At(w, i, n))
    ensures Advances(acts) && Run(w, acts) == Some(w') && Quiescent(w') && !DiskAgrees(w', n)
  {
    var first, mid := FinishOthers(w, i, k);
    var rest: seq<Action>;
    assert At(mid, i, n).Removes? == At(w, i, n).Removes? && At(mid, k, n) == At(w, k, n);
    if At(w, i, n).Removes? {
      rest, w' := RemovalBreaks(mid, i, k, n);
    } else {
      rest, w' := OtherWriteBreaks(mid, i, k, n);
    }
    ThenRuns(w, first, mid, rest, w');
    acts := first + rest;
  }

  lemma {:induction false} AdvancesAreClean(w: World, acts: seq<Action>)
    requires Advances(acts) && Run(w, acts).Some?
    ensures CleanRun(w, acts)
  {
    if acts != [] {
      AdvancesAreClean(w, acts[..|acts| - 1]);
      assert acts[|acts| - 1] in acts;
    }
  }

  lemma SettledEndsAgreeing(w: World)
    requires WellShaped(w) && forall n :: Settled(w, n)
    ensures EndsAgreeing(w)
  {
    forall acts, w', n | Advances(acts) && Run(w, acts) == Some(w') && Quiescent(w')
      ensures DiskAgrees(w', n)
    {
      AdvancesAreClean(w, acts);
      CleanRunSettled(w, acts, n);
      QuietSettledAgrees(w', n);
    }
  }

  lemma UncleanBreaks(w: World, a: Action)
    requires WellShaped(w) && Enabled(w, a) && !Clean(w, a)
    ensures !EndsAgreeing(Apply(w, a))
  {
    var write, w', k := Started(w, a).value, Apply(w, a), |w.ops|;
    var n := write.rec.pr.number;
    var i :| 0 <= i < |w.ops| && !Compatible(Serves(Digest(write.rec), false), At(w, i, n));
    assert w'.ops[i] == w.ops[i] && w'.ops[k] == Hashing(write);
    OwnerKept(w, a, w.ops[i], n);
    var acts, end := UnfitBreaks(w', i, k, n);
  }

  /** The exact condition: after a clean run an action keeps agreement, however what is
      then in flight interleaves and fails, if and only if the write it starts is
      skipped or fits: no removal of that number's file is pending, by a deletion or
      by a write whose job is gone, and every other write of it has equal content. */
  lemma OverlapBreaksExactly(past: seq<Action>, w: World, a: Action)
    requires Run(Init(), past) == Some(w) && CleanRun(Init(), past) && Enabled(w, a)
    ensures Clean(w, a) <==> EndsAgreeing(Apply(w, a))
  {
    RunWellShaped(past);
    if Clean(w, a) {
      StepWellShaped(w, a);
      forall n
        ensures Settled(Apply(w, a), n)
      {
        CleanRunSettled(Init(), past, n);
        StepSettled(w, a, n);
      }
      SettledEndsAgreeing(Apply(w, a));
    } else {
      UncleanBreaks(w, a);
    }
  }

  // ---- the late delete ----

  /** Starts a write on `n` of the content whose digest is on file. */
  predicate StartsKnown(w: World, a: Action, n: int)
  {
    && n in w.s.jobs && Started(w, a).Some? && Started(w, a).value.rec.pr.number == n
    && w.s.jobs[n].savedDigest == Some(Digest(Started(w, a).value.rec))
  }

  /** Starts a write that its first step ends, without touching the disk. */
  predicate SkippedAt(w: World, a: Action)
  {
    Enabled(w, a) &&
    var next := Apply(w, a);
    var k: nat := |w.ops|;
    && |next.ops| == k + 1 && next.ops[k].Hashing? && next.files == w.files
    && Proceed(next, k, false).files == w.files && Proceed(next, k, false).ops[k].Finished?
  }

  lemma IdenticalIsSkipped(w: World, a: Action, n: int)
    requires WellShaped(w) && StartsKnown(w, a, n)
    ensures SkippedAt(w, a)
  {
  }

  lemma {:induction false} RunKeepsShape(w: World, acts: seq<Action>, w': World)
    requires WellShaped(w) && Run(w, acts) == Some(w')
    ensures WellShaped(w')
  {
    if acts != [] {
      var mid := Run(w, acts[..|acts| - 1]).value;
      RunKeepsShape(w, acts[..|acts| - 1], mid);
      StepWellShaped(mid, acts[|acts| - 1]);
    }
  }

  /** A deletion still in flight when its number has a new job on disk takes the new
      job's file. The digest on file stays, so a render of equal content is not written
      again, and the job is gone after a restart. */
  lemma LateDeleteLosesTheJob(w: World, i: nat, n: int) returns (acts: seq<Action>, w': World)
    requires WellShaped(w) && i < |w.ops| && w.ops[i].Deleting? && n in w.ops[i].numbers
    requires n in w.s.jobs && w.s.jobs[n].savedDigest.Some?
    ensures Advances(acts) && Run(w, acts) == Some(w') && w'.ops == w.ops[i := Finished]
    ensures n in w'.s.jobs && w'.s.jobs[n].(digest := None) == w.s.jobs[n].(digest := None)
    ensures n !in w'.files && !DiskAgrees(w', n) && n !in Apply(w', Restart).s.jobs
    ensures forall a :: StartsKnown(w', a, n) ==> SkippedAt(w', a)
  {
    acts, w' := FinishRemoval(w, i, n);
    RunKeepsShape(w, acts, w');
    forall a | StartsKnown(w', a, n)
      ensures SkippedAt(w', a)
    {
      IdenticalIsSkipped(w', a, n);
    }
  }

  /** A pull request dropped, found again and rendered before the drop's deletion ran. */
  lemma RenderedBeforeDelete(pr: PR, result: DiffResult) returns (acts: seq<Action>, w: World)
    ensures Run(Init(), acts) == Some(w) && w.files == map[]
    ensures |w.ops| == 2 && w.ops[0] == Deleting([pr.number]) && Pending(w, 1, pr.number)
    ensures pr.number in w.s.jobs && w.s.jobs[pr.number].result == Some(result)
  {
    var n := pr.number;
    var w1 := Apply(Init(), Upsert(pr, false, 1));
    var w2 := Apply(w1, Drop(n));
    var w3 := Apply(w2, Upsert(pr, false, 2));
    w := Apply(w3, Succeed(n, result, 3));
    acts := [];
    RunOne(Init(), acts, Upsert(pr, false, 1));
    acts := acts + [Upsert(pr, false, 1)];
    RunOne(Init(), acts, Drop(n));
    acts := acts + [Drop(n)];
    RunOne(Init(), acts, Upsert(pr, false, 2));
    acts := acts + [Upsert(pr, false, 2)];
    RunOne(Init(), acts, Succeed(n, result, 3));
    acts := acts + [Succeed(n, result, 3)];
  }

  /** With nothing failing, such a run ends with a live, rendered job whose file is gone. */
  lemma LateDeleteIsReachable(pr: PR, result: DiffResult) returns (acts: seq<Action>, w: World)
    ensures Run(Init(), acts) == Some(w) && Quiescent(w)
    ensures pr.number in w.s.jobs && w.s.jobs[pr.number].result == Some(result) && pr.number !in w.files
    ensures !DiskAgrees(w, pr.number)
  {
    var start: World;
    acts, start := RenderedBeforeDelete(pr, result);
    RunWellShaped(acts);
    var first, mid := PersistRuns(start, 1);
    RunKeepsShape(start, first, mid);
    RunConcat(Init(), acts, first);
    acts := acts + first;
    var rest: seq<Action>;
    rest, w := LateDeleteLosesTheJob(mid, 0, pr.number);
    RunConcat(Init(), acts, rest);
    acts := acts + rest;
  }
}
