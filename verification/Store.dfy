/** The in-memory record of every known pull request. The functions are the store's
    critical sections; class Store runs them on its fields and on a disk. */
module Store {
  import opened Prelude
  import opened Api
  import opened Ordering

  datatype Status = Pending | Running | Ready | Failed
  datatype Level = Caution | Blocking
  datatype Warning = Warning(level: Level, text: string)

  datatype DiffResult = DiffResult(
    headSHA: string, resources: seq<string>, warnings: seq<Warning>, images: seq<string>,
    failures: seq<string>, parents: nat, routine: bool)

  datatype Signals = Signals(resources: nat, caution: nat, blocking: nat, images: nat, failures: nat, routine: bool)

  function ByLevel(ws: seq<Warning>, level: Level): nat
  {
    if ws == [] then 0
    else ByLevel(ws[..|ws| - 1], level) + if ws[|ws| - 1].level == level then 1 else 0
  }

  function ComputeSignals(d: DiffResult): Signals
  {
    Signals(|d.resources|, ByLevel(d.warnings, Caution), ByLevel(d.warnings, Blocking),
            |d.images|, |d.failures|, d.routine)
  }

  /** The indices of the warnings of a level. */
  function LevelIndices(ws: seq<Warning>, level: Level): set<nat>
  {
    set i: nat | 0 <= i < |ws| && ws[i].level == level
  }

  lemma {:induction false} ByLevelCounts(ws: seq<Warning>, level: Level)
    ensures ByLevel(ws, level) == |LevelIndices(ws, level)|
  {
    if ws != [] {
      var front, k := ws[..|ws| - 1], |ws| - 1;
      ByLevelCounts(front, level);
      assert LevelIndices(ws, level) == LevelIndices(front, level) + if ws[k].level == level then {k} else {};
    }
  }

  /** The signals of a diff are its counts, by level for the warnings. */
  lemma SignalsCount(d: DiffResult)
    ensures var g := ComputeSignals(d);
            && g.resources == |d.resources| && g.images == |d.images| && g.failures == |d.failures|
            && g.caution == |LevelIndices(d.warnings, Caution)| && g.blocking == |LevelIndices(d.warnings, Blocking)|
            && g.routine == d.routine
  {
    ByLevelCounts(d.warnings, Caution);
    ByLevelCounts(d.warnings, Blocking);
  }

  function SignalsOf(result: Option<DiffResult>): Option<Signals>
  {
    if result.Some? then Some(ComputeSignals(result.value)) else None
  }

  /** The durable form of a job. None stands for Go's zero time. */
  datatype Record = Record(
    pr: PR, status: Status, result: Option<DiffResult>, errMsg: string, refreshErr: string,
    updated: int, closedAt: Option<int>, renderedAt: Option<int>)

  /** What a content digest identifies: a record without its volatile timestamps.
      The 64-bit hash is taken to be injective, so the content stands for it. */
  datatype Content = Content(
    pr: PR, status: Status, result: Option<DiffResult>, errMsg: string, refreshErr: string,
    closedAt: Option<int>)

  function Digest(r: Record): Content
  {
    Content(r.pr, r.status, r.result, r.errMsg, r.refreshErr, r.closedAt)
  }

  /** `id` is the identity of the Go job pointer; unknown digests are None. */
  datatype Job = Job(
    id: nat, pr: PR, hidden: bool, status: Status, result: Option<DiffResult>, signals: Option<Signals>,
    errMsg: string, updated: int, closedAt: Option<int>, renderedAt: Option<int>, refreshErr: string,
    lastFailMsg: string, savedDigest: Option<Content>, digest: Option<Content>)

  datatype Tracked = Tracked(jobs: map<int, Job>, issued: nat)

  /** One call of persistRecord: the job it is for, the snapshot, the digest on file. */
  datatype Write = Write(id: nat, rec: Record, prev: Option<Content>)

  function NewJob(id: nat, pr: PR, hidden: bool, now: int): Job
  {
    Job(id, pr, hidden, Pending, None, None, "", now, None, None, "", "", None, None)
  }

  function RecordOf(j: Job): Record
  {
    Record(j.pr, j.status, j.result, j.errMsg, j.refreshErr, j.updated, j.closedAt, j.renderedAt)
  }

  function Restore(id: nat, r: Record): Job
  {
    Job(id, r.pr, false, r.status, r.result, SignalsOf(r.result), r.errMsg, r.updated, r.closedAt,
        r.renderedAt, r.refreshErr, "", None, None)
  }

  function Put(s: Tracked, j: Job): Tracked
  {
    s.(jobs := s.jobs[j.pr.number := j])
  }

  ghost predicate Keyed(s: Tracked)
  {
    forall n :: n in s.jobs ==> s.jobs[n].pr.number == n
  }

  predicate Open(s: Tracked, number: int)
  {
    number in s.jobs && s.jobs[number].closedAt.None?
  }

  function UpsertPR(s: Tracked, pr: PR, hidden: bool, now: int): Tracked
  {
    if pr.number !in s.jobs then
      Put(s, NewJob(s.issued, pr, hidden, now)).(issued := s.issued + 1)
    else
      Put(s, s.jobs[pr.number].(pr := pr, hidden := hidden, updated := now))
  }

  function MarkOpen(s: Tracked, pr: PR, hidden: bool, now: int): (Tracked, bool)
  {
    if pr.number !in s.jobs then
      (Put(s, NewJob(s.issued, pr, hidden, now)).(issued := s.issued + 1), false)
    else
      var j := s.jobs[pr.number];
      (Put(s, j.(closedAt := None, pr := pr, hidden := hidden, updated := now)), j.closedAt.Some?)
  }

  function SetStatus(s: Tracked, pr: PR, status: Status, now: int): Tracked
  {
    if !Open(s, pr.number) then s
    else Put(s, s.jobs[pr.number].(pr := pr, status := status, errMsg := "", updated := now))
  }

  function SetResult(s: Tracked, number: int, result: DiffResult, now: int): (Tracked, Option<Write>)
  {
    if !Open(s, number) then (s, None)
    else
      var j := s.jobs[number].(
        result := Some(result), signals := Some(ComputeSignals(result)), status := Ready, errMsg := "",
        refreshErr := "", lastFailMsg := "", updated := now, renderedAt := Some(now));
      (s.(jobs := s.jobs[number := j]), Some(Write(j.id, RecordOf(j), j.savedDigest)))
  }

  /** Also returns whether a prior diff was kept, and whether the message is new. */
  function FailRender(s: Tracked, number: int, msg: string, now: int): (Tracked, bool, bool)
  {
    if !Open(s, number) then (s, false, false)
    else
      var j := s.jobs[number];
      var f := j.(lastFailMsg := msg, updated := now, renderedAt := Some(now));
      if j.result.Some? then
        (s.(jobs := s.jobs[number := f.(refreshErr := msg)]), true, j.lastFailMsg != msg)
      else
        (s.(jobs := s.jobs[number := f.(status := Failed, errMsg := msg)]), false, j.lastFailMsg != msg)
  }

  function MarkClosed(s: Tracked, number: int, when: int): (Tracked, Option<Write>)
  {
    if !Open(s, number) then (s, None)
    else
      var j := s.jobs[number].(closedAt := Some(when), updated := when);
      var c := j.(pr := j.pr.(state := "merged", open := false, merged := true));
      (s.(jobs := s.jobs[number := c]), Some(Write(c.id, RecordOf(c), c.savedDigest)))
  }

  function Remove(s: Tracked, numbers: set<int>): Tracked
  {
    s.(jobs := s.jobs - numbers)
  }

  predicate Owns(s: Tracked, w: Write)
  {
    w.rec.pr.number in s.jobs && s.jobs[w.rec.pr.number].id == w.id
  }

  /** persistRecord's first re-lock: the digest readers revalidate against. */
  function NoteDigest(s: Tracked, w: Write): Tracked
  {
    if !Owns(s, w) then s
    else s.(jobs := s.jobs[w.rec.pr.number := s.jobs[w.rec.pr.number].(digest := Some(Digest(w.rec)))])
  }

  /** persistRecord's re-lock after the save. */
  function NoteSaved(s: Tracked, w: Write): Tracked
  {
    if !Owns(s, w) then s
    else s.(jobs := s.jobs[w.rec.pr.number := s.jobs[w.rec.pr.number].(savedDigest := Some(Digest(w.rec)))])
  }

  /** The store a restart builds from the readable files; `id` is fresh. */
  function LoadFrom(files: map<int, Record>, id: nat): Tracked
  {
    Tracked(map n | n in files :: Restore(id, files[n]), id + 1)
  }

  /** A whole persistRecord with nothing interleaved. */
  function PersistAlone(s: Tracked, files: map<int, Record>, w: Write, saveFails: bool, deleteFails: bool)
    : (Tracked, map<int, Record>)
  {
    var noted := NoteDigest(s, w);
    if w.prev == Some(Digest(w.rec)) || saveFails then (noted, files)
    else if Owns(noted, w) then (NoteSaved(noted, w), files[w.rec.pr.number := w.rec])
    else (noted, if deleteFails then files[w.rec.pr.number := w.rec] else files - {w.rec.pr.number})
  }

  /** Two records share a digest exactly when they differ in their timestamps at most. */
  lemma DigestIgnoresTimestampsOnly(a: Record, b: Record)
    ensures Digest(a) == Digest(b) <==> a == b.(updated := a.updated, renderedAt := a.renderedAt)
  {
  }

  // ---- what restoring a record means ----

  /** A record survives a save and a reload in every field. */
  lemma RestoreRoundTrip(id: nat, r: Record)
    ensures RecordOf(Restore(id, r)) == r
    ensures Restore(id, r).signals == SignalsOf(r.result)
    ensures !Restore(id, r).hidden && Restore(id, r).savedDigest.None?
  {
  }

  /** What a job loses across a restart: the hidden flag, the log de-duplication
      message, both digests and its identity; nothing else. */
  lemma ReloadKeepsPersistedFields(id: nat, j: Job)
    requires j.signals == SignalsOf(j.result)
    ensures Restore(id, RecordOf(j)) ==
            j.(id := id, hidden := false, lastFailMsg := "", savedDigest := None, digest := None)
  {
  }

  // ---- retention ----

  function CloseTime(j: Job): int
  {
    if j.closedAt.Some? then j.closedAt.value else 0
  }

  predicate NewestFirst(a: Job, b: Job)
  {
    CloseTime(a) >= CloseTime(b)
  }

  predicate TooOld(j: Job, now: int, maxAge: int)
  {
    maxAge > 0 && now - CloseTime(j) > maxAge
  }

  predicate Doomed(closed: seq<Job>, i: nat, now: int, maxAge: int, maxCount: int)
    requires i < |closed|
  {
    TooOld(closed[i], now, maxAge) || (maxCount > 0 && i >= maxCount)
  }

  function Numbers(js: seq<Job>): (ns: set<int>)
  {
    set i | 0 <= i < |js| :: js[i].pr.number
  }

  ghost predicate DistinctNumbers(js: seq<Job>)
  {
    forall i, j :: 0 <= i < j < |js| ==> js[i].pr.number != js[j].pr.number
  }

  lemma {:induction false} NumbersCount(js: seq<Job>)
    ensures |Numbers(js)| <= |js|
    ensures DistinctNumbers(js) ==> |Numbers(js)| == |js|
  {
    if js != [] {
      var front := js[..|js| - 1];
      NumbersCount(front);
      assert Numbers(js) == Numbers(front) + {js[|js| - 1].pr.number};
    }
  }

  ghost predicate Shelved(s: Tracked, n: int)
  {
    n in s.jobs && s.jobs[n].closedAt.Some?
  }

  /** `n` is beyond the cap: `maxCount` other shelved jobs closed no earlier. */
  ghost predicate OverCap(s: Tracked, n: int, maxCount: int)
    requires Shelved(s, n)
  {
    exists newer: set<int> ::
      && |newer| == maxCount && n !in newer
      && forall m :: m in newer ==> Shelved(s, m) && s.jobs[m].closedAt.value >= s.jobs[n].closedAt.value
  }

  /** The job is past retention by its age alone. */
  predicate Expired(j: Job, now: int, maxAge: int)
    requires j.closedAt.Some?
  {
    maxAge > 0 && now - j.closedAt.value > maxAge
  }

  /** `js` lists every shelved job of `s` once. */
  ghost predicate ListsShelf(s: Tracked, js: seq<Job>)
  {
    && DistinctNumbers(js)
    && forall j :: j in js <==> j.pr.number in s.jobs && s.jobs[j.pr.number] == j && j.closedAt.Some?
  }

  lemma ReorderedListsShelf(s: Tracked, a: seq<Job>, b: seq<Job>)
    requires ListsShelf(s, a) && multiset(a) == multiset(b)
    ensures ListsShelf(s, b)
  {
    SortKeepsDistinct(a, b);
  }

  lemma PastCapIsOverCap(s: Tracked, js: seq<Job>, k: nat, maxCount: int)
    requires Keyed(s) && ListsShelf(s, js) && SortedBy(NewestFirst, js)
    requires 0 < maxCount <= k < |js|
    ensures Shelved(s, js[k].pr.number) && OverCap(s, js[k].pr.number, maxCount)
  {
    assert js[k] in js;
    var newer := Numbers(js[..maxCount]);
    NumbersCount(js[..maxCount]);
    forall m | m in newer
      ensures Shelved(s, m) && s.jobs[m].closedAt.value >= s.jobs[js[k].pr.number].closedAt.value && m != js[k].pr.number
    {
      var i :| 0 <= i < maxCount && js[i].pr.number == m;
      assert js[i] in js;
      assert NewestFirst(js[i], js[k]);
    }
  }

  lemma KeptFitsCap(s: Tracked, js: seq<Job>, kept: set<int>, maxCount: int)
    requires Keyed(s) && ListsShelf(s, js) && maxCount > 0
    requires forall n :: n in kept ==> exists i :: 0 <= i < |js| && i < maxCount && js[i].pr.number == n
    ensures |kept| <= maxCount
  {
    var top := if |js| <= maxCount then js else js[..maxCount];
    NumbersCount(top);
    forall n | n in kept
      ensures n in Numbers(top)
    {
      var i :| 0 <= i < |js| && i < maxCount && js[i].pr.number == n;
      assert top[i] == js[i];
    }
    Subset(kept, Numbers(top));
  }

  ghost predicate ListsDoomed(js: seq<Job>, removed: seq<int>, now: int, maxAge: int, maxCount: int)
  {
    forall n :: n in removed <==>
      exists k :: 0 <= k < |js| && js[k].pr.number == n && Doomed(js, k, now, maxAge, maxCount)
  }

  lemma RemovedAreDoomed(s: Tracked, js: seq<Job>, removed: seq<int>, now: int, maxAge: int, maxCount: int)
    requires Keyed(s) && ListsShelf(s, js) && SortedBy(NewestFirst, js)
    requires ListsDoomed(js, removed, now, maxAge, maxCount)
    ensures forall n :: n in removed ==>
              && Shelved(s, n)
              && (Expired(s.jobs[n], now, maxAge) || (maxCount > 0 && OverCap(s, n, maxCount)))
  {
    forall n | n in removed
      ensures Shelved(s, n) && (Expired(s.jobs[n], now, maxAge) || (maxCount > 0 && OverCap(s, n, maxCount)))
    {
      var k :| 0 <= k < |js| && js[k].pr.number == n && Doomed(js, k, now, maxAge, maxCount);
      assert js[k] in js;
      if !TooOld(js[k], now, maxAge) {
        PastCapIsOverCap(s, js, k, maxCount);
      }
    }
  }

  lemma KeptAreNot(s: Tracked, js: seq<Job>, removed: seq<int>, now: int, maxAge: int, maxCount: int)
    requires Keyed(s) && ListsShelf(s, js)
    requires ListsDoomed(js, removed, now, maxAge, maxCount)
    ensures var s' := Remove(s, set n | n in removed);
            && (forall n :: Shelved(s', n) ==> !Expired(s'.jobs[n], now, maxAge))
            && (maxCount > 0 ==> |set n | n in s'.jobs && s'.jobs[n].closedAt.Some?| <= maxCount)
  {
    var s' := Remove(s, set n | n in removed);
    var kept := set n | n in s'.jobs && s'.jobs[n].closedAt.Some?;
    forall n | n in kept
      ensures !TooOld(s.jobs[n], now, maxAge)
      ensures maxCount > 0 ==> exists i :: 0 <= i < |js| && i < maxCount && js[i].pr.number == n
    {
      assert s.jobs[n] in js;
      var i :| 0 <= i < |js| && js[i] == s.jobs[n];
      assert !Doomed(js, i, now, maxAge, maxCount);
    }
    if maxCount > 0 {
      KeptFitsCap(s, js, kept, maxCount);
    }
  }

  /** Who stays on the shelf closed no earlier than whoever leaves it for the cap. */
  lemma KeptAreNewer(s: Tracked, js: seq<Job>, removed: seq<int>, now: int, maxAge: int, maxCount: int, n: int, m: int)
    requires Keyed(s) && ListsShelf(s, js) && SortedBy(NewestFirst, js)
    requires ListsDoomed(js, removed, now, maxAge, maxCount)
    requires n in removed && Shelved(s, n) && !Expired(s.jobs[n], now, maxAge) && Shelved(s, m) && m !in removed
    ensures s.jobs[m].closedAt.value >= s.jobs[n].closedAt.value
  {
    var k :| 0 <= k < |js| && js[k].pr.number == n && Doomed(js, k, now, maxAge, maxCount);
    assert js[k] in js && s.jobs[m] in js;
    var i :| 0 <= i < |js| && js[i] == s.jobs[m];
    assert !Doomed(js, i, now, maxAge, maxCount);
    assert i < maxCount <= k;
    assert NewestFirst(js[i], js[k]);
  }

  lemma Subset(a: set<int>, b: set<int>)
    requires a <= b
    ensures |a| <= |b|
  {
    assert b == a + (b - a);
  }

  predicate OthersKept(before: map<int, Job>, after: map<int, Job>, n: int)
  {
    after - {n} == before - {n}
  }

  /** The same job but for what the forge says of it and for its ETag. */
  predicate SameButMetadata(a: Job, b: Job)
  {
    b == a.(pr := b.pr, hidden := b.hidden, updated := b.updated, digest := b.digest)
  }

  predicate Unrendered(j: Job)
  {
    && j.status == Pending && j.result.None? && j.signals.None? && j.errMsg == "" && j.refreshErr == ""
    && j.lastFailMsg == "" && j.closedAt.None? && j.renderedAt.None? && j.savedDigest.None? && j.digest.None?
  }

  /** What becomes of the disk when job `o` has become `j` and been persisted: an equal
      record is left alone, a failed save changes nothing and is remembered as unsaved, and
      otherwise the disk holds the record whose digest is on file. */
  predicate Persisted(o: Job, j: Job, before: map<int, Record>, after: map<int, Record>, saveFails: bool)
  {
    var n, known := j.pr.number, o.savedDigest == Some(Digest(RecordOf(j)));
    && j.digest == Some(Digest(RecordOf(j)))
    && (known || saveFails ==> after == before && j.savedDigest == o.savedDigest)
    && (!known && !saveFails ==> after == before[n := RecordOf(j)] && j.savedDigest == Some(Digest(RecordOf(j))))
  }

  /** The atomic-replace file map: a save is visible whole or not at all. */
  class Disk {
    var files: map<int, Record>

    constructor ()
      ensures files == map[]
    {
      files := map[];
    }

    method Save(rec: Record, fails: bool) returns (ok: bool)
      modifies this
      ensures ok == !fails
      ensures files == if ok then old(files)[rec.pr.number := rec] else old(files)
    {
      if fails {
        return false;
      }
      files := files[rec.pr.number := rec];
      return true;
    }

    method Delete(number: int, fails: bool)
      modifies this
      ensures files == if fails then old(files) else old(files) - {number}
    {
      if !fails {
        files := files - {number};
      }
    }
  }

  class Store {
    var jobs: map<int, Job>
    var issued: nat
    const disk: Disk

    ghost function View(): Tracked
      reads this
    {
      Tracked(jobs, issued)
    }

    constructor (disk: Disk)
      ensures View() == LoadFrom(disk.files, 0) && this.disk == disk
      ensures jobs.Keys == disk.files.Keys
      ensures forall n :: n in jobs ==> RecordOf(jobs[n]) == disk.files[n] && jobs[n].signals == SignalsOf(disk.files[n].result)
    {
      this.disk := disk;
      jobs := map n | n in disk.files :: Restore(0, disk.files[n]);
      issued := 1;
    }

    method Upsert(pr: PR, hidden: bool, now: int)
      modifies this
      ensures View() == UpsertPR(old(View()), pr, hidden, now)
      ensures OthersKept(old(jobs), jobs, pr.number) && pr.number in jobs
      ensures var j := jobs[pr.number];
              && j.pr == pr && j.hidden == hidden && j.updated == now
              && (pr.number in old(jobs) ==> SameButMetadata(old(jobs)[pr.number], j))
              && (pr.number !in old(jobs) ==> Unrendered(j) && j.id == old(issued))
    {
      if pr.number !in jobs {
        jobs := jobs[pr.number := NewJob(issued, pr, hidden, now)];
        issued := issued + 1;
        return;
      }
      jobs := jobs[pr.number := jobs[pr.number].(pr := pr, hidden := hidden, updated := now)];
    }

    method Reopen(pr: PR, hidden: bool, now: int) returns (reopened: bool)
      modifies this
      ensures (View(), reopened) == MarkOpen(old(View()), pr, hidden, now)
      ensures reopened <==> pr.number in old(jobs) && old(jobs)[pr.number].closedAt.Some?
      ensures OthersKept(old(jobs), jobs, pr.number) && pr.number in jobs
      ensures var j := jobs[pr.number];
              && j.pr == pr && j.hidden == hidden && j.updated == now && j.closedAt.None?
              && (pr.number in old(jobs) ==> SameButMetadata(old(jobs)[pr.number].(closedAt := None), j))
              && (pr.number !in old(jobs) ==> Unrendered(j) && j.id == old(issued))
    {
      if pr.number !in jobs {
        jobs := jobs[pr.number := NewJob(issued, pr, hidden, now)];
        issued := issued + 1;
        return false;
      }
      var j := jobs[pr.number];
      reopened := false;
      if j.closedAt.Some? {
        j := j.(closedAt := None);
        reopened := true;
      }
      jobs := jobs[pr.number := j.(pr := pr, hidden := hidden, updated := now)];
    }

    method Transition(pr: PR, status: Status, now: int)
      modifies this
      ensures View() == SetStatus(old(View()), pr, status, now)
      ensures pr.number !in old(jobs) || old(jobs)[pr.number].closedAt.Some? ==> jobs == old(jobs)
      ensures pr.number in old(jobs) && old(jobs)[pr.number].closedAt.None? ==>
                && OthersKept(old(jobs), jobs, pr.number) && pr.number in jobs
                && var j := jobs[pr.number];
                   && j.pr == pr && j.status == status && j.errMsg == "" && j.updated == now
                   && SameButMetadata(old(jobs)[pr.number].(status := status, errMsg := ""), j)
    {
      if pr.number !in jobs || jobs[pr.number].closedAt.Some? {
        return;
      }
      jobs := jobs[pr.number := jobs[pr.number].(pr := pr, status := status, errMsg := "", updated := now)];
    }

    method Fail(number: int, msg: string, now: int) returns (kept: bool, changed: bool)
      modifies this
      ensures (View(), kept, changed) == FailRender(old(View()), number, msg, now)
      ensures number !in old(jobs) || old(jobs)[number].closedAt.Some? ==> jobs == old(jobs) && !kept && !changed
      ensures number in old(jobs) && old(jobs)[number].closedAt.None? ==>
                && OthersKept(old(jobs), jobs, number) && number in jobs
                && var o, j := old(jobs)[number], jobs[number];
                   && kept == o.result.Some? && changed == (o.lastFailMsg != msg)
                   && j.lastFailMsg == msg && j.renderedAt == Some(now) && j.updated == now
                   && j.result == o.result && j.signals == o.signals && j.savedDigest == o.savedDigest
                   && (kept ==> j.refreshErr == msg && j.status == o.status && j.errMsg == o.errMsg)
                   && (!kept ==> j.status == Failed && j.errMsg == msg && j.refreshErr == o.refreshErr)
    {
      if number !in jobs || jobs[number].closedAt.Some? {
        return false, false;
      }
      var j := jobs[number];
      changed := j.lastFailMsg != msg;
      j := j.(lastFailMsg := msg, updated := now, renderedAt := Some(now));
      kept := j.result.Some?;
      if kept {
        j := j.(refreshErr := msg);
      } else {
        j := j.(status := Failed, errMsg := msg);
      }
      jobs := jobs[number := j];
    }

    method Persist(w: Write, saveFails: bool, deleteFails: bool)
      modifies this, disk
      ensures (View(), disk.files) == PersistAlone(old(View()), old(disk.files), w, saveFails, deleteFails)
      ensures var n, owned, skipped := w.rec.pr.number, Owns(old(View()), w), w.prev == Some(Digest(w.rec));
              && OthersKept(old(jobs), jobs, n)
              && (skipped || saveFails ==> disk.files == old(disk.files))
              && (owned ==>
                    && n in jobs && jobs[n].digest == Some(Digest(w.rec))
                    && SameButMetadata(old(jobs)[n].(savedDigest := jobs[n].savedDigest), jobs[n])
                    && (skipped || saveFails ==> jobs[n].savedDigest == old(jobs)[n].savedDigest)
                    && (!skipped && !saveFails ==>
                          jobs[n].savedDigest == Some(Digest(w.rec)) && disk.files == old(disk.files)[n := w.rec]))
              && (!owned ==>
                    && jobs == old(jobs)
                    && (!skipped && !saveFails && !deleteFails ==> disk.files == old(disk.files) - {n}))
    {
      var number, d := w.rec.pr.number, Digest(w.rec);
      if number in jobs && jobs[number].id == w.id {
        jobs := jobs[number := jobs[number].(digest := Some(d))];
      }
      if w.prev == Some(d) {
        return;
      }
      var ok := disk.Save(w.rec, saveFails);
      if !ok {
        return;
      }
      if number in jobs && jobs[number].id == w.id {
        jobs := jobs[number := jobs[number].(savedDigest := Some(d))];
        return;
      }
      disk.Delete(number, deleteFails);
      assert !deleteFails ==> old(disk.files)[number := w.rec] - {number} == old(disk.files) - {number};
    }

    method Succeed(number: int, result: DiffResult, now: int, saveFails: bool, deleteFails: bool)
      returns (sig: Option<Signals>)
      modifies this, disk
      ensures var (s, w) := SetResult(old(View()), number, result, now);
              && sig == (if w.Some? then Some(ComputeSignals(result)) else None)
              && (View(), disk.files) == (if w.Some? then PersistAlone(s, old(disk.files), w.value, saveFails, deleteFails)
                                          else (s, old(disk.files)))
      ensures sig.Some? <==> number in old(jobs) && old(jobs)[number].closedAt.None?
      ensures sig.None? ==> jobs == old(jobs) && disk.files == old(disk.files)
      ensures sig.Some? && old(jobs)[number].pr.number == number ==>
                && number in jobs && OthersKept(old(jobs), jobs, number)
                && var o, j := old(jobs)[number], jobs[number];
                   && j.result == Some(result) && j.status == Ready && j.signals == sig && j.renderedAt == Some(now)
                   && j.errMsg == "" && j.refreshErr == "" && j.lastFailMsg == "" && j.closedAt.None?
                   && j.pr == o.pr && j.id == o.id && j.hidden == o.hidden
                   && Persisted(o, j, old(disk.files), disk.files, saveFails)
    {
      if number !in jobs || jobs[number].closedAt.Some? {
        return None;
      }
      var j := jobs[number];
      j := j.(result := Some(result), signals := Some(ComputeSignals(result)), status := Ready, errMsg := "",
              refreshErr := "", lastFailMsg := "", updated := now, renderedAt := Some(now));
      jobs := jobs[number := j];
      sig := j.signals;
      Persist(Write(j.id, RecordOf(j), j.savedDigest), saveFails, deleteFails);
    }

    method Close(number: int, when: int, saveFails: bool, deleteFails: bool)
      modifies this, disk
      ensures var (s, w) := MarkClosed(old(View()), number, when);
              (View(), disk.files) == if w.Some? then PersistAlone(s, old(disk.files), w.value, saveFails, deleteFails)
                                      else (s, old(disk.files))
      ensures number !in old(jobs) || old(jobs)[number].closedAt.Some? ==> jobs == old(jobs) && disk.files == old(disk.files)
      ensures number in old(jobs) && old(jobs)[number].closedAt.None? && old(jobs)[number].pr.number == number ==>
                && number in jobs && OthersKept(old(jobs), jobs, number)
                && var o, j := old(jobs)[number], jobs[number];
                   && j.closedAt == Some(when) && j.updated == when
                   && j.pr == o.pr.(state := "merged", open := false, merged := true)
                   && SameButMetadata(o.(closedAt := Some(when), savedDigest := j.savedDigest), j) && j.hidden == o.hidden
                   && Persisted(o, j, old(disk.files), disk.files, saveFails)
    {
      if number !in jobs || jobs[number].closedAt.Some? {
        return;
      }
      var j := jobs[number];
      j := j.(closedAt := Some(when), pr := j.pr.(state := "merged", open := false, merged := true), updated := when);
      jobs := jobs[number := j];
      Persist(Write(j.id, RecordOf(j), j.savedDigest), saveFails, deleteFails);
    }

    method Drop(number: int, fails: bool)
      modifies this, disk
      ensures View() == Remove(old(View()), {number})
      ensures disk.files == if fails then old(disk.files) else old(disk.files) - {number}
    {
      jobs := jobs - {number};
      disk.Delete(number, fails);
    }

    method ClosedJobs() returns (closed: seq<Job>)
      requires Keyed(View())
      ensures ListsShelf(View(), closed)
    {
      closed := [];
      var rest := jobs.Keys;
      while rest != {}
        invariant rest <= jobs.Keys
        invariant DistinctNumbers(closed)
        invariant forall j :: j in closed <==>
                    j.pr.number in jobs && j.pr.number !in rest && jobs[j.pr.number] == j && j.closedAt.Some?
      {
        ghost var member := SomeMember(rest);
        var n :| n in rest;
        rest := rest - {n};
        if jobs[n].closedAt.Some? {
          closed := closed + [jobs[n]];
        }
      }
    }

    /** Retention: drop the merged jobs that are too old or beyond the cap.
        `stuck` are the numbers whose file cannot be deleted. */
    method PruneClosed(now: int, maxAge: int, maxCount: int, stuck: set<int>) returns (removed: seq<int>)
      requires Keyed(View())
      modifies this, disk
      ensures View() == Remove(old(View()), set n | n in removed)
      ensures disk.files == old(disk.files) - ((set n | n in removed) - stuck)
      ensures forall n :: n in removed ==>
                && Shelved(old(View()), n)
                && (Expired(old(jobs)[n], now, maxAge) || (maxCount > 0 && OverCap(old(View()), n, maxCount)))
      ensures forall n, m :: n in removed && Shelved(old(View()), n) && !Expired(old(jobs)[n], now, maxAge) && Shelved(View(), m) ==>
                jobs[m].closedAt.value >= old(jobs)[n].closedAt.value
      ensures forall n :: Shelved(View(), n) ==> !Expired(jobs[n], now, maxAge)
      ensures maxCount > 0 ==> |set n | n in jobs && jobs[n].closedAt.Some?| <= maxCount
    {
      var found := ClosedJobs();
      var closed := Sort(NewestFirst, found);
      ReorderedListsShelf(View(), found, closed);
      removed := [];
      for i := 0 to |closed|
        invariant forall n :: n in removed <==>
                    exists k :: 0 <= k < i && closed[k].pr.number == n && Doomed(closed, k, now, maxAge, maxCount)
      {
        if Doomed(closed, i, now, maxAge, maxCount) {
          removed := removed + [closed[i].pr.number];
        }
      }
      ghost var s := View();
      RemovedAreDoomed(s, closed, removed, now, maxAge, maxCount);
      forall n, m | n in removed && Shelved(s, n) && !Expired(s.jobs[n], now, maxAge) && Shelved(s, m) && m !in removed
        ensures s.jobs[m].closedAt.value >= s.jobs[n].closedAt.value
      {
        KeptAreNewer(s, closed, removed, now, maxAge, maxCount, n, m);
      }
      jobs := jobs - (set n | n in removed);
      KeptAreNot(s, closed, removed, now, maxAge, maxCount);
      DeleteAll(removed, stuck);
    }

    method DeleteAll(numbers: seq<int>, stuck: set<int>)
      modifies disk
      ensures disk.files == old(disk.files) - ((set n | n in numbers) - stuck)
    {
      for i := 0 to |numbers|
        invariant disk.files == old(disk.files) - ((set n | n in numbers[..i]) - stuck)
      {
        disk.Delete(numbers[i], numbers[i] in stuck);
        assert numbers[..i + 1] == numbers[..i] + [numbers[i]];
      }
      assert numbers[..|numbers|] == numbers;
    }
  }
}
