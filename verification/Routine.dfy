/** The "routine" signal: every changed resource differs only at image references and
    chart-version fields. */
module Routine {
  import opened Decimal
  import opened Prelude

  /** A parsed manifest value; numbers and booleans are kept as their rendered text. */
  datatype Value = Null | Scalar(text: string) | Obj(fields: map<string, Value>) | Arr(items: seq<Value>)

  type Path = seq<string>

  datatype Status = Added | Removed | Changed

  /** One changed resource, both sides already in rendered form. */
  datatype Change = Change(status: Status, kind: string, before: map<string, Value>, after: map<string, Value>)

  /** Reading a missing key yields null, as indexing a map does in the source. */
  function Get(m: map<string, Value>, k: string): Value
  {
    if k in m then m[k] else Null
  }

  // ---- array indices as path segments ----

  /** The index below `n` a segment names, if any. */
  function IndexOf(seg: string, n: nat): (r: Option<nat>)
    ensures r.Some? ==> r.value < n && Itoa(r.value) == seg
  {
    if n == 0 then None else if Itoa(n - 1) == seg then Some(n - 1) else IndexOf(seg, n - 1)
  }

  lemma {:induction false} IndexOfItoa(i: nat, n: nat)
    requires i < n
    ensures IndexOf(Itoa(i), n) == Some(i)
  {
    if Itoa(n - 1) == Itoa(i) {
      ItoaInjective(n - 1, i);
    } else {
      IndexOfItoa(i, n - 1);
    }
  }

  // ---- what a comparison should report ----

  /** A manifest up to "null means absent": object entries that are null are dropped. */
  function Canon(v: Value): Value
  {
    match v
    case Obj(m) => Obj(map k | k in m && !m[k].Null? :: Canon(m[k]))
    case Arr(xs) => Arr(CanonItems(xs))
    case _ => v
  }

  function CanonItems(xs: seq<Value>): (ys: seq<Value>)
    ensures |ys| == |xs| && forall i :: 0 <= i < |xs| ==> ys[i] == Canon(xs[i])
  {
    if xs == [] then [] else [Canon(xs[0])] + CanonItems(xs[1..])
  }

  /** What a path leads to; null when it leads nowhere. */
  function Sub(v: Value, p: Path): Value
    decreases |p|
  {
    if p == [] then v
    else
      match v
      case Obj(m) => Sub(Get(m, p[0]), p[1..])
      case Arr(xs) =>
        var i := IndexOf(p[0], |xs|);
        if i.Some? then Sub(xs[i.value], p[1..]) else Null
      case _ => Null
  }

  /** `v`, sitting at path `at`, with every subtree at an accepted path blanked out. */
  function Erase(v: Value, accept: Path -> bool, at: Path): Value
    decreases v, 0
  {
    if accept(at) then Null
    else
      match v
      case Obj(m) => Obj(map k | k in m :: Erase(m[k], accept, at + [k]))
      case Arr(xs) => Arr(EraseItems(v, accept, at, |xs|))
      case _ => v
  }

  function EraseItems(v: Value, accept: Path -> bool, at: Path, n: nat): (ys: seq<Value>)
    requires v.Arr? && n <= |v.items|
    ensures |ys| == n && forall i :: 0 <= i < n ==> ys[i] == Erase(v.items[i], accept, at + [Itoa(i)])
    decreases v, 0, n
  {
    if n == 0 then [] else EraseItems(v, accept, at, n - 1) + [Erase(v.items[n - 1], accept, at + [Itoa(n - 1)])]
  }

  predicate EqualOutside(accept: Path -> bool, o: Value, n: Value)
  {
    Canon(Erase(o, accept, [])) == Canon(Erase(n, accept, []))
  }

  /** The walk reports path `p`, relative to the pair it starts from. */
  predicate Diverges(o: Value, n: Value, p: Path)
    decreases |p|
  {
    if o.Obj? && n.Obj? then
      p != [] && (p[0] in o.fields || p[0] in n.fields) && Diverges(Get(o.fields, p[0]), Get(n.fields, p[0]), p[1..])
    else if o.Arr? && n.Arr? then
      if |o.items| != |n.items| then p == []
      else
        p != [] &&
        var i := IndexOf(p[0], |o.items|);
        i.Some? && Diverges(o.items[i.value], n.items[i.value], p[1..])
    else p == [] && o != n
  }

  // ---- the program ----

  predicate Under(at: Path, q: Path)
  {
    |at| <= |q| && q[..|at|] == at
  }

  /** `found` lists once each the paths under `at` where `o` and `n` diverge and whose
      next segment is one of `segs`. */
  ghost predicate Reports(found: seq<Path>, o: Value, n: Value, at: Path, segs: set<string>)
  {
    && (forall q :: q in found <==> Under(at, q) && |at| < |q| && q[|at|] in segs && Diverges(o, n, q[|at|..]))
    && (forall i, j :: 0 <= i < j < |found| ==> found[i] != found[j])
  }

  ghost predicate ReportsAll(found: seq<Path>, o: Value, n: Value, at: Path)
  {
    && (forall q :: q in found <==> Under(at, q) && Diverges(o, n, q[|at|..]))
    && (forall i, j :: 0 <= i < j < |found| ==> found[i] != found[j])
  }

  lemma BothEmpty(o: Value, n: Value, at: Path)
    requires !(o.Obj? && n.Obj?) && !(o.Arr? && n.Arr? && |o.items| == |n.items|)
    ensures Diverges(o, n, []) ==> ReportsAll([at], o, n, at)
    ensures !Diverges(o, n, []) ==> ReportsAll([], o, n, at)
  {
    forall q | Under(at, q)
      ensures Diverges(o, n, q[|at|..]) <==> q == at && Diverges(o, n, [])
    {
      if |q| == |at| {
        assert q == at && q[|at|..] == [];
      }
    }
  }

  /** `now` is `was` with more appended. */
  ghost predicate Grown(was: seq<Path>, now: seq<Path>)
  {
    |was| <= |now| && now[..|was|] == was
  }

  ghost predicate Since(was: seq<Path>, now: seq<Path>, o: Value, n: Value, at: Path)
  {
    Grown(was, now) && ReportsAll(now[|was|..], o, n, at)
  }

  ghost predicate SinceFor(was: seq<Path>, now: seq<Path>, o: Value, n: Value, at: Path, segs: set<string>)
  {
    Grown(was, now) && Reports(now[|was|..], o, n, at, segs)
  }

  class Walker {
    var out: seq<Path>

    constructor ()
      ensures out == []
    {
      out := [];
    }

    method Walk(o: Value, n: Value, path: Path)
      modifies this
      ensures Since(old(out), out, o, n, path)
      decreases if o.Null? || n.Null? then 0 else 1, o, 1
    {
      if o.Obj? && n.Obj? {
        WalkFields(o, n, path);
        return;
      }
      if o.Arr? && n.Arr? && |o.items| == |n.items| {
        WalkItems(o, n, path);
        return;
      }
      BothEmpty(o, n, path);
      ghost var was := out;
      if o != n {
        out := out + [path];
        assert out[|was|..] == [path];
      } else {
        assert out[|was|..] == [];
      }
    }

    method WalkFields(o: Value, n: Value, path: Path)
      requires o.Obj? && n.Obj?
      modifies this
      ensures Since(old(out), out, o, n, path)
      decreases 1, o, 0
    {
      ghost var was := out;
      var todo := o.fields.Keys + n.fields.Keys;
      ghost var done: set<string> := {};
      NothingReported(o, n, path, was);
      while todo != {}
        invariant todo + done == o.fields.Keys + n.fields.Keys && todo !! done
        invariant SinceFor(was, out, o, n, path, done)
        decreases |todo|
      {
        ghost var member := SomeMember(todo);
        var k :| k in todo;
        ghost var before := out;
        Walk(Get(o.fields, k), Get(n.fields, k), path + [k]);
        FieldReported(o, n, path, k, was, before, out, done);
        done := done + {k};
        todo := todo - {k};
      }
      FieldsReported(o, n, path, was, out);
    }

    method WalkItems(o: Value, n: Value, path: Path)
      requires o.Arr? && n.Arr? && |o.items| == |n.items|
      modifies this
      ensures Since(old(out), out, o, n, path)
      decreases 1, o, 0
    {
      ghost var was := out;
      NothingReported(o, n, path, was);
      for i := 0 to |o.items|
        invariant SinceFor(was, out, o, n, path, Segs(i))
      {
        ghost var before := out;
        Walk(o.items[i], n.items[i], path + [Itoa(i)]);
        ItemReported(o, n, path, i, was, before, out);
      }
      ItemsReported(o, n, path, was, out);
    }
  }

  /** What `o` and `n` have below segment `k` is the pair `o'`, `n'`. */
  ghost predicate Splits(o: Value, n: Value, k: string, o': Value, n': Value)
  {
    forall p: Path :: p != [] && p[0] == k ==> (Diverges(o, n, p) <==> Diverges(o', n', p[1..]))
  }

  lemma FieldSplits(o: Value, n: Value, k: string)
    requires o.Obj? && n.Obj? && (k in o.fields || k in n.fields)
    ensures Splits(o, n, k, Get(o.fields, k), Get(n.fields, k))
  {
  }

  lemma ItemSplits(o: Value, n: Value, i: nat)
    requires o.Arr? && n.Arr? && |o.items| == |n.items| && i < |o.items|
    ensures Splits(o, n, Itoa(i), o.items[i], n.items[i])
  {
    IndexOfItoa(i, |o.items|);
  }

  /** The segments of the first `n` array indices. */
  function Segs(n: nat): set<string>
  {
    if n == 0 then {} else Segs(n - 1) + {Itoa(n - 1)}
  }

  lemma {:induction false} SegsAll(n: nat)
    ensures forall s :: s in Segs(n) <==> IndexOf(s, n).Some?
  {
    if n > 0 {
      SegsAll(n - 1);
    }
  }

  lemma SegsNext(i: nat)
    ensures Itoa(i) !in Segs(i) && Segs(i + 1) == Segs(i) + {Itoa(i)}
  {
    SegsAll(i);
    var j := IndexOf(Itoa(i), i);
    if j.Some? {
      ItoaInjective(i, j.value);
    }
  }

  lemma UnderSegment(at: Path, k: string, q: Path)
    ensures Under(at + [k], q) <==> Under(at, q) && |at| < |q| && q[|at|] == k
    ensures Under(at + [k], q) ==> q[|at|..] != [] && q[|at|..][0] == k && q[|at|..][1..] == q[|at + [k]|..]
  {
    if |at| < |q| {
      assert q[..|at| + 1] == q[..|at|] + [q[|at|]];
    }
  }

  lemma GrownOn(was: seq<Path>, before: seq<Path>, now: seq<Path>)
    requires Grown(was, before) && Grown(before, now)
    ensures Grown(was, now) && now[|was|..] == before[|was|..] + now[|before|..]
  {
    assert now[..|was|] == now[..|before|][..|was|];
  }

  /** Walking one more segment's pair extends the report to that segment. */
  lemma ReportsSegment(o: Value, n: Value, at: Path, k: string, o': Value, n': Value,
                       was: seq<Path>, before: seq<Path>, now: seq<Path>, done: set<string>)
    requires Splits(o, n, k, o', n') && k !in done
    requires SinceFor(was, before, o, n, at, done)
    requires Since(before, now, o', n', at + [k])
    ensures SinceFor(was, now, o, n, at, done + {k})
  {
    GrownOn(was, before, now);
    ReportsJoin(o, n, at, k, o', n', before[|was|..], now[|before|..], done);
  }

  lemma ReportsJoin(o: Value, n: Value, at: Path, k: string, o': Value, n': Value,
                    sofar: seq<Path>, more: seq<Path>, done: set<string>)
    requires Splits(o, n, k, o', n') && k !in done
    requires Reports(sofar, o, n, at, done)
    requires ReportsAll(more, o', n', at + [k])
    ensures Reports(sofar + more, o, n, at, done + {k})
  {
    forall q
      ensures q in more <==> Under(at, q) && |at| < |q| && q[|at|] == k && Diverges(o, n, q[|at|..])
    {
      UnderSegment(at, k, q);
    }
    forall q
      ensures q in sofar + more <==>
              Under(at, q) && |at| < |q| && q[|at|] in done + {k} && Diverges(o, n, q[|at|..])
    {
      assert q in sofar + more <==> q in sofar || q in more;
    }
    forall i, j | 0 <= i < j < |sofar + more|
      ensures (sofar + more)[i] != (sofar + more)[j]
    {
      if i < |sofar| <= j {
        assert (sofar + more)[i] in sofar && (sofar + more)[j] in more;
      }
    }
  }

  /** Every divergence below the top starts with one of the segments walked. */
  lemma ReportsDone(o: Value, n: Value, at: Path, all: seq<Path>, done: set<string>)
    requires Reports(all, o, n, at, done)
    requires forall p :: Diverges(o, n, p) ==> p != [] && p[0] in done
    ensures ReportsAll(all, o, n, at)
  {
    forall q | Under(at, q) && Diverges(o, n, q[|at|..])
      ensures |at| < |q| && q[|at|] in done
    {
      var p := q[|at|..];
      assert p[0] == q[|at|];
    }
  }

  lemma ItemReported(o: Value, n: Value, at: Path, i: nat, was: seq<Path>, before: seq<Path>, now: seq<Path>)
    requires o.Arr? && n.Arr? && |o.items| == |n.items| && i < |o.items|
    requires SinceFor(was, before, o, n, at, Segs(i))
    requires Since(before, now, o.items[i], n.items[i], at + [Itoa(i)])
    ensures SinceFor(was, now, o, n, at, Segs(i + 1))
  {
    ItemSplits(o, n, i);
    SegsNext(i);
    ReportsSegment(o, n, at, Itoa(i), o.items[i], n.items[i], was, before, now, Segs(i));
  }

  lemma ItemsReported(o: Value, n: Value, at: Path, was: seq<Path>, now: seq<Path>)
    requires o.Arr? && n.Arr? && |o.items| == |n.items|
    requires SinceFor(was, now, o, n, at, Segs(|o.items|))
    ensures Since(was, now, o, n, at)
  {
    SegsAll(|o.items|);
    ReportsDone(o, n, at, now[|was|..], Segs(|o.items|));
  }

  lemma FieldReported(o: Value, n: Value, at: Path, k: string, was: seq<Path>, before: seq<Path>, now: seq<Path>, done: set<string>)
    requires o.Obj? && n.Obj? && (k in o.fields || k in n.fields) && k !in done
    requires SinceFor(was, before, o, n, at, done)
    requires Since(before, now, Get(o.fields, k), Get(n.fields, k), at + [k])
    ensures SinceFor(was, now, o, n, at, done + {k})
  {
    FieldSplits(o, n, k);
    ReportsSegment(o, n, at, k, Get(o.fields, k), Get(n.fields, k), was, before, now, done);
  }

  lemma FieldsReported(o: Value, n: Value, at: Path, was: seq<Path>, now: seq<Path>)
    requires o.Obj? && n.Obj?
    requires SinceFor(was, now, o, n, at, o.fields.Keys + n.fields.Keys)
    ensures Since(was, now, o, n, at)
  {
    ReportsDone(o, n, at, now[|was|..], o.fields.Keys + n.fields.Keys);
  }

  lemma NothingReported(o: Value, n: Value, at: Path, was: seq<Path>)
    ensures SinceFor(was, was, o, n, at, {})
  {
  }

  method ChangedPaths(o: Value, n: Value) returns (paths: seq<Path>)
    ensures forall p :: p in paths <==> Diverges(o, n, p)
    ensures forall i, j :: 0 <= i < j < |paths| ==> paths[i] != paths[j]
  {
    var w := new Walker();
    w.Walk(o, n, []);
    paths := w.out;
    assert w.out[0..] == w.out;
    forall p
      ensures p in paths <==> Diverges(o, n, p)
    {
      assert p[0..] == p && Under([], p);
    }
  }

  // ---- the allowlist and the verdict ----

  predicate RoutineField(kind: string, path: Path)
  {
    var n := |path|;
    n > 0 && (
      || path[n - 1] == "image"
      || (n >= 2 && path[n - 2] == "image" && (path[n - 1] == "tag" || path[n - 1] == "digest"))
      || path == ["metadata", "labels", "helm.sh/chart"]
      || path == ["metadata", "labels", "app.kubernetes.io/version"]
      || VersionRef(kind, path))
  }

  predicate VersionRef(kind: string, path: Path)
  {
    if kind == "OCIRepository" || kind == "HelmRepository" then
      path == ["spec", "ref", "tag"] || path == ["spec", "ref", "digest"] || path == ["spec", "ref", "semver"]
    else if kind == "GitRepository" then path == ["spec", "ref", "tag"]
    else kind == "HelmRelease" && path == ["spec", "chart", "spec", "version"]
  }

  function RoutineFields(kind: string): Path -> bool
  {
    (p: Path) => RoutineField(kind, p)
  }

  ghost predicate RoutineChange(c: Change)
  {
    && c.status == Changed
    && (exists p :: Diverges(Obj(c.before), Obj(c.after), p))
    && (forall p :: Diverges(Obj(c.before), Obj(c.after), p) ==> RoutineField(c.kind, p))
  }

  ghost predicate RoutineAll(changes: seq<Change>)
  {
    changes != [] && forall i :: 0 <= i < |changes| ==> RoutineChange(changes[i])
  }

  method OnlyImageOrVersionChanges(changes: seq<Change>) returns (routine: bool)
    ensures routine <==> RoutineAll(changes)
  {
    if |changes| == 0 {
      return false;
    }
    for i := 0 to |changes|
      invariant forall k :: 0 <= k < i ==> RoutineChange(changes[k])
    {
      var c := changes[i];
      if c.status == Added || c.status == Removed {
        return false;
      }
      var paths := ChangedPaths(Obj(c.before), Obj(c.after));
      if |paths| == 0 {
        return false;
      }
      for j := 0 to |paths|
        invariant forall k :: 0 <= k < j ==> RoutineField(c.kind, paths[k])
      {
        assert paths[j] in paths;
        if !RoutineField(c.kind, paths[j]) {
          return false;
        }
      }
      assert paths[0] in paths;
    }
    return true;
  }

  // ---- what the reported paths say ----

  lemma CanonField(m: map<string, Value>, k: string)
    ensures Get(Canon(Obj(m)).fields, k) == Canon(Get(m, k))
  {
  }

  lemma ErasedField(m: map<string, Value>, accept: Path -> bool, at: Path, k: string)
    requires !accept(at)
    ensures Get(Canon(Erase(Obj(m), accept, at)).fields, k) == Canon(Erase(Get(m, k), accept, at + [k]))
  {
    var e := Erase(Obj(m), accept, at);
    CanonField(e.fields, k);
  }

  /** A reported path leads to different values, null standing for absent. */
  lemma {:induction false} ReportedPathsDiffer(o: Value, n: Value, p: Path)
    requires Diverges(o, n, p)
    ensures Canon(Sub(o, p)) != Canon(Sub(n, p))
    decreases |p|
  {
    if o.Obj? && n.Obj? {
      ReportedPathsDiffer(Get(o.fields, p[0]), Get(n.fields, p[0]), p[1..]);
    } else if o.Arr? && n.Arr? && |o.items| == |n.items| {
      var i := IndexOf(p[0], |o.items|).value;
      ReportedPathsDiffer(o.items[i], n.items[i], p[1..]);
    }
  }

  /** Some prefix of `p`, from `at` down to `p` itself, is accepted. */
  ghost predicate Within(accept: Path -> bool, at: Path, p: Path)
  {
    exists j :: 0 <= j <= |p| && accept(at + p[..j])
  }

  lemma WithinBelow(accept: Path -> bool, at: Path, p: Path)
    requires p != [] && !accept(at)
    ensures Within(accept, at, p) <==> Within(accept, at + [p[0]], p[1..])
  {
    var at', p' := at + [p[0]], p[1..];
    assert at + p[..0] == at;
    forall j | 0 < j <= |p|
      ensures at + p[..j] == at' + p'[..j - 1]
    {
      assert p[..j] == [p[0]] + p'[..j - 1];
    }
    if Within(accept, at, p) {
      var j :| 0 <= j <= |p| && accept(at + p[..j]);
      assert accept(at' + p'[..j - 1]);
    }
    if Within(accept, at', p') {
      var j :| 0 <= j <= |p'| && accept(at' + p'[..j]);
      assert at + p[..j + 1] == at' + p'[..j + 1 - 1];
    }
  }

  ghost predicate Alike(o: Value, n: Value, accept: Path -> bool, at: Path)
  {
    Canon(Erase(o, accept, at)) == Canon(Erase(n, accept, at))
  }

  lemma ErasedItem(v: Value, accept: Path -> bool, at: Path, i: nat)
    requires v.Arr? && i < |v.items| && !accept(at)
    ensures Canon(Erase(v, accept, at)).Arr? && |Canon(Erase(v, accept, at)).items| == |v.items|
    ensures Canon(Erase(v, accept, at)).items[i] == Canon(Erase(v.items[i], accept, at + [Itoa(i)]))
  {
    var e := Erase(v, accept, at);
    assert Canon(e).items[i] == Canon(e.items[i]);
  }

  lemma FieldShows(o: Value, n: Value, accept: Path -> bool, at: Path, k: string)
    requires o.Obj? && n.Obj? && !accept(at)
    requires !Alike(Get(o.fields, k), Get(n.fields, k), accept, at + [k])
    ensures !Alike(o, n, accept, at)
  {
    ErasedField(o.fields, accept, at, k);
    ErasedField(n.fields, accept, at, k);
  }

  lemma ItemShows(o: Value, n: Value, accept: Path -> bool, at: Path, i: nat)
    requires o.Arr? && n.Arr? && |o.items| == |n.items| && i < |o.items| && !accept(at)
    requires !Alike(o.items[i], n.items[i], accept, at + [Itoa(i)])
    ensures !Alike(o, n, accept, at)
  {
    ErasedItem(o, accept, at, i);
    ErasedItem(n, accept, at, i);
  }

  lemma MismatchShows(o: Value, n: Value, accept: Path -> bool, at: Path)
    requires Diverges(o, n, []) && !accept(at)
    ensures !Alike(o, n, accept, at)
  {
    if o.Arr? && n.Arr? {
      assert |Canon(Erase(o, accept, at)).items| == |o.items|;
      assert |Canon(Erase(n, accept, at)).items| == |n.items|;
    }
  }

  /** A reported path outside every accepted subtree survives the erasing. */
  lemma {:induction false} UnacceptedShows(o: Value, n: Value, accept: Path -> bool, at: Path, p: Path)
    requires Diverges(o, n, p) && !Within(accept, at, p)
    ensures !Alike(o, n, accept, at)
    decreases |p|
  {
    assert at + p[..0] == at;
    if p == [] {
      MismatchShows(o, n, accept, at);
      return;
    }
    WithinBelow(accept, at, p);
    if o.Obj? {
      UnacceptedShows(Get(o.fields, p[0]), Get(n.fields, p[0]), accept, at + [p[0]], p[1..]);
      FieldShows(o, n, accept, at, p[0]);
    } else {
      var i := IndexOf(p[0], |o.items|).value;
      UnacceptedShows(o.items[i], n.items[i], accept, at + [Itoa(i)], p[1..]);
      ItemShows(o, n, accept, at, i);
    }
  }

  lemma FieldDiffers(o: Value, n: Value, accept: Path -> bool, at: Path) returns (k: string)
    requires o.Obj? && n.Obj? && !accept(at) && !Alike(o, n, accept, at)
    ensures (k in o.fields || k in n.fields) && !Alike(Get(o.fields, k), Get(n.fields, k), accept, at + [k])
  {
    var ko, kn := Canon(Erase(o, accept, at)).fields, Canon(Erase(n, accept, at)).fields;
    CanonDropsNulls(Erase(o, accept, at).fields);
    CanonDropsNulls(Erase(n, accept, at).fields);
    MapsByGet(ko, kn);
    k :| Get(ko, k) != Get(kn, k);
    ErasedField(o.fields, accept, at, k);
    ErasedField(n.fields, accept, at, k);
  }

  lemma CanonDropsNulls(m: map<string, Value>)
    ensures forall k :: k in Canon(Obj(m)).fields ==> !Canon(Obj(m)).fields[k].Null?
  {
  }

  /** Maps without null entries are told apart by reading some key. */
  lemma MapsByGet(a: map<string, Value>, b: map<string, Value>)
    requires forall k :: k in a ==> !a[k].Null?
    requires forall k :: k in b ==> !b[k].Null?
    ensures (forall k :: Get(a, k) == Get(b, k)) ==> a == b
  {
    if forall k :: Get(a, k) == Get(b, k) {
      assert forall k :: k in a <==> Get(a, k) != Null;
      assert forall k :: k in a ==> a[k] == Get(a, k) && b[k] == Get(b, k);
    }
  }

  lemma ItemDiffers(o: Value, n: Value, accept: Path -> bool, at: Path) returns (i: nat)
    requires o.Arr? && n.Arr? && |o.items| == |n.items| && !accept(at) && !Alike(o, n, accept, at)
    ensures i < |o.items| && !Alike(o.items[i], n.items[i], accept, at + [Itoa(i)])
  {
    var eo, en := Canon(Erase(o, accept, at)).items, Canon(Erase(n, accept, at)).items;
    assert |eo| == |o.items| && |en| == |n.items|;
    i :| 0 <= i < |eo| && eo[i] != en[i];
    ErasedItem(o, accept, at, i);
    ErasedItem(n, accept, at, i);
  }

  /** A difference that survives the erasing is reported, outside every accepted subtree. */
  lemma {:induction false} DifferenceReported(o: Value, n: Value, accept: Path -> bool, at: Path) returns (p: Path)
    requires !Alike(o, n, accept, at)
    ensures Diverges(o, n, p) && !Within(accept, at, p)
    decreases if o.Null? || n.Null? then 0 else 1, o
  {
    if o.Obj? && n.Obj? {
      var k := FieldDiffers(o, n, accept, at);
      var rest := DifferenceReported(Get(o.fields, k), Get(n.fields, k), accept, at + [k]);
      p := [k] + rest;
      WithinBelow(accept, at, p);
    } else if o.Arr? && n.Arr? && |o.items| == |n.items| {
      var i := ItemDiffers(o, n, accept, at);
      var rest := DifferenceReported(o.items[i], n.items[i], accept, at + [Itoa(i)]);
      IndexOfItoa(i, |o.items|);
      p := [Itoa(i)] + rest;
      WithinBelow(accept, at, p);
    } else {
      p := [];
      assert forall j :: 0 <= j <= |p| ==> at + p[..j] == at;
    }
  }

  /** Blanking the accepted subtrees makes the two sides equal exactly when every
      reported path lies in one of them. */
  lemma ReportIsExact(o: Value, n: Value, accept: Path -> bool)
    ensures EqualOutside(accept, o, n) <==> forall p :: Diverges(o, n, p) ==> Within(accept, [], p)
  {
    if EqualOutside(accept, o, n) {
      forall p | Diverges(o, n, p)
        ensures Within(accept, [], p)
      {
        if !Within(accept, [], p) {
          UnacceptedShows(o, n, accept, [], p);
        }
      }
    } else {
      var p := DifferenceReported(o, n, accept, []);
    }
  }

  function AcceptNothing(): Path -> bool
  {
    (p: Path) => false
  }

  lemma {:induction false} EraseNothing(v: Value, at: Path)
    ensures Erase(v, AcceptNothing(), at) == v
    decreases v
  {
    match v
    case Obj(m) =>
      forall k | k in m
        ensures Erase(m[k], AcceptNothing(), at + [k]) == m[k]
      {
        EraseNothing(m[k], at + [k]);
      }
    case Arr(xs) =>
      forall i | 0 <= i < |xs|
        ensures Erase(xs[i], AcceptNothing(), at + [Itoa(i)]) == xs[i]
      {
        EraseNothing(xs[i], at + [Itoa(i)]);
      }
    case _ =>
  }

  /** Nothing is reported exactly for manifests that are equal, null meaning absent. */
  lemma SilentExactlyWhenEqual(o: Value, n: Value)
    ensures (forall p :: !Diverges(o, n, p)) <==> Canon(o) == Canon(n)
  {
    EraseNothing(o, []);
    EraseNothing(n, []);
    ReportIsExact(o, n, AcceptNothing());
    forall p
      ensures !Within(AcceptNothing(), [], p)
    {
    }
  }

  /** A routine change is equal on both sides outside the allowlisted subtrees, and does
      differ inside one. */
  lemma RoutineHidesNothing(c: Change) returns (p: Path)
    requires RoutineChange(c)
    ensures c.status == Changed
    ensures EqualOutside(RoutineFields(c.kind), Obj(c.before), Obj(c.after))
    ensures RoutineField(c.kind, p) && Canon(Sub(Obj(c.before), p)) != Canon(Sub(Obj(c.after), p))
  {
    var o, n := Obj(c.before), Obj(c.after);
    forall q | Diverges(o, n, q)
      ensures Within(RoutineFields(c.kind), [], q)
    {
      assert [] + q[..|q|] == q;
      assert RoutineFields(c.kind)([] + q[..|q|]);
    }
    ReportIsExact(o, n, RoutineFields(c.kind));
    p :| Diverges(o, n, p);
    ReportedPathsDiffer(o, n, p);
  }

  lemma DivergenceShows(o: Value, n: Value, p: Path)
    requires Diverges(o, n, p)
    ensures Canon(o) != Canon(n)
  {
    EraseNothing(o, []);
    EraseNothing(n, []);
    UnacceptedShows(o, n, AcceptNothing(), [], p);
  }

  lemma SomeDivergence(o: Value, n: Value) returns (p: Path)
    requires Canon(o) != Canon(n)
    ensures Diverges(o, n, p)
  {
    SilentExactlyWhenEqual(o, n);
    p :| Diverges(o, n, p);
  }

  /** No report lies strictly below an allowlisted field without being one itself. */
  ghost predicate ReportsAtFields(c: Change)
  {
    forall p :: Diverges(Obj(c.before), Obj(c.after), p) && Within(RoutineFields(c.kind), [], p) ==>
      RoutineField(c.kind, p)
  }

  /** Routine says more than equality outside the allowlisted subtrees: the sides differ,
      and each report is at an allowlisted field, not below one as a change of
      `image.repository` is. */
  lemma RoutineExactly(c: Change)
    ensures RoutineChange(c) <==>
            && c.status == Changed && Canon(Obj(c.before)) != Canon(Obj(c.after))
            && EqualOutside(RoutineFields(c.kind), Obj(c.before), Obj(c.after)) && ReportsAtFields(c)
  {
    var o, n := Obj(c.before), Obj(c.after);
    ReportIsExact(o, n, RoutineFields(c.kind));
    if RoutineChange(c) {
      var p := RoutineHidesNothing(c);
      var q :| Diverges(o, n, q);
      DivergenceShows(o, n, q);
      assert ReportsAtFields(c);
    } else if c.status == Changed && Canon(o) != Canon(n) && EqualOutside(RoutineFields(c.kind), o, n) {
      var p := SomeDivergence(o, n);
      var q :| Diverges(o, n, q) && !RoutineField(c.kind, q);
      assert Within(RoutineFields(c.kind), [], q);
      assert !ReportsAtFields(c);
    }
  }

  // ---- which fields are routine ----

  /** Two values the walk reports where they stand, looking no deeper. */
  predicate OneReport(x: Value, y: Value)
  {
    !(x.Obj? && y.Obj?) && (x.Arr? && y.Arr? ==> |x.items| != |y.items|) && x != y
  }

  /** `v` alone, under the keys of `p`. */
  function Nest(p: Path, v: Value): Value
  {
    if p == [] then v else Obj(map[p[0] := Nest(p[1..], v)])
  }

  lemma {:induction false} NestedDivergence(p: Path, x: Value, y: Value, q: Path)
    requires OneReport(x, y)
    ensures Diverges(Nest(p, x), Nest(p, y), q) <==> q == p
    decreases |p|
  {
    if p != [] {
      if q != [] {
        NestedDivergence(p[1..], x, y, q[1..]);
        assert q == [q[0]] + q[1..] && p == [p[0]] + p[1..];
      }
    }
  }

  lemma {:induction false} NestedValue(p: Path, v: Value)
    ensures Sub(Nest(p, v), p) == v
    decreases |p|
  {
    if p != [] {
      NestedValue(p[1..], v);
    }
  }

  /** The change that only turns `x`, at `p`, into `y`. */
  function OneField(kind: string, p: Path, x: Value, y: Value): Change
    requires p != []
  {
    Change(Changed, kind, Nest(p, x).fields, Nest(p, y).fields)
  }

  lemma OneFieldIsRoutineExactly(kind: string, p: Path, x: Value, y: Value)
    requires p != [] && OneReport(x, y)
    ensures Diverges(Obj(OneField(kind, p, x, y).before), Obj(OneField(kind, p, x, y).after), p)
    ensures RoutineChange(OneField(kind, p, x, y)) <==> RoutineField(kind, p)
  {
    var c := OneField(kind, p, x, y);
    assert Obj(c.before) == Nest(p, x) && Obj(c.after) == Nest(p, y);
    forall q
      ensures Diverges(Obj(c.before), Obj(c.after), q) <==> q == p
    {
      NestedDivergence(p, x, y, q);
    }
  }

  ghost predicate Reported(c: Change, p: Path)
  {
    Diverges(Obj(c.before), Obj(c.after), p)
  }

  /** A resource is judged field by field: it is routine exactly when it changed in place,
      something is reported, and changing any reported field alone would be routine. */
  lemma FieldsDecideAlone(c: Change)
    ensures RoutineChange(c) <==>
            && c.status == Changed && (exists p :: Reported(c, p))
            && forall p :: Reported(c, p) ==> p != [] && RoutineChange(OneField(c.kind, p, Null, Arr([])))
  {
    var o, n := Obj(c.before), Obj(c.after);
    forall p | Reported(c, p)
      ensures p != [] && (RoutineChange(OneField(c.kind, p, Null, Arr([]))) <==> RoutineField(c.kind, p))
    {
      OneFieldIsRoutineExactly(c.kind, p, Null, Arr([]));
    }
    if RoutineChange(c) {
      var p :| Diverges(o, n, p);
      assert Reported(c, p);
    } else if c.status == Changed && exists p :: Reported(c, p) {
      var p :| Reported(c, p);
      assert Diverges(o, n, p);
      var q :| Diverges(o, n, q) && !RoutineField(c.kind, q);
      assert Reported(c, q);
    }
  }

  predicate EndsWith(q: Path, seg: string)
  {
    q != [] && q[|q| - 1] == seg
  }

  lemma PathOfThree(q: Path, s: string, a: string, b: string, c: string)
    ensures q + [s] == [a, b, c] <==> q == [a, b] && s == c
  {
    if q + [s] == [a, b, c] {
      assert (q + [s])[..|q|] == q && (q + [s])[|q|] == s;
    }
  }

  lemma PathOfFour(q: Path, s: string, a: string, b: string, c: string, d: string)
    ensures q + [s] == [a, b, c, d] <==> q == [a, b, c] && s == d
  {
    if q + [s] == [a, b, c, d] {
      assert (q + [s])[..|q|] == q && (q + [s])[|q|] == s;
    }
  }

  /** The allowlist by the last segment of a path. */
  lemma FieldBySegment(kind: string, q: Path, s: string)
    ensures RoutineField(kind, q + [s]) <==>
            || s == "image"
            || (EndsWith(q, "image") && (s == "tag" || s == "digest"))
            || (q == ["metadata", "labels"] && (s == "helm.sh/chart" || s == "app.kubernetes.io/version"))
            || VersionRef(kind, q + [s])
  {
    PathOfThree(q, s, "metadata", "labels", "helm.sh/chart");
    PathOfThree(q, s, "metadata", "labels", "app.kubernetes.io/version");
    var p := q + [s];
    assert p[|p| - 1] == s && (q != [] ==> p[|p| - 2] == q[|q| - 1]);
  }

  predicate Registry(kind: string)
  {
    kind == "OCIRepository" || kind == "HelmRepository"
  }

  lemma VersionBySegment(kind: string, q: Path, s: string)
    ensures VersionRef(kind, q + [s]) <==>
            || (q == ["spec", "ref"] && s == "tag" && (Registry(kind) || kind == "GitRepository"))
            || (q == ["spec", "ref"] && (s == "digest" || s == "semver") && Registry(kind))
            || (q == ["spec", "chart", "spec"] && s == "version" && kind == "HelmRelease")
  {
    PathOfThree(q, s, "spec", "ref", "tag");
    PathOfThree(q, s, "spec", "ref", "digest");
    PathOfThree(q, s, "spec", "ref", "semver");
    PathOfFour(q, s, "spec", "chart", "spec", "version");
  }

  /** The verdict on a resource in which the one field `q.s` changed: an image anywhere; the
      tag or digest of an image anywhere; the pinned version of a source or release, of its
      own kind only; the two chart labels; and no field whose name is another. */
  lemma VerdictOnOneField(kind: string, q: Path, s: string, x: Value, y: Value)
    requires OneReport(x, y)
    ensures var routine := RoutineAll([OneField(kind, q + [s], x, y)]);
            && (s == "image" ==> routine)
            && (s == "tag" ==>
                  (routine <==> (EndsWith(q, "image") || (q == ["spec", "ref"] && (Registry(kind) || kind == "GitRepository")))))
            && (s == "digest" ==> (routine <==> (EndsWith(q, "image") || (q == ["spec", "ref"] && Registry(kind)))))
            && (s == "semver" ==> (routine <==> q == ["spec", "ref"] && Registry(kind)))
            && (s == "version" ==> (routine <==> q == ["spec", "chart", "spec"] && kind == "HelmRelease"))
            && (s == "helm.sh/chart" || s == "app.kubernetes.io/version" ==> (routine <==> q == ["metadata", "labels"]))
            && (routine ==> s == "image" || s == "tag" || s == "digest" || s == "semver" || s == "version"
                            || s == "helm.sh/chart" || s == "app.kubernetes.io/version")
  {
    OneFieldIsRoutineExactly(kind, q + [s], x, y);
    assert RoutineAll([OneField(kind, q + [s], x, y)]) <==> RoutineChange([OneField(kind, q + [s], x, y)][0]);
    FieldBySegment(kind, q, s);
    VersionBySegment(kind, q, s);
  }

  // ---- resized arrays ----

  /** The walk reports `p` because the arrays there have different lengths. */
  ghost predicate Resized(c: Change, p: Path)
  {
    var x, y := Sub(Obj(c.before), p), Sub(Obj(c.after), p);
    Diverges(Obj(c.before), Obj(c.after), p) && x.Arr? && y.Arr? && |x.items| != |y.items|
  }

  /** Resizing one array, whatever it holds, is routine exactly at an allowlisted path. */
  lemma ResizingIsRoutineExactly(kind: string, p: Path, xs: seq<Value>, ys: seq<Value>)
    requires p != [] && |xs| != |ys|
    ensures Resized(OneField(kind, p, Arr(xs), Arr(ys)), p)
    ensures RoutineChange(OneField(kind, p, Arr(xs), Arr(ys))) <==> RoutineField(kind, p)
  {
    var c := OneField(kind, p, Arr(xs), Arr(ys));
    assert Obj(c.before) == Nest(p, Arr(xs)) && Obj(c.after) == Nest(p, Arr(ys));
    OneFieldIsRoutineExactly(kind, p, Arr(xs), Arr(ys));
    NestedValue(p, Arr(xs));
    NestedValue(p, Arr(ys));
  }

  /** Contrary to the comment above changedPaths, a resized array is not always rejected:
      every change that resizes one at `p` is, exactly when `p` is not allowlisted. */
  lemma ResizedArraysAreRejectedExactly(kind: string, p: Path)
    ensures (forall c: Change :: c.kind == kind && c.status == Changed && Resized(c, p) ==> !RoutineChange(c))
            <==> !RoutineField(kind, p)
  {
    if RoutineField(kind, p) {
      ResizingIsRoutineExactly(kind, p, [], [Null]);
      var c := OneField(kind, p, Arr([]), Arr([Null]));
      assert c.kind == kind && c.status == Changed && Resized(c, p) && RoutineChange(c);
    }
  }

  /** For one, a list of images in the values of a HelmRelease, growing from `xs` to `ys`. */
  lemma ResizedImageArrayIsRoutine(xs: seq<Value>, ys: seq<Value>)
    requires |xs| != |ys|
    ensures RoutineChange(OneField("HelmRelease", ["spec", "values", "image"], Arr(xs), Arr(ys)))
  {
    ResizingIsRoutineExactly("HelmRelease", ["spec", "values", "image"], xs, ys);
  }
}
