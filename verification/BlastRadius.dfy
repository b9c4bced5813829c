/** The blast radius: how many parents a change can wedge or re-reconcile, counted over
    the declared dependsOn graph. */
module BlastRadius {
  import opened Prelude
  import opened Ordering

  datatype Resource = Resource(kind: string, namespace: string, name: string)

  /** dependent -> its dependencies. */
  type Graph = map<Resource, seq<Resource>>

  datatype Entry = Entry(parent: string, direct: seq<string>, transitive: nat)

  const TOP_N := 10

  function NsName(namespace: string, name: string): string
  {
    if namespace == "" then name else namespace + "/" + name
  }

  function Label(r: Resource): string
  {
    r.kind + " " + NsName(r.namespace, r.name)
  }

  /** Reading a missing key of the dependents map yields an empty list. */
  function At(m: Graph, r: Resource): seq<Resource>
  {
    if r in m then m[r] else []
  }

  // ---- the specification: reachability along dependsOn ----

  predicate DependsOn(g: Graph, dependent: Resource, dependency: Resource)
  {
    dependent in g && dependency in g[dependent]
  }

  /** `p` climbs from a dependency to ever more remote dependents. */
  predicate Climbs(g: Graph, p: seq<Resource>)
  {
    forall i :: 0 <= i < |p| - 1 ==> DependsOn(g, p[i + 1], p[i])
  }

  ghost predicate Reaches(g: Graph, r: Resource, seed: Resource)
  {
    exists p :: ClimbsTo(g, p, seed, r)
  }

  predicate ClimbsTo(g: Graph, p: seq<Resource>, seed: Resource, r: Resource)
  {
    p != [] && p[0] == seed && p[|p| - 1] == r && Climbs(g, p)
  }

  /** Everything but the seed itself that depends on it, directly or not. */
  ghost function Downstream(g: Graph, seed: Resource): set<Resource>
  {
    set r | r in g.Keys && r != seed && Reaches(g, r, seed)
  }

  ghost predicate Affected(g: Graph, seed: Resource)
  {
    exists r :: DependsOn(g, r, seed)
  }

  /** The labels of what directly depends on `dependency`, in order and without repeats. */
  ghost function DirectLabels(g: Graph, dependency: Resource): seq<string>
  {
    Arrange(set r | r in g.Keys && DependsOn(g, r, dependency) :: Label(r))
  }

  ghost function EntryOf(g: Graph, seed: Resource): Entry
  {
    Entry(Label(seed), DirectLabels(g, seed), |Downstream(g, seed)|)
  }

  /** One entry for each seed. */
  ghost function EntriesOf(g: Graph, seeds: set<Resource>): multiset<Entry>
  {
    if seeds == {} then multiset{}
    else
      var s :| s in seeds;
      EntriesOf(g, seeds - {s}) + multiset{EntryOf(g, s)}
  }

  ghost function AffectedSeeds(seeds: set<Resource>, g: Graph): set<Resource>
  {
    set s | s in seeds && Affected(g, s)
  }

  /** Most dependents first, then by label. */
  predicate RankLeq(a: Entry, b: Entry)
  {
    a.transitive > b.transitive || (a.transitive == b.transitive && LexLeq(a.parent, b.parent))
  }

  /** `all` ranks exactly the seeds that something depends on, one entry each. */
  ghost predicate Ranking(seeds: set<Resource>, g: Graph, all: seq<Entry>)
  {
    SortedBy(RankLeq, all) && multiset(all) == EntriesOf(g, AffectedSeeds(seeds, g))
  }

  function Cap(all: seq<Entry>): (top: seq<Entry>)
    ensures |top| <= TOP_N
  {
    if |all| > TOP_N then all[..TOP_N] else all
  }

  /** `top` is the head of such a ranking. */
  ghost predicate TopRanked(seeds: set<Resource>, g: Graph, top: seq<Entry>)
  {
    exists all :: Ranking(seeds, g, all) && top == Cap(all)
  }

  // ---- the program ----

  ghost predicate Inverts(dependents: Graph, g: Graph)
  {
    forall dependency, r :: r in At(dependents, dependency) <==> DependsOn(g, r, dependency)
  }

  method Invert(g: Graph) returns (dependents: Graph)
    ensures Inverts(dependents, g)
  {
    dependents := map[];
    var todo := g.Keys;
    while todo != {}
      invariant todo <= g.Keys
      invariant forall d, r :: r in At(dependents, d) <==> r !in todo && DependsOn(g, r, d)
      decreases |todo|
    {
      ghost var member := SomeMember(todo);
      var dependent :| dependent in todo;
      dependents := AddDependent(dependents, dependent, g[dependent]);
      todo := todo - {dependent};
    }
  }

  method AddDependent(before: Graph, dependent: Resource, deps: seq<Resource>) returns (dependents: Graph)
    ensures forall d, r :: r in At(dependents, d) <==> r in At(before, d) || (r == dependent && d in deps)
  {
    dependents := before;
    for i := 0 to |deps|
      invariant forall d, r :: r in At(dependents, d) <==> r in At(before, d) || (r == dependent && d in deps[..i])
    {
      var dep := deps[i];
      ghost var was := dependents;
      assert forall d :: d in deps[..i + 1] <==> d in deps[..i] || d == dep;
      dependents := dependents[dep := At(dependents, dep) + [dependent]];
      assert forall d, r :: r in At(dependents, d) <==> r in At(was, d) || (r == dependent && d == dep);
    }
    assert deps[..|deps|] == deps;
  }

  method SortedLabels(rs: seq<Resource>) returns (labels: seq<string>)
    ensures labels == Arrange(set r | r in rs :: Label(r))
  {
    var raw: seq<string> := [];
    for i := 0 to |rs|
      invariant forall l :: l in raw <==> exists r :: r in rs[..i] && Label(r) == l
    {
      assert rs[..i + 1] == rs[..i] + [rs[i]];
      raw := raw + [Label(rs[i])];
    }
    assert rs[..|rs|] == rs;
    LexIsTotalOrder();
    var sorted := Sort(LexLeq, raw);
    SameElements(sorted, raw);
    labels := Compact(sorted);
    ArrangeIsUnique(labels, set r | r in rs :: Label(r));
  }

  /** `r` is what compacting the first `i` elements leaves. */
  ghost predicate Compacted(s: seq<string>, i: nat, r: seq<string>)
    requires i <= |s|
  {
    && SortedBy(LexLeq, r) && Distinct(r)
    && (forall x :: x in r <==> x in s[..i])
    && (if i == 0 then r == [] else r != [] && r[|r| - 1] == s[i - 1])
  }

  lemma CompactRepeat(s: seq<string>, i: nat, r: seq<string>)
    requires i < |s| && Compacted(s, i, r) && r != [] && r[|r| - 1] == s[i]
    ensures Compacted(s, i + 1, r)
  {
    assert s[..i + 1] == s[..i] + [s[i]];
  }

  lemma CompactNew(s: seq<string>, i: nat, r: seq<string>)
    requires SortedBy(LexLeq, s) && i < |s| && Compacted(s, i, r) && (r == [] || r[|r| - 1] != s[i])
    ensures Compacted(s, i + 1, r + [s[i]])
  {
    assert s[..i + 1] == s[..i] + [s[i]];
    forall k | 0 <= k < |r|
      ensures LexLeq(r[k], s[i]) && r[k] != s[i]
    {
      var last := r[|r| - 1];
      LexTotal(r[k], r[k]);
      assert LexLeq(r[k], last) && LexLeq(last, s[i]);
      LexTransitive(r[k], last, s[i]);
      LexTotal(last, s[i]);
    }
  }

  /** slices.Compact: drop repeats of the element before. */
  method Compact(s: seq<string>) returns (r: seq<string>)
    requires SortedBy(LexLeq, s)
    ensures SortedBy(LexLeq, r) && Distinct(r) && forall x :: x in r <==> x in s
  {
    r := [];
    for i := 0 to |s|
      invariant Compacted(s, i, r)
    {
      if r == [] || r[|r| - 1] != s[i] {
        CompactNew(s, i, r);
        r := r + [s[i]];
      } else {
        CompactRepeat(s, i, r);
      }
    }
    assert s[..|s|] == s;
  }

  /** The seed and everything that reaches it. */
  method Visit(g: Graph, dependents: Graph, seed: Resource) returns (visited: set<Resource>)
    requires Inverts(dependents, g)
    ensures visited == Downstream(g, seed) + {seed}
  {
    visited := {seed};
    var queue := At(dependents, seed);
    ReachesSelf(g, seed);
    forall r | r in queue
      ensures Reaches(g, r, seed)
    {
      ReachesFurther(g, r, seed, seed);
    }
    while |queue| > 0
      invariant seed in visited && visited <= g.Keys + {seed}
      invariant forall r :: r in visited ==> Reaches(g, r, seed)
      invariant forall r :: r in queue ==> r in g && Reaches(g, r, seed)
      invariant forall v, r :: v in visited && DependsOn(g, r, v) ==> r in visited || r in queue
      decreases |g.Keys + {seed} - visited|, |queue|
    {
      var n := queue[0];
      assert queue == [n] + queue[1..];
      queue := queue[1..];
      if n in visited {
        continue;
      }
      forall r | DependsOn(g, r, n)
        ensures Reaches(g, r, seed)
      {
        ReachesFurther(g, r, n, seed);
      }
      visited := visited + {n};
      queue := queue + At(dependents, n);
    }
    ClosedHoldsDownstream(g, seed, visited);
  }

  method BlastRadius(seeds: set<Resource>, g: Graph) returns (top: seq<Entry>)
    ensures TopRanked(seeds, g, top)
  {
    if |seeds| == 0 || |g| == 0 {
      assert AffectedSeeds(seeds, g) == {};
      assert Ranking(seeds, g, []);
      return [];
    }
    var dependents := Invert(g);
    var out := RankSeeds(seeds, g, dependents);
    RankIsTotal();
    var sorted := Sort(RankLeq, out);
    assert Ranking(seeds, g, sorted);
    top := sorted;
    if |top| > TOP_N {
      top := top[..TOP_N];
    }
  }

  method RankSeeds(seeds: set<Resource>, g: Graph, dependents: Graph) returns (out: seq<Entry>)
    requires Inverts(dependents, g)
    ensures Gathered(out, g, seeds)
  {
    out := [];
    var todo := seeds;
    ghost var done: set<Resource> := {};
    while todo != {}
      invariant todo + done == seeds && todo !! done
      invariant Gathered(out, g, done)
      decreases |todo|
    {
      ghost var member := SomeMember(todo);
      var seed :| seed in todo;
      todo := todo - {seed};
      GatheredNext(out, g, done, seed);
      out := AppendEntry(out, seed, g, dependents);
      done := done + {seed};
    }
    assert done == seeds;
  }

  /** `out` has one entry for each of `done` that something depends on. */
  ghost predicate Gathered(out: seq<Entry>, g: Graph, done: set<Resource>)
  {
    multiset(out) == EntriesOf(g, AffectedSeeds(done, g))
  }

  lemma GatheredNext(out: seq<Entry>, g: Graph, done: set<Resource>, seed: Resource)
    requires Gathered(out, g, done) && seed !in done
    ensures Gathered(if Affected(g, seed) then out + [EntryOf(g, seed)] else out, g, done + {seed})
  {
    SeedsGrow(g, done, seed);
  }

  lemma DirectShowsAffected(g: Graph, dependents: Graph, seed: Resource)
    requires Inverts(dependents, g)
    ensures At(dependents, seed) == [] <==> !Affected(g, seed)
  {
    if At(dependents, seed) != [] {
      assert DependsOn(g, At(dependents, seed)[0], seed);
    }
  }

  /** Considering one more seed adds its entry, if anything depends on it. */
  lemma SeedsGrow(g: Graph, done: set<Resource>, seed: Resource)
    requires seed !in done
    ensures EntriesOf(g, AffectedSeeds(done + {seed}, g)) ==
            EntriesOf(g, AffectedSeeds(done, g)) + if Affected(g, seed) then multiset{EntryOf(g, seed)} else multiset{}
  {
    var more := AffectedSeeds(done + {seed}, g);
    if Affected(g, seed) {
      assert more - {seed} == AffectedSeeds(done, g);
      EntriesWithout(g, more, seed);
    } else {
      assert more == AffectedSeeds(done, g);
    }
  }

  method AppendEntry(before: seq<Entry>, seed: Resource, g: Graph, dependents: Graph) returns (out: seq<Entry>)
    requires Inverts(dependents, g)
    ensures out == if Affected(g, seed) then before + [EntryOf(g, seed)] else before
  {
    var direct := At(dependents, seed);
    DirectShowsAffected(g, dependents, seed);
    if |direct| == 0 {
      return before;
    }
    var visited := Visit(g, dependents, seed);
    var labels := SortedLabels(direct);
    assert Downstream(g, seed) == visited - {seed};
    assert (set r | r in direct :: Label(r)) == (set r | r in g.Keys && DependsOn(g, r, seed) :: Label(r));
    out := before + [Entry(Label(seed), labels, |visited| - 1)];
  }

  lemma EntriesPick(g: Graph, seeds: set<Resource>) returns (s: Resource)
    requires seeds != {}
    ensures s in seeds && EntriesOf(g, seeds) == EntriesOf(g, seeds - {s}) + multiset{EntryOf(g, s)}
  {
    s :| s in seeds && EntriesOf(g, seeds) == EntriesOf(g, seeds - {s}) + multiset{EntryOf(g, s)};
  }

  lemma {:induction false} EntriesWithout(g: Graph, seeds: set<Resource>, s: Resource)
    requires s in seeds
    ensures EntriesOf(g, seeds) == EntriesOf(g, seeds - {s}) + multiset{EntryOf(g, s)}
    decreases |seeds|
  {
    var t := EntriesPick(g, seeds);
    if t != s {
      var less := seeds - {t} - {s};
      EntriesWithout(g, seeds - {t}, s);
      assert seeds - {s} - {t} == less;
      EntriesWithout(g, seeds - {s}, t);
      BagsSwap(EntriesOf(g, less), EntryOf(g, s), EntryOf(g, t));
    }
  }

  lemma BagsSwap<T>(m: multiset<T>, x: T, y: T)
    ensures m + multiset{x} + multiset{y} == m + multiset{y} + multiset{x}
  {
  }

  lemma {:induction false} EntryHasSeed(g: Graph, seeds: set<Resource>, e: Entry) returns (s: Resource)
    requires e in EntriesOf(g, seeds)
    ensures s in seeds && EntryOf(g, s) == e
    decreases |seeds|
  {
    s := EntriesPick(g, seeds);
    if EntryOf(g, s) != e {
      s := EntryHasSeed(g, seeds - {s}, e);
    }
  }

  lemma EntryIsRanked(seeds: set<Resource>, g: Graph, all: seq<Entry>, s: Resource) returns (i: nat)
    requires Ranking(seeds, g, all) && s in seeds && Affected(g, s)
    ensures i < |all| && all[i] == EntryOf(g, s)
  {
    EntriesWithout(g, AffectedSeeds(seeds, g), s);
    assert EntryOf(g, s) in multiset(all);
    i :| 0 <= i < |all| && all[i] == EntryOf(g, s);
  }

  // ---- what the numbers mean ----

  lemma ReachesSelf(g: Graph, seed: Resource)
    ensures Reaches(g, seed, seed)
  {
    assert ClimbsTo(g, [seed], seed, seed);
  }

  lemma ReachesFurther(g: Graph, r: Resource, via: Resource, seed: Resource)
    requires DependsOn(g, r, via) && Reaches(g, via, seed)
    ensures Reaches(g, r, seed)
  {
    var p :| ClimbsTo(g, p, seed, via);
    assert ClimbsTo(g, p + [r], seed, r);
  }

  lemma {:induction false} ClimbStaysInside(g: Graph, p: seq<Resource>, seed: Resource, r: Resource, closed: set<Resource>)
    requires ClimbsTo(g, p, seed, r) && seed in closed
    requires forall v, d :: v in closed && DependsOn(g, d, v) ==> d in closed
    ensures r in closed
  {
    if |p| > 1 {
      var front := p[..|p| - 1];
      ClimbStaysInside(g, front, seed, front[|front| - 1], closed);
      assert DependsOn(g, p[|front| - 1 + 1], p[|front| - 1]);
    }
  }

  lemma ClosedHoldsDownstream(g: Graph, seed: Resource, visited: set<Resource>)
    requires seed in visited && visited <= g.Keys + {seed}
    requires forall r :: r in visited ==> Reaches(g, r, seed)
    requires forall v, r :: v in visited && DependsOn(g, r, v) ==> r in visited
    ensures visited == Downstream(g, seed) + {seed}
  {
    forall r | r in Downstream(g, seed)
      ensures r in visited
    {
      var p :| ClimbsTo(g, p, seed, r);
      ClimbStaysInside(g, p, seed, r, visited);
    }
  }

  lemma RankIsTotal()
    ensures TotalPreorder(RankLeq)
  {
    LexIsTotalOrder();
  }

  /** No seed left out of the capped list outranks one that was kept. */
  lemma CapKeepsTheWorst(seeds: set<Resource>, g: Graph, top: seq<Entry>, s: Resource)
    requires TopRanked(seeds, g, top) && s in seeds && Affected(g, s)
    ensures EntryOf(g, s) in top || (|top| == TOP_N && forall kept :: kept in top ==> RankLeq(kept, EntryOf(g, s)))
  {
    var all :| Ranking(seeds, g, all) && top == Cap(all);
    var i := EntryIsRanked(seeds, g, all, s);
    if i < TOP_N {
      assert top[i] == EntryOf(g, s);
    } else {
      forall kept | kept in top
        ensures RankLeq(kept, EntryOf(g, s))
      {
        var k :| 0 <= k < TOP_N && top[k] == kept;
        assert all[k] == kept;
      }
    }
  }

  /** Whatever is listed describes a seed that something depends on. */
  lemma ListedEntriesAreReal(seeds: set<Resource>, g: Graph, top: seq<Entry>, e: Entry) returns (s: Resource)
    requires TopRanked(seeds, g, top) && e in top
    ensures s in seeds && Affected(g, s) && e == EntryOf(g, s)
  {
    var all :| Ranking(seeds, g, all) && top == Cap(all);
    assert e in all;
    assert e in multiset(all);
    s := EntryHasSeed(g, AffectedSeeds(seeds, g), e);
  }

  /** The direct list of an entry: the labels of what depends on `s`, each once, in order. */
  ghost predicate ListsDirect(g: Graph, s: Resource, labels: seq<string>)
  {
    && SortedBy(LexLeq, labels) && Distinct(labels)
    && forall l :: l in labels <==> exists r :: DependsOn(g, r, s) && Label(r) == l
  }

  lemma DirectIsListed(g: Graph, s: Resource)
    ensures ListsDirect(g, s, DirectLabels(g, s))
  {
    var labels := set r | r in g.Keys && DependsOn(g, r, s) :: Label(r);
    ArrangeIsSorted(labels);
    ArrangeMembers(labels);
  }

  /** Each entry, field by field: the label of a seed something depends on, the labels of
      its direct dependents, and how many other resources reach it. */
  lemma EntryMeans(seeds: set<Resource>, g: Graph, top: seq<Entry>, e: Entry) returns (s: Resource)
    requires TopRanked(seeds, g, top) && e in top
    ensures s in seeds && Affected(g, s) && e.parent == Label(s) && ListsDirect(g, s, e.direct)
    ensures e.transitive == |set r | r in g.Keys && r != s && Reaches(g, r, s)|
  {
    s := ListedEntriesAreReal(seeds, g, top, e);
    DirectIsListed(g, s);
  }

  /** Whatever depends on a member is a member. */
  ghost predicate ClosedUp(g: Graph, rs: set<Resource>)
  {
    forall v, r :: v in rs && DependsOn(g, r, v) ==> r in rs
  }

  /** What reaches a seed is the least set with the seed in it that is closed under
      depending on a member: direct and indirect dependents, and nothing else. */
  lemma DownstreamIsLeast(g: Graph, seed: Resource, rs: set<Resource>)
    ensures seed !in Downstream(g, seed) && ClosedUp(g, Downstream(g, seed) + {seed})
    ensures seed in rs && ClosedUp(g, rs) ==> Downstream(g, seed) <= rs
  {
    forall v, r | v in Downstream(g, seed) + {seed} && DependsOn(g, r, v)
      ensures r in Downstream(g, seed) + {seed}
    {
      ReachesSelf(g, seed);
      ReachesFurther(g, r, v, seed);
    }
    if seed in rs && ClosedUp(g, rs) {
      forall r | r in Downstream(g, seed)
        ensures r in rs
      {
        var p :| ClimbsTo(g, p, seed, r);
        ClimbStaysInside(g, p, seed, r, rs);
      }
    }
  }

  /** The list goes from the largest count down, equal counts by label. */
  lemma ListedInOrder(seeds: set<Resource>, g: Graph, top: seq<Entry>, i: nat, j: nat)
    requires TopRanked(seeds, g, top) && i < j < |top|
    ensures |top| <= 10 && top[i].transitive >= top[j].transitive
    ensures top[i].transitive == top[j].transitive ==> LexLeq(top[i].parent, top[j].parent)
  {
    var all :| Ranking(seeds, g, all) && top == Cap(all);
    assert all[i] == top[i] && all[j] == top[j];
    assert RankLeq(all[i], all[j]);
  }

  /** A seed something depends on that is not listed: the list is full, and no listed seed
      has fewer resources downstream. */
  lemma OmittedHaveNoMore(seeds: set<Resource>, g: Graph, top: seq<Entry>, s: Resource)
    requires TopRanked(seeds, g, top) && s in seeds && Affected(g, s)
    requires forall e :: e in top ==> e.parent != Label(s)
    ensures |top| == 10
    ensures forall e :: e in top ==> e.transitive >= |Downstream(g, s)|
    ensures forall e :: e in top && e.transitive == |Downstream(g, s)| ==> LexLeq(e.parent, Label(s))
  {
    CapKeepsTheWorst(seeds, g, top, s);
    assert EntryOf(g, s).parent == Label(s);
    forall e | e in top
      ensures e.transitive >= |Downstream(g, s)| && (e.transitive == |Downstream(g, s)| ==> LexLeq(e.parent, Label(s)))
    {
      assert RankLeq(e, EntryOf(g, s));
    }
  }

  ghost predicate UniqueLabels(rs: set<Resource>)
  {
    forall r, s :: r in rs && s in rs && Label(r) == Label(s) ==> r == s
  }

  lemma RankTellsApart(seeds: set<Resource>, g: Graph, all: seq<Entry>)
    requires Ranking(seeds, g, all) && UniqueLabels(seeds)
    ensures Antisymmetric(RankLeq, all)
  {
    forall x, y | x in all && y in all && RankLeq(x, y) && RankLeq(y, x)
      ensures x == y
    {
      LexTotal(x.parent, y.parent);
      assert x in multiset(all) && y in multiset(all);
      var s := EntryHasSeed(g, AffectedSeeds(seeds, g), x);
      var t := EntryHasSeed(g, AffectedSeeds(seeds, g), y);
    }
  }

  /** Where labels tell the seeds apart, the list does not depend on the order in which
      any map was walked. */
  lemma RankingIsUnique(seeds: set<Resource>, g: Graph, a: seq<Entry>, b: seq<Entry>)
    requires Ranking(seeds, g, a) && Ranking(seeds, g, b) && UniqueLabels(seeds)
    ensures a == b
  {
    RankTellsApart(seeds, g, a);
    RankTellsApart(seeds, g, b);
    SortedIsUnique(RankLeq, a, b);
  }

  lemma {:induction false} EntriesOnce(g: Graph, seeds: set<Resource>)
    requires UniqueLabels(seeds)
    ensures forall e :: EntriesOf(g, seeds)[e] <= 1
    decreases |seeds|
  {
    if seeds != {} {
      var s := EntriesPick(g, seeds);
      EntriesOnce(g, seeds - {s});
      if EntryOf(g, s) in EntriesOf(g, seeds - {s}) {
        var t := EntryHasSeed(g, seeds - {s}, EntryOf(g, s));
        assert false;
      }
    }
  }

  /** Where labels tell the seeds apart, no seed is listed twice. */
  lemma ListedOnce(seeds: set<Resource>, g: Graph, top: seq<Entry>, i: nat, j: nat)
    requires TopRanked(seeds, g, top) && UniqueLabels(seeds) && i < j < |top|
    ensures top[i].parent != top[j].parent
  {
    var all :| Ranking(seeds, g, all) && top == Cap(all);
    EntriesOnce(g, AffectedSeeds(seeds, g));
    CountsOneIsDistinct(all);
    assert all[i] == top[i] && all[j] == top[j] && all[i] != all[j];
    var s := ListedEntriesAreReal(seeds, g, top, top[i]);
    var t := ListedEntriesAreReal(seeds, g, top, top[j]);
    assert s != t;
  }

  /** A seed that depends on itself is among its own direct dependents but never counted. */
  lemma SelfDependentSeed(g: Graph, seed: Resource)
    requires DependsOn(g, seed, seed)
    ensures Label(seed) in EntryOf(g, seed).direct && seed !in Downstream(g, seed)
  {
    var labels := set r | r in g.Keys && DependsOn(g, r, seed) :: Label(r);
    assert Label(seed) in labels;
    assert Label(seed) in multiset(Arrange(labels));
  }

  // ---- labels ----

  /** A kind without blanks, and a namespace and name without slashes. */
  predicate WellNamed(r: Resource)
  {
    ' ' !in r.kind && '/' !in r.namespace && '/' !in r.name
  }

  lemma {:induction false} SplitLength(a: string, b: string, sep: char, x: string, y: string)
    requires sep !in b && a + [sep] + x == b + [sep] + y
    ensures |b| <= |a|
  {
    if b != "" {
      var s := a + [sep] + x;
      assert s[0] == b[0] && a != "" && s[0] == a[0];
      assert a[1..] + [sep] + x == s[1..] && b[1..] + [sep] + y == s[1..];
      SplitLength(a[1..], b[1..], sep, x, y);
    }
  }

  lemma SplitIsUnique(a: string, b: string, sep: char, x: string, y: string)
    requires sep !in a && sep !in b && a + [sep] + x == b + [sep] + y
    ensures a == b && x == y
  {
    SplitLength(a, b, sep, x, y);
    SplitLength(b, a, sep, y, x);
    var s := a + [sep] + x;
    assert a == s[..|a|] && b == s[..|b|];
    assert x == s[|a| + 1..] && y == s[|b| + 1..];
  }

  lemma SlashShows(namespace: string, name: string)
    ensures namespace != "" ==> '/' in NsName(namespace, name)
  {
    if namespace != "" {
      assert NsName(namespace, name)[|namespace|] == '/';
    }
  }

  lemma LabelIsInjective(r: Resource, s: Resource)
    requires WellNamed(r) && WellNamed(s) && Label(r) == Label(s)
    ensures r == s
  {
    SplitIsUnique(r.kind, s.kind, ' ', NsName(r.namespace, r.name), NsName(s.namespace, s.name));
    SlashShows(r.namespace, r.name);
    SlashShows(s.namespace, s.name);
    if r.namespace != "" && s.namespace != "" {
      SplitIsUnique(r.namespace, s.namespace, '/', r.name, s.name);
    }
  }

  /** For well-named parents the blast radius is a function of the seeds and the graph. */
  lemma BlastRadiusIsDeterministic(seeds: set<Resource>, g: Graph, a: seq<Entry>, b: seq<Entry>)
    requires forall s :: s in seeds ==> WellNamed(s)
    requires TopRanked(seeds, g, a) && TopRanked(seeds, g, b)
    ensures a == b
  {
    forall r, s | r in seeds && s in seeds && Label(r) == Label(s)
      ensures r == s
    {
      LabelIsInjective(r, s);
    }
    var x :| Ranking(seeds, g, x) && a == Cap(x);
    var y :| Ranking(seeds, g, y) && b == Cap(y);
    RankingIsUnique(seeds, g, x, y);
  }
}
