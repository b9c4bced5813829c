/** Container-image changes: which image moved from which version to which, and the
    folding of the add/remove split that a resource rename leaves behind. */
module Images {
  import opened Prelude
  import opened Ordering

  /** An empty version on one side marks a pure addition or a pure removal. */
  datatype Move = Move(repo: string, prior: string, next: string)

  datatype ImageChange = ImageChange(move: Move, refs: seq<string>)

  /** One changed resource with the (repository, version) references on each side. */
  datatype Change = Change(ref: string, before: seq<(string, string)>, after: seq<(string, string)>)

  /** The aggregate: every move with the resources that make it. */
  type Moves = map<Move, set<string>>

  // ---- the moves of one resource ----

  function Versions(images: seq<(string, string)>, repo: string): set<string>
  {
    set p | p in images && p.0 == repo :: p.1
  }

  /** What one repository's versions turn into: a bump when exactly one version left and
      one arrived, otherwise discrete removals and additions. */
  ghost predicate Transition(olds: set<string>, news: set<string>, prior: string, next: string)
  {
    if |olds - news| == 1 && |news - olds| == 1 then prior in olds - news && next in news - olds
    else (prior in olds - news && next == "") || (prior == "" && next in news - olds)
  }

  /** `c` contributes move `m`: a named image whose version really changed. */
  ghost predicate Makes(c: Change, m: Move)
  {
    && m.repo != "" && m.prior != m.next
    && Transition(Versions(c.before, m.repo), Versions(c.after, m.repo), m.prior, m.next)
  }

  /** `moves` is exactly what `changes` make, with exactly the resources that make it. */
  ghost predicate Aggregates(changes: seq<Change>, moves: Moves)
  {
    && (forall m :: m in moves <==> Made(changes, m))
    && (forall m, r :: m in moves ==> (r in moves[m] <==> MadeBy(changes, m, r)))
  }

  ghost predicate Made(changes: seq<Change>, m: Move)
  {
    exists i :: 0 <= i < |changes| && Makes(changes[i], m)
  }

  ghost predicate MadeBy(changes: seq<Change>, m: Move, ref: string)
  {
    exists i :: 0 <= i < |changes| && Makes(changes[i], m) && changes[i].ref == ref
  }

  lemma MadeNext(changes: seq<Change>, c: Change, m: Move, ref: string)
    ensures Made(changes + [c], m) <==> Made(changes, m) || Makes(c, m)
    ensures MadeBy(changes + [c], m, ref) <==> MadeBy(changes, m, ref) || (Makes(c, m) && c.ref == ref)
  {
    var more := changes + [c];
    assert more[|changes|] == c;
    assert forall i :: 0 <= i < |changes| ==> more[i] == changes[i];
  }

  // ---- folding relocations ----

  predicate Added(m: Move, repo: string)
  {
    m.repo == repo && m.prior == "" && m.next != ""
  }

  predicate Removed(m: Move, repo: string)
  {
    m.repo == repo && m.next == "" && m.prior != ""
  }

  /** `a` is the one pure addition of `repo` and `r` its one pure removal. */
  ghost predicate OnlyPair(moves: Moves, repo: string, a: Move, r: Move)
  {
    && a in moves && r in moves && Added(a, repo) && Removed(r, repo)
    && (forall m :: m in moves && Added(m, repo) ==> m == a)
    && (forall m :: m in moves && Removed(m, repo) ==> m == r)
  }

  ghost predicate Relocated(moves: Moves, repo: string)
  {
    exists a, r :: OnlyPair(moves, repo, a, r)
  }

  /** A half of a relocation, which the folding takes away. */
  ghost predicate Folded(moves: Moves, m: Move)
  {
    Relocated(moves, m.repo) && (Added(m, m.repo) || Removed(m, m.repo))
  }

  /** `m` is the real transition behind a relocation with halves `a` and `r`. */
  ghost predicate Behind(moves: Moves, m: Move, a: Move, r: Move)
  {
    OnlyPair(moves, m.repo, a, r) && m == Move(m.repo, r.prior, a.next) && r.prior != a.next
  }

  ghost predicate Uncovered(moves: Moves, m: Move)
  {
    exists a, r :: Behind(moves, m, a, r)
  }

  ghost predicate Mentions(moves: Moves, m: Move, ref: string)
  {
    m in moves && ref in moves[m]
  }

  /** `after` is `before` with every relocation folded: the other moves as they were, and
      the transition behind each relocation carrying the references of both halves. */
  ghost predicate Reconciles(before: Moves, after: Moves)
  {
    && (forall m :: m in after <==> (m in before && !Folded(before, m)) || Uncovered(before, m))
    && (forall m, ref :: m in after ==>
          (ref in after[m] <==>
           (m in before && !Folded(before, m) && ref in before[m])
           || (exists a, r :: Behind(before, m, a, r) && (ref in before[a] || ref in before[r]))))
  }

  // ---- what the folding guarantees ----

  /** It is determined by its input. */
  lemma ReconciledIsUnique(before: Moves, a: Moves, b: Moves)
    requires Reconciles(before, a) && Reconciles(before, b)
    ensures a == b
  {
    assert forall m :: m in a <==> m in b;
    forall m | m in a
      ensures a[m] == b[m]
    {
      assert forall ref :: ref in a[m] <==> ref in b[m];
    }
  }

  /** Every version it lists comes from the same repository's input. */
  lemma InventsNothing(before: Moves, after: Moves, m: Move) returns (a: Move, r: Move)
    requires Reconciles(before, after) && m in after
    ensures a in before && r in before && a.repo == r.repo == m.repo
    ensures r.prior == m.prior && a.next == m.next
  {
    if m in before {
      a, r := m, m;
    } else {
      a, r :| Behind(before, m, a, r);
    }
  }

  /** A repository without exactly one pure addition and one pure removal is left alone. */
  lemma AmbiguousIsUntouched(before: Moves, after: Moves, m: Move)
    requires Reconciles(before, after) && !Relocated(before, m.repo)
    ensures m in after <==> m in before
    ensures m in after ==> after[m] == before[m]
  {
    if m in after {
      assert forall ref :: ref in after[m] <==> ref in before[m];
    }
  }

  /** A reference survives unless it belongs to a relocation at one and the same version. */
  lemma ReferencesSurvive(before: Moves, after: Moves, m: Move, ref: string) returns (kept: Move)
    requires Reconciles(before, after) && Mentions(before, m, ref)
    requires !exists a, r :: OnlyPair(before, m.repo, a, r) && r.prior == a.next && (m == a || m == r)
    ensures Mentions(after, kept, ref) && kept.repo == m.repo
  {
    if Folded(before, m) {
      var a, r :| OnlyPair(before, m.repo, a, r);
      kept := Move(m.repo, r.prior, a.next);
      assert Behind(before, kept, a, r);
    } else {
      kept := m;
    }
  }

  /** And no reference appears that the repository did not have. */
  lemma ReferencesAreOld(before: Moves, after: Moves, m: Move, ref: string) returns (source: Move)
    requires Reconciles(before, after) && Mentions(after, m, ref)
    ensures Mentions(before, source, ref) && source.repo == m.repo
  {
    if m in before && !Folded(before, m) && ref in before[m] {
      source := m;
    } else {
      var a, r :| Behind(before, m, a, r) && (ref in before[a] || ref in before[r]);
      source := if ref in before[a] then a else r;
    }
  }

  /** Once folded, nothing is left to fold. */
  lemma NothingLeftToFold(before: Moves, after: Moves, repo: string)
    requires Reconciles(before, after)
    ensures !Relocated(after, repo)
  {
    if Relocated(after, repo) {
      var a, r :| OnlyPair(after, repo, a, r);
      assert a in before && r in before && !Folded(before, a);
      forall m | m in before && Added(m, repo)
        ensures m == a
      {
      }
      forall m | m in before && Removed(m, repo)
        ensures m == r
      {
      }
      assert OnlyPair(before, repo, a, r);
    }
  }

  /** A second pass changes nothing. */
  lemma ReconcilingTwice(before: Moves, once: Moves, twice: Moves)
    requires Reconciles(before, once) && Reconciles(once, twice)
    ensures twice == once
  {
    forall m
      ensures m in twice <==> m in once
      ensures m in once ==> twice[m] == once[m]
    {
      NothingLeftToFold(before, once, m.repo);
      AmbiguousIsUntouched(once, twice, m);
    }
  }

  // ---- listing moves ----

  /** `out` lists every move once, each with its references in order. */
  ghost predicate Lists(out: seq<ImageChange>, moves: Moves)
  {
    && Distinct(out)
    && (forall e :: e in out <==> e.move in moves && e.refs == Arrange(moves[e.move]))
  }

  lemma OneEntryEach(out: seq<ImageChange>, moves: Moves, i: nat, j: nat)
    requires Lists(out, moves) && i < |out| && j < |out|
    ensures out[i].move == out[j].move ==> i == j
  {
    assert out[i] in out && out[j] in out;
  }

  lemma ListsMore(out: seq<ImageChange>, moves: Moves, m: Move, refs: set<string>)
    requires Lists(out, moves) && m !in moves
    ensures Lists(out + [ImageChange(m, Arrange(refs))], moves[m := refs])
  {
    var more := out + [ImageChange(m, Arrange(refs))];
    forall e
      ensures e in more <==> e in out || e == ImageChange(m, Arrange(refs))
    {
    }
  }

  /** By repository, then by the version left, then by the version reached. */
  predicate ChangeLeq(a: ImageChange, b: ImageChange)
  {
    MoveLeq(a.move, b.move)
  }

  predicate MoveLeq(a: Move, b: Move)
  {
    if a.repo != b.repo then LexLeq(a.repo, b.repo)
    else if a.prior != b.prior then LexLeq(a.prior, b.prior)
    else LexLeq(a.next, b.next)
  }

  lemma MoveLeqIsTotal(a: Move, b: Move)
    ensures MoveLeq(a, b) || MoveLeq(b, a)
    ensures MoveLeq(a, b) && MoveLeq(b, a) ==> a == b
  {
    LexTotal(a.repo, b.repo);
    LexTotal(a.prior, b.prior);
    LexTotal(a.next, b.next);
  }

  lemma MoveLeqIsTransitive(a: Move, b: Move, c: Move)
    requires MoveLeq(a, b) && MoveLeq(b, c)
    ensures MoveLeq(a, c)
  {
    if a.repo != b.repo || b.repo != c.repo {
      LexTotal(a.repo, b.repo);
      LexTotal(b.repo, b.repo);
      LexTotal(b.repo, c.repo);
      LexTransitive(a.repo, b.repo, c.repo);
    } else if a.prior != b.prior || b.prior != c.prior {
      LexTotal(a.prior, b.prior);
      LexTotal(b.prior, b.prior);
      LexTotal(b.prior, c.prior);
      LexTransitive(a.prior, b.prior, c.prior);
    } else {
      LexTransitive(a.next, b.next, c.next);
    }
  }

  lemma ChangeLeqIsTotalOrder()
    ensures TotalPreorder(ChangeLeq)
  {
    forall a, b
      ensures ChangeLeq(a, b) || ChangeLeq(b, a)
    {
      MoveLeqIsTotal(a.move, b.move);
    }
    forall a, b, c | ChangeLeq(a, b) && ChangeLeq(b, c)
      ensures ChangeLeq(a, c)
    {
      MoveLeqIsTransitive(a.move, b.move, c.move);
    }
  }

  /** The sorted list of an aggregate does not depend on the order it was built in. */
  lemma SortedListIsUnique(a: seq<ImageChange>, b: seq<ImageChange>, moves: Moves)
    requires Lists(a, moves) && Lists(b, moves)
    requires SortedBy(ChangeLeq, a) && SortedBy(ChangeLeq, b)
    ensures a == b
  {
    forall x, y | x in a && y in a && ChangeLeq(x, y) && ChangeLeq(y, x)
      ensures x == y
    {
      MoveLeqIsTotal(x.move, y.move);
    }
    SortedSetIsUnique(ChangeLeq, a, b);
  }

  // ---- the program ----

  method SortedList(s: set<string>) returns (r: seq<string>)
    ensures r == Arrange(s)
  {
    var raw: seq<string> := [];
    var todo := s;
    while todo != {}
      invariant todo <= s && Distinct(raw)
      invariant forall x :: x in raw <==> x in s && x !in todo
      decreases |todo|
    {
      ghost var member := SomeMember(todo);
      var x :| x in todo;
      raw := raw + [x];
      todo := todo - {x};
    }
    LexIsTotalOrder();
    r := Sort(LexLeq, raw);
    SortKeepsDistinct(raw, r);
    ArrangeIsUnique(r, s);
  }

  function Elements(s: seq<string>): set<string>
  {
    set x | x in s
  }

  /** `out` maps each repository in `images` to its distinct versions, in order. */
  ghost predicate Collected(images: seq<(string, string)>, out: map<string, seq<string>>)
  {
    && (forall p :: p in images ==> p.0 in out)
    && (forall repo :: repo in out ==> out[repo] == Arrange(Versions(images, repo)))
  }

  /** `seen` holds the versions of the references read so far. */
  ghost predicate Seen(images: seq<(string, string)>, seen: map<string, set<string>>)
  {
    && (forall p :: p in images ==> p.0 in seen)
    && (forall repo :: repo in seen ==> seen[repo] == Versions(images, repo))
    && (forall repo :: repo !in seen ==> Versions(images, repo) == {})
  }

  lemma SeenNext(images: seq<(string, string)>, i: nat, seen: map<string, set<string>>)
    requires i < |images| && Seen(images[..i], seen)
    ensures var (repo, ver) := images[i];
            Seen(images[..i + 1], seen[repo := (if repo in seen then seen[repo] else {}) + {ver}])
  {
    assert images[..i + 1] == images[..i] + [images[i]];
    forall repo
      ensures Versions(images[..i + 1], repo) ==
              Versions(images[..i], repo) + if repo == images[i].0 then {images[i].1} else {}
    {
      VersionsNext(images, i, repo);
    }
  }

  /** Repository to the distinct versions one manifest references it at, in order. */
  method CollectImages(images: seq<(string, string)>) returns (out: map<string, seq<string>>)
    ensures Collected(images, out)
  {
    var seen := GatherVersions(images);
    out := map[];
    var todo := seen.Keys;
    while todo != {}
      invariant todo <= seen.Keys
      invariant forall repo :: repo in out ==> repo in seen && out[repo] == Arrange(seen[repo])
      invariant forall repo :: repo in seen ==> repo in out || repo in todo
      decreases |todo|
    {
      ghost var member := SomeMember(todo);
      var repo :| repo in todo;
      var list := SortedList(seen[repo]);
      out := out[repo := list];
      todo := todo - {repo};
    }
  }

  method GatherVersions(images: seq<(string, string)>) returns (seen: map<string, set<string>>)
    ensures Seen(images, seen)
  {
    seen := map[];
    for i := 0 to |images|
      invariant Seen(images[..i], seen)
    {
      var (repo, ver) := images[i];
      SeenNext(images, i, seen);
      if repo !in seen {
        seen := seen[repo := {}];
      }
      seen := seen[repo := seen[repo] + {ver}];
    }
    assert images[..|images|] == images;
  }

  lemma VersionsNext(images: seq<(string, string)>, i: nat, repo: string)
    requires i < |images|
    ensures Versions(images[..i + 1], repo) ==
            Versions(images[..i], repo) + if repo == images[i].0 then {images[i].1} else {}
  {
    assert images[..i + 1] == images[..i] + [images[i]];
    var last := images[i];
    assert last in images[..i + 1];
    forall v
      ensures v in Versions(images[..i + 1], repo) <==>
              v in Versions(images[..i], repo) || (repo == last.0 && v == last.1)
    {
      assert forall p :: p in images[..i + 1] <==> p in images[..i] || p == last;
    }
  }

  /** The sorted elements of `a` that are absent from `b`. */
  method SetDiff(a: seq<string>, b: seq<string>) returns (out: seq<string>)
    requires Distinct(a)
    ensures out == Arrange(Elements(a) - Elements(b))
  {
    var raw: seq<string> := [];
    for i := 0 to |a|
      invariant Distinct(raw)
      invariant forall x :: x in raw <==> x in a[..i] && x !in b
    {
      assert a[..i + 1] == a[..i] + [a[i]];
      assert a[i] !in a[..i];
      if a[i] !in b {
        raw := raw + [a[i]];
      }
    }
    assert a[..|a|] == a;
    LexIsTotalOrder();
    out := Sort(LexLeq, raw);
    SortKeepsDistinct(raw, out);
    ArrangeIsUnique(out, Elements(a) - Elements(b));
  }

  method RepoTransitions(olds: seq<string>, news: seq<string>) returns (ts: seq<(string, string)>)
    requires Distinct(olds) && Distinct(news)
    ensures forall t :: t in ts <==> Transition(Elements(olds), Elements(news), t.0, t.1)
  {
    var removed := SetDiff(olds, news);
    var added := SetDiff(news, olds);
    ghost var r, a := Elements(olds) - Elements(news), Elements(news) - Elements(olds);
    ArrangeMembers(r);
    ArrangeMembers(a);
    if |removed| == 1 && |added| == 1 {
      ts := [(removed[0], added[0])];
      LoneElement(r, removed);
      LoneElement(a, added);
    } else {
      ts := Discrete(removed, added);
    }
  }

  lemma LoneElement(s: set<string>, list: seq<string>)
    requires |list| == 1 && forall x :: x in list <==> x in s
    ensures s == {list[0]}
  {
    assert list[0] in list;
    assert forall x :: x in s ==> x in list;
  }

  method Discrete(removed: seq<string>, added: seq<string>) returns (ts: seq<(string, string)>)
    ensures forall t :: t in ts <==> (t.0 in removed && t.1 == "") || (t.0 == "" && t.1 in added)
  {
    ts := [];
    for i := 0 to |removed|
      invariant forall t :: t in ts <==> t.0 in removed[..i] && t.1 == ""
    {
      assert removed[..i + 1] == removed[..i] + [removed[i]];
      ts := ts + [(removed[i], "")];
    }
    assert removed[..|removed|] == removed;
    for i := 0 to |added|
      invariant forall t :: t in ts <==> (t.0 in removed && t.1 == "") || (t.0 == "" && t.1 in added[..i])
    {
      assert added[..i + 1] == added[..i] + [added[i]];
      ts := ts + [("", added[i])];
    }
    assert added[..|added|] == added;
  }

  /** Union of two reference lists, sorted and without repeats. */
  method MergeRefs(a: seq<string>, b: seq<string>) returns (out: seq<string>)
    ensures out == Arrange(Elements(a) + Elements(b))
  {
    var raw := AddUnseen([], a);
    raw := AddUnseen(raw, b);
    LexIsTotalOrder();
    out := Sort(LexLeq, raw);
    SortKeepsDistinct(raw, out);
    ArrangeIsUnique(out, Elements(a) + Elements(b));
  }

  method AddUnseen(sofar: seq<string>, s: seq<string>) returns (out: seq<string>)
    requires Distinct(sofar)
    ensures Distinct(out) && forall x :: x in out <==> x in sofar || x in s
  {
    out := sofar;
    for i := 0 to |s|
      invariant Distinct(out)
      invariant forall x :: x in out <==> x in sofar || x in s[..i]
    {
      assert s[..i + 1] == s[..i] + [s[i]];
      if s[i] !in out {
        out := out + [s[i]];
      }
    }
    assert s[..|s|] == s;
  }

  /** What the source's `record` closure does: no-op moves and nameless images are skipped. */
  function Recorded(moves: Moves, m: Move, ref: string): Moves
  {
    if m.repo == "" || m.prior == m.next then moves
    else moves[m := (if m in moves then moves[m] else {}) + {ref}]
  }

  function Refs(moves: Moves, m: Move): set<string>
  {
    if m in moves then moves[m] else {}
  }

  /** `after` is `before` with `ref` recorded under each of `made`. */
  ghost predicate Extends(before: Moves, made: set<Move>, ref: string, after: Moves)
  {
    && after.Keys == before.Keys + made
    && (forall m :: m in after ==> after[m] == Refs(before, m) + if m in made then {ref} else {})
  }

  method RecordAll(before: Moves, repo: string, ts: seq<(string, string)>, ref: string) returns (after: Moves, ghost made: set<Move>)
    ensures Extends(before, made, ref, after) && MovesOf(repo, ts, made)
  {
    after, made := before, {};
    for i := 0 to |ts|
      invariant Extends(before, made, ref, after) && MovesOf(repo, ts[..i], made)
    {
      var m := Move(repo, ts[i].0, ts[i].1);
      assert ts[..i + 1] == ts[..i] + [ts[i]];
      RecordedNext(before, repo, ts[..i], ts[i], ref, after, made);
      after := Recorded(after, m, ref);
      if repo != "" && m.prior != m.next {
        made := made + {m};
      }
    }
    assert ts[..|ts|] == ts;
  }

  /** `made` are the moves of `repo` that `ts` describe and `record` accepts. */
  ghost predicate MovesOf(repo: string, ts: seq<(string, string)>, made: set<Move>)
  {
    forall m :: m in made <==> m.repo == repo && repo != "" && m.prior != m.next && (m.prior, m.next) in ts
  }

  lemma RecordedNext(before: Moves, repo: string, ts: seq<(string, string)>, t: (string, string), ref: string,
                     after: Moves, made: set<Move>)
    requires Extends(before, made, ref, after) && MovesOf(repo, ts, made)
    ensures var m := Move(repo, t.0, t.1);
            var more := if repo != "" && m.prior != m.next then made + {m} else made;
            Extends(before, more, ref, Recorded(after, m, ref)) && MovesOf(repo, ts + [t], more)
  {
  }

  lemma ExtendsTwice(a: Moves, x: set<Move>, b: Moves, y: set<Move>, c: Moves, ref: string)
    requires Extends(a, x, ref, b) && Extends(b, y, ref, c)
    ensures Extends(a, x + y, ref, c)
  {
  }

  function VersionList(images: map<string, seq<string>>, repo: string): seq<string>
  {
    if repo in images then images[repo] else []
  }

  lemma VersionListElements(images: seq<(string, string)>, collected: map<string, seq<string>>, repo: string)
    requires Collected(images, collected)
    ensures Elements(VersionList(collected, repo)) == Versions(images, repo) && Distinct(VersionList(collected, repo))
  {
    if repo in collected {
      ArrangeMembers(Versions(images, repo));
    }
  }

  method AddRepo(before: Moves, c: Change, repo: string, olds: map<string, seq<string>>, news: map<string, seq<string>>)
    returns (after: Moves, ghost made: set<Move>)
    requires Collected(c.before, olds) && Collected(c.after, news)
    ensures AddsFor(before, c, {repo}, made, after)
  {
    VersionListElements(c.before, olds, repo);
    VersionListElements(c.after, news, repo);
    var ts := RepoTransitions(VersionList(olds, repo), VersionList(news, repo));
    after, made := RecordAll(before, repo, ts, c.ref);
  }

  method AddChange(before: Moves, c: Change) returns (after: Moves, ghost made: set<Move>)
    ensures Adds(before, c, made, after)
  {
    var olds := CollectImages(c.before);
    var news := CollectImages(c.after);
    after, made := before, {};
    AddsNothing(before, c);
    var todo := olds.Keys + news.Keys;
    ghost var done: set<string> := {};
    while todo != {}
      invariant AddsFor(before, c, done, made, after)
      invariant olds.Keys + news.Keys <= done + todo
      decreases |todo|
    {
      ghost var member := SomeMember(todo);
      var repo :| repo in todo;
      ghost var was := after;
      ghost var more;
      after, more := AddRepo(after, c, repo, olds, news);
      AddsNext(before, c, done, made, was, {repo}, more, after);
      made, done := made + more, done + {repo};
      todo := todo - {repo};
    }
    AddsAll(before, c, done, made, after, olds, news);
  }

  /** `after` is `before` with all the moves `c` makes, which are `made`. */
  ghost predicate Adds(before: Moves, c: Change, made: set<Move>, after: Moves)
  {
    Extends(before, made, c.ref, after) && forall m :: m in made <==> Makes(c, m)
  }

  /** Likewise for the moves of the repositories `done`. */
  ghost predicate AddsFor(before: Moves, c: Change, done: set<string>, made: set<Move>, after: Moves)
  {
    Extends(before, made, c.ref, after) && forall m :: m in made <==> Makes(c, m) && m.repo in done
  }

  lemma AddsNothing(before: Moves, c: Change)
    ensures AddsFor(before, c, {}, {}, before)
  {
  }

  lemma AddsNext(before: Moves, c: Change, done: set<string>, made: set<Move>, was: Moves,
                 repos: set<string>, more: set<Move>, after: Moves)
    requires AddsFor(before, c, done, made, was) && AddsFor(was, c, repos, more, after)
    ensures AddsFor(before, c, done + repos, made + more, after)
  {
    ExtendsTwice(before, made, was, more, after, c.ref);
  }

  lemma AddsAll(before: Moves, c: Change, done: set<string>, made: set<Move>, after: Moves,
                olds: map<string, seq<string>>, news: map<string, seq<string>>)
    requires AddsFor(before, c, done, made, after)
    requires Collected(c.before, olds) && Collected(c.after, news) && olds.Keys + news.Keys <= done
    ensures Adds(before, c, made, after)
  {
    forall m | Makes(c, m)
      ensures m.repo in done
    {
      MakersAreListed(c, m);
    }
  }

  lemma MakersAreListed(c: Change, m: Move)
    requires Makes(c, m)
    ensures (exists p :: p in c.before && p.0 == m.repo) || (exists p :: p in c.after && p.0 == m.repo)
  {
    var olds, news := Versions(c.before, m.repo), Versions(c.after, m.repo);
    assert olds != {} || news != {};
  }

  method Aggregate(changes: seq<Change>) returns (moves: Moves)
    ensures Aggregates(changes, moves)
  {
    moves := map[];
    for i := 0 to |changes|
      invariant Aggregates(changes[..i], moves)
    {
      ghost var was := moves;
      ghost var made;
      moves, made := AddChange(moves, changes[i]);
      assert changes[..i + 1] == changes[..i] + [changes[i]];
      AggregatesNext(changes[..i], changes[i], was, made, moves);
    }
    assert changes[..|changes|] == changes;
  }

  lemma MadeAfter(changes: seq<Change>, c: Change, was: Moves, made: set<Move>, moves: Moves, m: Move)
    requires Aggregates(changes, was) && Adds(was, c, made, moves)
    ensures m in moves <==> Made(changes + [c], m)
  {
    MadeNext(changes, c, m, c.ref);
  }

  lemma MadeByAfter(changes: seq<Change>, c: Change, was: Moves, made: set<Move>, moves: Moves, m: Move, r: string)
    requires Aggregates(changes, was) && Adds(was, c, made, moves) && m in moves
    ensures r in moves[m] <==> MadeBy(changes + [c], m, r)
  {
    MadeNext(changes, c, m, r);
    assert MadeBy(changes, m, r) ==> Made(changes, m);
  }

  lemma AggregatesNext(changes: seq<Change>, c: Change, was: Moves, made: set<Move>, moves: Moves)
    requires Aggregates(changes, was) && Adds(was, c, made, moves)
    ensures Aggregates(changes + [c], moves)
  {
    forall m
      ensures m in moves <==> Made(changes + [c], m)
    {
      MadeAfter(changes, c, was, made, moves, m);
    }
    forall m, r | m in moves
      ensures r in moves[m] <==> MadeBy(changes + [c], m, r)
    {
      MadeByAfter(changes, c, was, made, moves, m, r);
    }
  }

  /** Where each repository's pure additions and removals stand in the list. */
  datatype RepoIdx = RepoIdx(adds: seq<nat>, removes: seq<nat>)

  function Idx(byRepo: map<string, RepoIdx>, repo: string): RepoIdx
  {
    if repo in byRepo then byRepo[repo] else RepoIdx([], [])
  }

  ghost predicate AddsAt(input: seq<ImageChange>, n: nat, repo: string, at: seq<nat>)
    requires n <= |input|
  {
    Distinct(at) && forall i: nat :: i in at <==> i < n && Added(input[i].move, repo)
  }

  ghost predicate RemovesAt(input: seq<ImageChange>, n: nat, repo: string, at: seq<nat>)
    requires n <= |input|
  {
    Distinct(at) && forall i: nat :: i in at <==> i < n && Removed(input[i].move, repo)
  }

  ghost predicate Indexed(input: seq<ImageChange>, n: nat, byRepo: map<string, RepoIdx>)
    requires n <= |input|
  {
    forall repo :: AddsAt(input, n, repo, Idx(byRepo, repo).adds) && RemovesAt(input, n, repo, Idx(byRepo, repo).removes)
  }

  method IndexRepos(input: seq<ImageChange>) returns (byRepo: map<string, RepoIdx>)
    ensures Indexed(input, |input|, byRepo)
  {
    byRepo := map[];
    for i := 0 to |input|
      invariant Indexed(input, i, byRepo)
    {
      var m := input[i].move;
      ghost var was := byRepo;
      if m.prior == "" && m.next != "" {
        var r := Idx(byRepo, m.repo);
        byRepo := byRepo[m.repo := r.(adds := r.adds + [i])];
      } else if m.next == "" && m.prior != "" {
        var r := Idx(byRepo, m.repo);
        byRepo := byRepo[m.repo := r.(removes := r.removes + [i])];
      }
      forall repo
        ensures AddsAt(input, i + 1, repo, Idx(byRepo, repo).adds)
        ensures RemovesAt(input, i + 1, repo, Idx(byRepo, repo).removes)
      {
        IndexedNext(input, i, repo, Idx(was, repo), Idx(byRepo, repo));
      }
    }
  }

  lemma IndexedNext(input: seq<ImageChange>, i: nat, repo: string, was: RepoIdx, now: RepoIdx)
    requires i < |input| && AddsAt(input, i, repo, was.adds) && RemovesAt(input, i, repo, was.removes)
    requires now.adds == was.adds + if Added(input[i].move, repo) then [i] else []
    requires now.removes == was.removes + if Removed(input[i].move, repo) then [i] else []
    ensures AddsAt(input, i + 1, repo, now.adds) && RemovesAt(input, i + 1, repo, now.removes)
  {
  }

  lemma LoneAddition(input: seq<ImageChange>, moves: Moves, repo: string, at: seq<nat>, m: Move)
    requires Lists(input, moves) && AddsAt(input, |input|, repo, at) && |at| == 1
    requires m in moves && Added(m, repo)
    ensures at[0] < |input| && m == input[at[0]].move
  {
    var k := IndexOfMove(input, moves, m);
    assert k in at;
  }

  lemma LoneRemoval(input: seq<ImageChange>, moves: Moves, repo: string, at: seq<nat>, m: Move)
    requires Lists(input, moves) && RemovesAt(input, |input|, repo, at) && |at| == 1
    requires m in moves && Removed(m, repo)
    ensures at[0] < |input| && m == input[at[0]].move
  {
    var k := IndexOfMove(input, moves, m);
    assert k in at;
  }

  /** One addition and one removal in the index is exactly a relocation. */
  lemma LonePairRelocates(input: seq<ImageChange>, moves: Moves, repo: string, at: RepoIdx)
    requires Lists(input, moves)
    requires AddsAt(input, |input|, repo, at.adds) && RemovesAt(input, |input|, repo, at.removes)
    requires |at.adds| == 1 && |at.removes| == 1
    ensures at.adds[0] in at.adds && at.removes[0] in at.removes
    ensures OnlyPair(moves, repo, input[at.adds[0]].move, input[at.removes[0]].move)
  {
    var i, j := at.adds[0], at.removes[0];
    assert i in at.adds && j in at.removes;
    assert input[i] in input && input[j] in input;
    forall m | m in moves && Added(m, repo)
      ensures m == input[i].move
    {
      LoneAddition(input, moves, repo, at.adds, m);
    }
    forall m | m in moves && Removed(m, repo)
      ensures m == input[j].move
    {
      LoneRemoval(input, moves, repo, at.removes, m);
    }
  }

  lemma IndexOfMove(input: seq<ImageChange>, moves: Moves, m: Move) returns (k: nat)
    requires Lists(input, moves) && m in moves
    ensures k < |input| && input[k].move == m && input[k].refs == Arrange(moves[m])
  {
    var e := ImageChange(m, Arrange(moves[m]));
    assert e in input;
    k :| 0 <= k < |input| && input[k] == e;
  }

  lemma OnlyOne(input: seq<ImageChange>, moves: Moves, at: seq<nat>, m: Move)
    requires Lists(input, moves) && Distinct(at) && at != []
    requires forall i :: i in at ==> i < |input| && input[i].move == m
    ensures |at| == 1
  {
    if |at| > 1 {
      assert at[0] in at && at[1] in at;
      OneEntryEach(input, moves, at[0], at[1]);
    }
  }

  lemma RelocationIsLonePair(input: seq<ImageChange>, moves: Moves, repo: string, at: RepoIdx)
    requires Lists(input, moves) && Relocated(moves, repo)
    requires AddsAt(input, |input|, repo, at.adds) && RemovesAt(input, |input|, repo, at.removes)
    ensures |at.adds| == 1 && |at.removes| == 1
  {
    var a, r :| OnlyPair(moves, repo, a, r);
    var i := IndexOfMove(input, moves, a);
    var j := IndexOfMove(input, moves, r);
    assert i in at.adds && j in at.removes;
    forall k | k in at.adds
      ensures k < |input| && input[k].move == a
    {
      assert input[k] in input;
    }
    forall k | k in at.removes
      ensures k < |input| && input[k].move == r
    {
      assert input[k] in input;
    }
    OnlyOne(input, moves, at.adds, a);
    OnlyOne(input, moves, at.removes, r);
  }

  /** Which entries the folding takes away, as far as the repositories `done` go. */
  ghost predicate DroppedFor(input: seq<ImageChange>, moves: Moves, done: set<string>, dropped: seq<bool>)
  {
    |dropped| == |input| &&
    forall i :: 0 <= i < |input| ==> (dropped[i] <==> input[i].move.repo in done && Folded(moves, input[i].move))
  }

  /** `merged` lists the transitions behind the relocations of `done`, as `uncovered`. */
  ghost predicate MergedFor(moves: Moves, done: set<string>, merged: seq<ImageChange>, uncovered: Moves)
  {
    && Lists(merged, uncovered)
    && (forall m :: m in uncovered <==> m.repo in done && Uncovered(moves, m))
    && (forall m, a, r :: m in uncovered && Behind(moves, m, a, r) ==> uncovered[m] == moves[a] + moves[r])
  }

  lemma PairIsUnique(moves: Moves, repo: string, a: Move, r: Move, m: Move)
    requires OnlyPair(moves, repo, a, r) && m.repo == repo
    ensures Uncovered(moves, m) <==> m == Move(repo, r.prior, a.next) && r.prior != a.next
    ensures m in moves ==> (Folded(moves, m) <==> m == a || m == r)
  {
    if m == Move(repo, r.prior, a.next) && r.prior != a.next {
      assert Behind(moves, m, a, r);
    }
  }

  lemma NotRelocatedNext(input: seq<ImageChange>, moves: Moves, done: set<string>, repo: string,
                         dropped: seq<bool>, merged: seq<ImageChange>, uncovered: Moves)
    requires DroppedFor(input, moves, done, dropped) && MergedFor(moves, done, merged, uncovered)
    requires !Relocated(moves, repo)
    ensures DroppedFor(input, moves, done + {repo}, dropped) && MergedFor(moves, done + {repo}, merged, uncovered)
  {
    forall m: Move | m.repo == repo
      ensures !Uncovered(moves, m)
    {
    }
  }

  lemma DroppedNext(input: seq<ImageChange>, moves: Moves, done: set<string>, repo: string, dropped: seq<bool>, i: nat, j: nat)
    requires Lists(input, moves) && DroppedFor(input, moves, done, dropped)
    requires i < |input| && j < |input| && OnlyPair(moves, repo, input[i].move, input[j].move)
    ensures DroppedFor(input, moves, done + {repo}, dropped[i := true][j := true])
  {
    var now := dropped[i := true][j := true];
    forall k | 0 <= k < |input|
      ensures now[k] <==> input[k].move.repo in done + {repo} && Folded(moves, input[k].move)
    {
      assert input[k] in input;
      if input[k].move.repo == repo {
        PairIsUnique(moves, repo, input[i].move, input[j].move, input[k].move);
        OneEntryEach(input, moves, k, i);
        OneEntryEach(input, moves, k, j);
      }
    }
  }

  lemma UnmergedNext(moves: Moves, done: set<string>, repo: string, a: Move, r: Move, merged: seq<ImageChange>, uncovered: Moves)
    requires MergedFor(moves, done, merged, uncovered) && OnlyPair(moves, repo, a, r) && r.prior == a.next
    ensures MergedFor(moves, done + {repo}, merged, uncovered)
  {
    forall m: Move | m.repo == repo
      ensures !Uncovered(moves, m)
    {
      PairIsUnique(moves, repo, a, r, m);
    }
  }

  lemma MergedNext(moves: Moves, done: set<string>, repo: string, a: Move, r: Move, merged: seq<ImageChange>, uncovered: Moves)
    requires MergedFor(moves, done, merged, uncovered) && repo !in done
    requires OnlyPair(moves, repo, a, r) && r.prior != a.next
    ensures var m := Move(repo, r.prior, a.next);
            var refs := moves[r] + moves[a];
            MergedFor(moves, done + {repo}, merged + [ImageChange(m, Arrange(refs))], uncovered[m := refs])
  {
    var m, refs := Move(repo, r.prior, a.next), moves[r] + moves[a];
    ListsMore(merged, uncovered, m, refs);
    var now := uncovered[m := refs];
    forall x
      ensures x in now <==> x.repo in done + {repo} && Uncovered(moves, x)
    {
      if x.repo == repo {
        PairIsUnique(moves, repo, a, r, x);
      }
    }
    forall x, b, s | x in now && Behind(moves, x, b, s)
      ensures now[x] == moves[b] + moves[s]
    {
      if x.repo == repo {
        assert b == a && s == r;
      }
    }
  }

  /** The bookkeeping of the merge loop once the repositories `done` are handled. */
  ghost predicate FoldedFor(input: seq<ImageChange>, moves: Moves, done: set<string>,
                            dropped: seq<bool>, merged: seq<ImageChange>, uncovered: Moves)
  {
    DroppedFor(input, moves, done, dropped) && MergedFor(moves, done, merged, uncovered)
  }

  lemma FoldedForNone(input: seq<ImageChange>, moves: Moves, dropped: seq<bool>)
    requires |dropped| == |input| && forall i :: 0 <= i < |input| ==> !dropped[i]
    ensures FoldedFor(input, moves, {}, dropped, [], map[])
  {
  }

  ghost predicate Splits(all: set<string>, done: set<string>, todo: set<string>)
  {
    forall x :: x in all ==> (x in done <==> x !in todo)
  }

  lemma RelocationsAreIndexed(input: seq<ImageChange>, byRepo: map<string, RepoIdx>, moves: Moves, repo: string)
    requires Lists(input, moves) && Indexed(input, |input|, byRepo) && Relocated(moves, repo)
    ensures repo in byRepo
  {
    RelocationIsLonePair(input, moves, repo, Idx(byRepo, repo));
  }

  method MergeRelocations(input: seq<ImageChange>, byRepo: map<string, RepoIdx>, ghost moves: Moves)
    returns (dropped: seq<bool>, merged: seq<ImageChange>, ghost uncovered: Moves, ghost done: set<string>)
    requires Lists(input, moves) && Indexed(input, |input|, byRepo)
    ensures FoldedFor(input, moves, done, dropped, merged, uncovered)
    ensures forall repo :: Relocated(moves, repo) ==> repo in done
  {
    dropped := seq(|input|, _ => false);
    merged, uncovered, done := [], map[], {};
    FoldedForNone(input, moves, dropped);
    var todo := byRepo.Keys;
    while todo != {}
      invariant FoldedFor(input, moves, done, dropped, merged, uncovered)
      invariant todo <= byRepo.Keys && Splits(byRepo.Keys, done, todo)
      decreases |todo|
    {
      ghost var member := SomeMember(todo);
      var repo :| repo in todo;
      assert byRepo[repo] == Idx(byRepo, repo);
      dropped, merged, uncovered := MergeRepo(input, repo, byRepo[repo], dropped, merged, moves, done, uncovered);
      todo := todo - {repo};
      done := done + {repo};
    }
    forall repo | Relocated(moves, repo)
      ensures repo in done
    {
      RelocationsAreIndexed(input, byRepo, moves, repo);
    }
  }

  method MergeRepo(input: seq<ImageChange>, repo: string, at: RepoIdx, dropped0: seq<bool>, merged0: seq<ImageChange>,
                   ghost moves: Moves, ghost done: set<string>, ghost uncovered0: Moves)
    returns (dropped: seq<bool>, merged: seq<ImageChange>, ghost uncovered: Moves)
    requires Lists(input, moves) && repo !in done
    requires AddsAt(input, |input|, repo, at.adds) && RemovesAt(input, |input|, repo, at.removes)
    requires FoldedFor(input, moves, done, dropped0, merged0, uncovered0)
    ensures FoldedFor(input, moves, done + {repo}, dropped, merged, uncovered)
  {
    dropped, merged, uncovered := dropped0, merged0, uncovered0;
    if |at.adds| != 1 || |at.removes| != 1 {
      if Relocated(moves, repo) {
        RelocationIsLonePair(input, moves, repo, at);
      }
      NotRelocatedNext(input, moves, done, repo, dropped, merged, uncovered);
      return;
    }
    LonePairRelocates(input, moves, repo, at);
    var i, j := at.adds[0], at.removes[0];
    var add, rem := input[i], input[j];
    DroppedNext(input, moves, done, repo, dropped, i, j);
    dropped := dropped[i := true];
    dropped := dropped[j := true];
    if rem.move.prior == add.move.next {
      UnmergedNext(moves, done, repo, add.move, rem.move, merged, uncovered);
      return;
    }
    var refs := MergeRefs(rem.refs, add.refs);
    RefsOf(input, moves, i);
    RefsOf(input, moves, j);
    MergedNext(moves, done, repo, add.move, rem.move, merged, uncovered);
    var m := Move(add.move.repo, rem.move.prior, add.move.next);
    merged := merged + [ImageChange(m, refs)];
    uncovered := uncovered[m := moves[rem.move] + moves[add.move]];
  }

  lemma RefsOf(input: seq<ImageChange>, moves: Moves, i: nat)
    requires Lists(input, moves) && i < |input|
    ensures input[i].move in moves && Elements(input[i].refs) == moves[input[i].move]
  {
    assert input[i] in input;
    ArrangeMembers(moves[input[i].move]);
  }

  // ---- putting the pieces back together ----

  ghost function Survivors(moves: Moves): Moves
  {
    map m | m in moves && !Folded(moves, m) :: moves[m]
  }

  method KeepSurvivors(input: seq<ImageChange>, dropped: seq<bool>, ghost moves: Moves, ghost done: set<string>)
    returns (out: seq<ImageChange>)
    requires Lists(input, moves) && DroppedFor(input, moves, done, dropped)
    requires forall repo :: Relocated(moves, repo) ==> repo in done
    ensures Lists(out, Survivors(moves))
  {
    out := [];
    for i := 0 to |input|
      invariant Distinct(out)
      invariant forall e :: e in out <==> e in input[..i] && !Folded(moves, e.move)
    {
      assert input[..i + 1] == input[..i] + [input[i]];
      assert input[i] !in input[..i];
      assert dropped[i] <==> Folded(moves, input[i].move);
      if !dropped[i] {
        out := out + [input[i]];
      }
    }
    assert input[..|input|] == input;
  }

  /** `moves` with one more entry's references under its move. */
  function Plus(moves: Moves, e: ImageChange): Moves
  {
    moves[e.move := Refs(moves, e.move) + Elements(e.refs)]
  }

  function PlusAll(moves: Moves, es: seq<ImageChange>): Moves
  {
    if es == [] then moves else Plus(PlusAll(moves, es[..|es| - 1]), es[|es| - 1])
  }

  /** Replacing an element keeps the others and brings in the new one. */
  lemma UpdatedMembers(out: seq<ImageChange>, i: nat, e: ImageChange, x: ImageChange)
    requires i < |out| && Distinct(out)
    requires forall j :: 0 <= j < |out| && j != i ==> out[j].move != e.move
    requires out[i].move == e.move
    ensures x in out[i := e] <==> x == e || (x in out && x.move != e.move)
  {
    var now := out[i := e];
    assert now[i] == e;
    if x in out && x.move != e.move {
      var j :| 0 <= j < |out| && out[j] == x;
      assert now[j] == x;
    }
  }

  lemma UpdatedDistinct(out: seq<ImageChange>, i: nat, e: ImageChange)
    requires i < |out| && Distinct(out)
    requires forall j :: 0 <= j < |out| && j != i ==> out[j].move != e.move
    ensures Distinct(out[i := e])
  {
  }

  lemma ListsUpdate(out: seq<ImageChange>, moves: Moves, i: nat, refs: set<string>)
    requires Lists(out, moves) && i < |out|
    ensures Lists(out[i := ImageChange(out[i].move, Arrange(refs))], moves[out[i].move := refs])
  {
    var e := ImageChange(out[i].move, Arrange(refs));
    forall j | 0 <= j < |out| && j != i
      ensures out[j].move != e.move
    {
      OneEntryEach(out, moves, i, j);
    }
    UpdatedDistinct(out, i, e);
    forall x
      ensures x in out[i := e] <==> x == e || (x in out && x.move != e.move)
    {
      UpdatedMembers(out, i, e, x);
    }
  }

  lemma MoveIsListed(out: seq<ImageChange>, moves: Moves, m: Move)
    requires Lists(out, moves)
    ensures m in moves <==> exists k :: 0 <= k < |out| && out[k].move == m
  {
    if m in moves {
      var k := IndexOfMove(out, moves, m);
    } else {
      forall k | 0 <= k < |out|
        ensures out[k].move != m
      {
        assert out[k] in out;
      }
    }
  }

  /** slices.IndexFunc over the move; -1 when no entry has it. */
  method IndexFunc(out: seq<ImageChange>, m: Move) returns (i: int)
    ensures -1 <= i < |out|
    ensures i >= 0 ==> out[i].move == m
    ensures i < 0 ==> forall k :: 0 <= k < |out| ==> out[k].move != m
  {
    for k := 0 to |out|
      invariant forall j :: 0 <= j < k ==> out[j].move != m
    {
      if out[k].move == m {
        return k;
      }
    }
    return -1;
  }

  method FoldOne(before: seq<ImageChange>, e: ImageChange, ghost moves: Moves) returns (out: seq<ImageChange>)
    requires Lists(before, moves) && e.refs == Arrange(Elements(e.refs))
    ensures Lists(out, Plus(moves, e))
  {
    MoveIsListed(before, moves, e.move);
    var i := IndexFunc(before, e.move);
    if i >= 0 {
      var refs := MergeRefs(before[i].refs, e.refs);
      RefsOf(before, moves, i);
      ListsUpdate(before, moves, i, moves[e.move] + Elements(e.refs));
      out := before[i := ImageChange(e.move, refs)];
    } else {
      ListsMore(before, moves, e.move, Elements(e.refs));
      assert {} + Elements(e.refs) == Elements(e.refs);
      out := before + [e];
    }
  }

  method FoldMerged(survivors: seq<ImageChange>, merged: seq<ImageChange>, ghost moves: Moves) returns (out: seq<ImageChange>)
    requires Lists(survivors, moves)
    requires forall e :: e in merged ==> e.refs == Arrange(Elements(e.refs))
    ensures Lists(out, PlusAll(moves, merged))
  {
    out := survivors;
    for j := 0 to |merged|
      invariant Lists(out, PlusAll(moves, merged[..j]))
    {
      assert merged[..j + 1][..j] == merged[..j];
      assert merged[j] in merged;
      out := FoldOne(out, merged[j], PlusAll(moves, merged[..j]));
    }
    assert merged[..|merged|] == merged;
  }

  lemma {:induction false} PlusAllKeys(moves: Moves, es: seq<ImageChange>, m: Move)
    ensures m in PlusAll(moves, es) <==> m in moves || exists e :: e in es && e.move == m
  {
    if es != [] {
      var front, last := es[..|es| - 1], es[|es| - 1];
      PlusAllKeys(moves, front, m);
      assert es == front + [last];
      assert forall e :: e in es <==> e in front || e == last;
    }
  }

  lemma {:induction false} PlusAllRefs(moves: Moves, es: seq<ImageChange>, m: Move, ref: string)
    ensures Mentions(PlusAll(moves, es), m, ref) <==>
            Mentions(moves, m, ref) || exists e :: e in es && e.move == m && ref in e.refs
  {
    if es != [] {
      var front, last := es[..|es| - 1], es[|es| - 1];
      PlusAllRefs(moves, front, m, ref);
      assert es == front + [last];
      assert forall e :: e in es <==> e in front || e == last;
    }
  }

  lemma MergedEntry(moves: Moves, done: set<string>, merged: seq<ImageChange>, uncovered: Moves, m: Move, ref: string)
    requires MergedFor(moves, done, merged, uncovered)
    requires forall repo :: Relocated(moves, repo) ==> repo in done
    ensures (exists e :: e in merged && e.move == m) <==> Uncovered(moves, m)
    ensures (exists e :: e in merged && e.move == m && ref in e.refs) <==>
            exists a, r :: Behind(moves, m, a, r) && (ref in moves[a] || ref in moves[r])
  {
    if m in uncovered {
      var a, r :| Behind(moves, m, a, r);
      ArrangeMembers(uncovered[m]);
      assert ImageChange(m, Arrange(uncovered[m])) in merged;
    } else {
      assert !Uncovered(moves, m);
    }
  }

  lemma FoldingReconciles(moves: Moves, done: set<string>, merged: seq<ImageChange>, uncovered: Moves)
    requires MergedFor(moves, done, merged, uncovered)
    requires forall repo :: Relocated(moves, repo) ==> repo in done
    ensures Reconciles(moves, PlusAll(Survivors(moves), merged))
  {
    var after := PlusAll(Survivors(moves), merged);
    forall m
      ensures m in after <==> (m in moves && !Folded(moves, m)) || Uncovered(moves, m)
    {
      PlusAllKeys(Survivors(moves), merged, m);
      MergedEntry(moves, done, merged, uncovered, m, "");
    }
    forall m, ref | m in after
      ensures ref in after[m] <==>
              (m in moves && !Folded(moves, m) && ref in moves[m])
              || (exists a, r :: Behind(moves, m, a, r) && (ref in moves[a] || ref in moves[r]))
    {
      PlusAllRefs(Survivors(moves), merged, m, ref);
      MergedEntry(moves, done, merged, uncovered, m, ref);
    }
  }

  /** `out` lists what folding the relocations of `moves` leaves. */
  ghost predicate ListsReconciled(out: seq<ImageChange>, moves: Moves)
  {
    exists after :: Reconciles(moves, after) && Lists(out, after)
  }

  method ReconcileRelocations(input: seq<ImageChange>, ghost moves: Moves) returns (out: seq<ImageChange>)
    requires Lists(input, moves)
    ensures ListsReconciled(out, moves)
  {
    var byRepo := IndexRepos(input);
    var dropped, merged;
    ghost var uncovered, done;
    dropped, merged, uncovered, done := MergeRelocations(input, byRepo, moves);
    out := KeepSurvivors(input, dropped, moves, done);
    forall e | e in merged
      ensures e.refs == Arrange(Elements(e.refs))
    {
      MergedRefsOrdered(merged, uncovered, e);
    }
    out := FoldMerged(out, merged, Survivors(moves));
    FoldingReconciles(moves, done, merged, uncovered);
  }

  lemma MergedRefsOrdered(merged: seq<ImageChange>, uncovered: Moves, e: ImageChange)
    requires Lists(merged, uncovered) && e in merged
    ensures e.refs == Arrange(Elements(e.refs))
  {
    ArrangeMembers(uncovered[e.move]);
    assert Elements(e.refs) == uncovered[e.move];
  }

  method ListMoves(moves: Moves) returns (out: seq<ImageChange>)
    ensures Lists(out, moves)
  {
    out := [];
    var todo := moves.Keys;
    ghost var listed: Moves := map[];
    while todo != {}
      invariant Lists(out, listed) && todo !! listed.Keys
      invariant forall m :: m in moves ==> m in todo || m in listed
      invariant forall m :: m in listed ==> m in moves && listed[m] == moves[m]
      invariant todo <= moves.Keys
      decreases |todo|
    {
      ghost var member := SomeMember(todo);
      var m :| m in todo;
      var refs := SortedList(moves[m]);
      ListsMore(out, listed, m, moves[m]);
      out := out + [ImageChange(m, refs)];
      listed := listed[m := moves[m]];
      todo := todo - {m};
    }
    assert listed == moves;
  }

  /** `out` lists, in order, the reconciled moves of the changes. */
  ghost predicate ImageListing(changes: seq<Change>, out: seq<ImageChange>)
  {
    SortedBy(ChangeLeq, out) && exists moves :: Aggregates(changes, moves) && ListsReconciled(out, moves)
  }

  /** The versions of a move are versions its repository really had: `prior` on the old side
      of some change, `next` on the new side of some change. */
  ghost predicate Real(changes: seq<Change>, m: Move)
  {
    && (m.prior != "" ==> exists i :: 0 <= i < |changes| && m.prior in Versions(changes[i].before, m.repo))
    && (m.next != "" ==> exists i :: 0 <= i < |changes| && m.next in Versions(changes[i].after, m.repo))
  }

  lemma MadeIsReal(changes: seq<Change>, m: Move)
    requires Made(changes, m)
    ensures Real(changes, m)
  {
    var i :| 0 <= i < |changes| && Makes(changes[i], m);
  }

  /** The image changes of a pull request: aggregated, reconciled and sorted. */
  method ImageChanges(changes: seq<Change>) returns (out: seq<ImageChange>)
    ensures ImageListing(changes, out)
    ensures forall e :: e in out ==> Real(changes, e.move)
  {
    var byKey := Aggregate(changes);
    var listed := ListMoves(byKey);
    listed := ReconcileRelocations(listed, byKey);
    ChangeLeqIsTotalOrder();
    out := Sort(ChangeLeq, listed);
    SortKeepsDistinct(listed, out);
    ghost var after :| Reconciles(byKey, after) && Lists(listed, after);
    assert Lists(out, after);
    assert ListsReconciled(out, byKey);
    forall e | e in out
      ensures Real(changes, e.move)
    {
      var a, r := InventsNothing(byKey, after, e.move);
      MadeIsReal(changes, a);
      MadeIsReal(changes, r);
    }
  }

  /** The list is determined by what the changes make, whatever order maps are walked in. */
  lemma ImageListIsDetermined(changes: seq<Change>, a: seq<ImageChange>, b: seq<ImageChange>)
    requires ImageListing(changes, a) && ImageListing(changes, b)
    ensures a == b
  {
    var x :| Aggregates(changes, x) && ListsReconciled(a, x);
    var y :| Aggregates(changes, y) && ListsReconciled(b, y);
    AggregateIsUnique(changes, x, y);
    var u :| Reconciles(x, u) && Lists(a, u);
    var v :| Reconciles(y, v) && Lists(b, v);
    ReconciledIsUnique(x, u, v);
    SortedListIsUnique(a, b, u);
  }

  lemma AggregateIsUnique(changes: seq<Change>, a: Moves, b: Moves)
    requires Aggregates(changes, a) && Aggregates(changes, b)
    ensures a == b
  {
    assert forall m :: m in a <==> m in b;
    forall m | m in a
      ensures a[m] == b[m]
    {
      assert forall r :: r in a[m] <==> r in b[m];
    }
  }
}
