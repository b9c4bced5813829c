/** The image changes of a pull request, entry by entry: what is listed, with which
    references and in which order, in terms of the versions each resource had. */
module ImageLaws {
  import opened Ordering
  import opened Images

  /** The versions of a repository that a resource no longer has, and those it did not have. */
  function Left(c: Change, repo: string): set<string>
  {
    set p | p in c.before && p.0 == repo && (repo, p.1) !in c.after :: p.1
  }

  function Arrived(c: Change, repo: string): set<string>
  {
    set p | p in c.after && p.0 == repo && (repo, p.1) !in c.before :: p.1
  }

  lemma VersionsAreThose(images: seq<(string, string)>, repo: string, v: string)
    ensures v in Versions(images, repo) <==> (repo, v) in images
  {
    if (repo, v) in images {
      assert (repo, v).0 == repo && (repo, v).1 == v;
    }
  }

  lemma DifferencesAre(c: Change, repo: string)
    ensures Left(c, repo) == Versions(c.before, repo) - Versions(c.after, repo)
    ensures Arrived(c, repo) == Versions(c.after, repo) - Versions(c.before, repo)
  {
    forall v
      ensures v in Left(c, repo) <==> v in Versions(c.before, repo) - Versions(c.after, repo)
      ensures v in Arrived(c, repo) <==> v in Versions(c.after, repo) - Versions(c.before, repo)
    {
      VersionsAreThose(c.before, repo, v);
      VersionsAreThose(c.after, repo, v);
    }
  }

  /** One version left the resource and one arrived: that is a bump. */
  predicate Bumps(c: Change, m: Move)
  {
    Left(c, m.repo) == {m.prior} && Arrived(c, m.repo) == {m.next}
  }

  /** Otherwise each version that left is a removal and each that arrived an addition. */
  predicate MovesApart(c: Change, m: Move)
  {
    && !(|Left(c, m.repo)| == 1 && |Arrived(c, m.repo)| == 1)
    && ((m.next == "" && m.prior in Left(c, m.repo)) || (m.prior == "" && m.next in Arrived(c, m.repo)))
  }

  lemma Singleton(s: set<string>, x: string)
    ensures |s| == 1 && x in s <==> s == {x}
  {
    if |s| == 1 && x in s {
      assert s == {x} + (s - {x}) && |s - {x}| == 0;
    }
  }

  /** What one resource contributes: a pure addition, a pure removal or a bump, by the
      versions that left and arrived, and never an unnamed image or a move to itself. */
  lemma MakesExactly(c: Change, m: Move)
    ensures Makes(c, m) <==> m.repo != "" && m.prior != m.next && (Bumps(c, m) || MovesApart(c, m))
  {
    DifferencesAre(c, m.repo);
    Singleton(Left(c, m.repo), m.prior);
    Singleton(Arrived(c, m.repo), m.next);
  }

  /** All resources together make one pure removal of the repository, of `u`, and one pure
      addition, of `v`. */
  ghost predicate LonePair(changes: seq<Change>, repo: string, u: string, v: string)
  {
    && u != "" && v != ""
    && (forall w :: w != "" ==> (Made(changes, Move(repo, w, "")) <==> w == u))
    && (forall w :: w != "" ==> (Made(changes, Move(repo, "", w)) <==> w == v))
  }

  ghost predicate LoneIn(moves: Moves, repo: string, u: string, v: string)
  {
    && u != "" && v != ""
    && (forall w :: w != "" ==> (Move(repo, w, "") in moves <==> w == u))
    && (forall w :: w != "" ==> (Move(repo, "", w) in moves <==> w == v))
  }

  lemma LoneIsLone(changes: seq<Change>, moves: Moves, repo: string, u: string, v: string)
    requires Aggregates(changes, moves)
    ensures LoneIn(moves, repo, u, v) <==> LonePair(changes, repo, u, v)
  {
    assert forall w :: Move(repo, w, "") in moves <==> Made(changes, Move(repo, w, ""));
    assert forall w :: Move(repo, "", w) in moves <==> Made(changes, Move(repo, "", w));
  }

  lemma OnlyPairIsIn(moves: Moves, repo: string, a: Move, r: Move)
    requires OnlyPair(moves, repo, a, r)
    ensures LoneIn(moves, repo, r.prior, a.next) && a == Move(repo, "", a.next) && r == Move(repo, r.prior, "")
  {
  }

  lemma LoneIsOnlyPair(moves: Moves, repo: string, u: string, v: string)
    requires LoneIn(moves, repo, u, v)
    ensures OnlyPair(moves, repo, Move(repo, "", v), Move(repo, u, ""))
  {
    forall m | m in moves
      ensures Added(m, repo) ==> m == Move(repo, "", v)
      ensures Removed(m, repo) ==> m == Move(repo, u, "")
    {
      assert Added(m, repo) ==> m == Move(repo, "", m.next);
      assert Removed(m, repo) ==> m == Move(repo, m.prior, "");
    }
  }

  lemma OnlyPairIsLone(changes: seq<Change>, moves: Moves, repo: string, a: Move, r: Move)
    requires Aggregates(changes, moves)
    ensures OnlyPair(moves, repo, a, r) <==>
            LonePair(changes, repo, r.prior, a.next) && a == Move(repo, "", a.next) && r == Move(repo, r.prior, "")
  {
    LoneIsLone(changes, moves, repo, r.prior, a.next);
    if OnlyPair(moves, repo, a, r) {
      OnlyPairIsIn(moves, repo, a, r);
    } else if LoneIn(moves, repo, r.prior, a.next) {
      LoneIsOnlyPair(moves, repo, r.prior, a.next);
    }
  }

  /** A pure addition or removal, of a repository that has one of each. */
  ghost predicate HalfOfPair(changes: seq<Change>, m: Move)
  {
    (m.prior == "" || m.next == "") && exists u, v :: LonePair(changes, m.repo, u, v)
  }

  /** `m` is the transition behind such a pair. */
  ghost predicate PairsUp(changes: seq<Change>, m: Move)
  {
    m.prior != m.next && LonePair(changes, m.repo, m.prior, m.next)
  }

  lemma FoldedIsHalf(changes: seq<Change>, moves: Moves, m: Move)
    requires Aggregates(changes, moves) && m in moves
    ensures Folded(moves, m) <==> HalfOfPair(changes, m)
  {
    assert Made(changes, m);
    if Folded(moves, m) {
      var a, r :| OnlyPair(moves, m.repo, a, r);
      OnlyPairIsLone(changes, moves, m.repo, a, r);
      assert LonePair(changes, m.repo, r.prior, a.next);
    } else if HalfOfPair(changes, m) {
      var u, v :| LonePair(changes, m.repo, u, v);
      OnlyPairIsLone(changes, moves, m.repo, Move(m.repo, "", v), Move(m.repo, u, ""));
      assert Relocated(moves, m.repo);
    }
  }

  lemma BehindIsPaired(changes: seq<Change>, moves: Moves, m: Move)
    requires Aggregates(changes, moves)
    ensures Uncovered(moves, m) <==> PairsUp(changes, m)
    ensures forall a, r :: Behind(moves, m, a, r) ==> a == Move(m.repo, "", m.next) && r == Move(m.repo, m.prior, "")
  {
    forall a, r | Behind(moves, m, a, r)
      ensures PairsUp(changes, m) && a == Move(m.repo, "", m.next) && r == Move(m.repo, m.prior, "")
    {
      OnlyPairIsLone(changes, moves, m.repo, a, r);
    }
    if PairsUp(changes, m) {
      var a, r := Move(m.repo, "", m.next), Move(m.repo, m.prior, "");
      OnlyPairIsLone(changes, moves, m.repo, a, r);
      assert Behind(moves, m, a, r);
    }
  }

  ghost predicate Listed(out: seq<ImageChange>, m: Move)
  {
    exists e :: e in out && e.move == m
  }

  /** The final list, move by move: what some resource made, unless it is half of a lone
      removal and addition of its repository; and for each such pair, at different
      versions, the transition between them. */
  lemma ListedExactly(changes: seq<Change>, out: seq<ImageChange>, m: Move)
    requires ImageListing(changes, out)
    ensures Listed(out, m) <==> (Made(changes, m) && !HalfOfPair(changes, m)) || PairsUp(changes, m)
    ensures Listed(out, m) ==> m.repo != "" && m.prior != m.next
  {
    var moves :| Aggregates(changes, moves) && ListsReconciled(out, moves);
    var after :| Reconciles(moves, after) && Lists(out, after);
    ListedIsAfter(out, after, m);
    BehindIsPaired(changes, moves, m);
    if m in moves {
      FoldedIsHalf(changes, moves, m);
    }
    if Made(changes, m) {
      var i :| 0 <= i < |changes| && Makes(changes[i], m);
    } else if PairsUp(changes, m) {
      assert Made(changes, Move(m.repo, m.prior, ""));
      var i :| 0 <= i < |changes| && Makes(changes[i], Move(m.repo, m.prior, ""));
    }
  }

  lemma ListedIsAfter(out: seq<ImageChange>, after: Moves, m: Move)
    requires Lists(out, after)
    ensures Listed(out, m) <==> m in after
  {
    if m in after {
      assert ImageChange(m, Arrange(after[m])) in out;
    }
  }

  /** The references of an entry: the resources that made the move, unless it is there only
      as a pair, and those that made either half of the pair. */
  lemma ReferencesExactly(changes: seq<Change>, out: seq<ImageChange>, e: ImageChange, ref: string)
    requires ImageListing(changes, out) && e in out
    ensures var m := e.move;
            ref in e.refs <==>
            || (!HalfOfPair(changes, m) && MadeBy(changes, m, ref))
            || (PairsUp(changes, m) && (MadeBy(changes, Move(m.repo, "", m.next), ref) || MadeBy(changes, Move(m.repo, m.prior, ""), ref)))
    ensures SortedBy(LexLeq, e.refs) && Distinct(e.refs)
  {
    var moves :| Aggregates(changes, moves) && ListsReconciled(out, moves);
    var after :| Reconciles(moves, after) && Lists(out, after);
    assert e.move in after && e.refs == Arrange(after[e.move]);
    ArrangeMembers(after[e.move]);
    ArrangeIsSorted(after[e.move]);
    KeptReferences(changes, moves, after, e.move, ref);
  }

  lemma KeptReferences(changes: seq<Change>, moves: Moves, after: Moves, m: Move, ref: string)
    requires Aggregates(changes, moves) && Reconciles(moves, after) && m in after
    ensures ref in after[m] <==>
            || (!HalfOfPair(changes, m) && MadeBy(changes, m, ref))
            || (PairsUp(changes, m) && (MadeBy(changes, Move(m.repo, "", m.next), ref) || MadeBy(changes, Move(m.repo, m.prior, ""), ref)))
  {
    if m in moves {
      FoldedIsHalf(changes, moves, m);
    }
    OwnReferences(changes, moves, m, ref);
    PairReferences(changes, moves, m, ref);
  }

  lemma OwnReferences(changes: seq<Change>, moves: Moves, m: Move, ref: string)
    requires Aggregates(changes, moves)
    ensures MadeBy(changes, m, ref) <==> m in moves && ref in moves[m]
  {
    if MadeBy(changes, m, ref) {
      assert Made(changes, m);
    }
  }

  lemma PairReferences(changes: seq<Change>, moves: Moves, m: Move, ref: string)
    requires Aggregates(changes, moves)
    ensures (exists a, r :: Behind(moves, m, a, r) && (ref in moves[a] || ref in moves[r])) <==>
            PairsUp(changes, m) && (MadeBy(changes, Move(m.repo, "", m.next), ref) || MadeBy(changes, Move(m.repo, m.prior, ""), ref))
  {
    var a, r := Move(m.repo, "", m.next), Move(m.repo, m.prior, "");
    BehindIsPaired(changes, moves, m);
    OwnReferences(changes, moves, a, ref);
    OwnReferences(changes, moves, r, ref);
    if PairsUp(changes, m) {
      OnlyPairIsLone(changes, moves, m.repo, a, r);
      assert Behind(moves, m, a, r);
    }
  }

  /** By repository, then by the version left, then by the version reached; each move once. */
  lemma ListedInOrder(changes: seq<Change>, out: seq<ImageChange>, i: nat, j: nat)
    requires ImageListing(changes, out) && i < j < |out|
    ensures var a, b := out[i].move, out[j].move;
            && a != b && LexLeq(a.repo, b.repo)
            && (a.repo == b.repo ==> LexLeq(a.prior, b.prior))
            && (a.repo == b.repo && a.prior == b.prior ==> LexLeq(a.next, b.next))
  {
    var moves :| Aggregates(changes, moves) && ListsReconciled(out, moves);
    var after :| Reconciles(moves, after) && Lists(out, after);
    OneEntryEach(out, after, i, j);
    assert ChangeLeq(out[i], out[j]);
    LexTotal(out[i].move.repo, out[i].move.repo);
    LexTotal(out[i].move.prior, out[i].move.prior);
  }
}
