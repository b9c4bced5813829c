/** Which lines of the two diff views are shown as context, as removed and as added,
    stated on the rows themselves. */
module DiffKinds {
  import opened Prelude
  import opened DiffViews

  // ---- which lines are shown as what ----

  /** Everything in a unified view that is no change: expanders and context lines. */
  datatype Kept = Head(fold: nat, count: nat) | Both(folded: Option<nat>, oldNo: nat, newNo: nat)

  function KeptOf(r: UnifiedRow): Option<Kept>
  {
    match r
    case Expander(fold, count) => Some(Head(fold, count))
    case Line(folded, kind, oldNo, newNo, _) => if kind == Ctx then Some(Both(folded, oldNo, newNo)) else None
  }

  datatype Change = Removed(oldNo: nat) | Added(newNo: nat)

  function ChangeOf(r: UnifiedRow): Option<Change>
  {
    if r.Line? && r.kind == Del then Some(Removed(r.oldNo))
    else if r.Line? && r.kind == Add then Some(Added(r.newNo))
    else None
  }

  /** `n` lines side by side, from `i` on the old side and `j` on the new. */
  function Lockstep(folded: Option<nat>, i: nat, j: nat, n: nat): seq<Kept>
  {
    seq(n, k requires 0 <= k => Both(folded, i + k + 1, j + k + 1))
  }

  function KeptInOp(op: OpCode): seq<Kept>
  {
    if op.tag == Equal then Lockstep(None, op.i1, op.j1, Minus(op.i2, op.i1)) else []
  }

  function KeptInGap(g: Gap): seq<Kept>
  {
    if g.count == 0 then [] else [Head(g.id, g.count)] + Lockstep(Some(g.id), g.oldStart, g.newStart, g.count)
  }

  function RemovedLines(i: nat, n: nat): seq<Change>
  {
    seq(n, k requires 0 <= k => Removed(i + k + 1))
  }

  function AddedLines(j: nat, n: nat): seq<Change>
  {
    seq(n, k requires 0 <= k => Added(j + k + 1))
  }

  /** The old lines an opcode takes away, then the new ones it brings. */
  function ChangesInOp(op: OpCode): seq<Change>
  {
    (if op.tag == Delete || op.tag == Replace then RemovedLines(op.i1, Minus(op.i2, op.i1)) else [])
    + if op.tag == Insert || op.tag == Replace then AddedLines(op.j1, Minus(op.j2, op.j1)) else []
  }

  function NoChanges(g: Gap): seq<Change> { [] }

  lemma LockstepNext(folded: Option<nat>, i: nat, j: nat, n: nat)
    requires n > 0
    ensures Lockstep(folded, i, j, n) == Lockstep(folded, i, j, n - 1) + [Both(folded, i + n, j + n)]
  {
  }

  lemma RemovedNext(i: nat, n: nat)
    requires n > 0
    ensures RemovedLines(i, n) == RemovedLines(i, n - 1) + [Removed(i + n)]
  {
  }

  lemma AddedNext(j: nat, n: nat)
    requires n > 0
    ensures AddedLines(j, n) == AddedLines(j, n - 1) + [Added(j + n)]
  {
  }

  lemma {:induction false} CtxRowsKept(folded: Option<nat>, ah: seq<string>, i: nat, j: nat, n: nat)
    ensures FilterMap(CtxRows(folded, ah, i, j, n), KeptOf) == Lockstep(folded, i, j, n)
  {
    if n > 0 {
      CtxRowsKept(folded, ah, i, j, n - 1);
      var row := Line(folded, Ctx, i + n, j + n, At(ah, i + n - 1));
      FilterMapKeeps(CtxRows(folded, ah, i, j, n - 1), row, KeptOf, Both(folded, i + n, j + n));
      LockstepNext(folded, i, j, n);
    }
  }

  lemma {:induction false} CtxRowsUnchanged(folded: Option<nat>, ah: seq<string>, i: nat, j: nat, n: nat)
    ensures FilterMap(CtxRows(folded, ah, i, j, n), ChangeOf) == []
  {
    if n > 0 {
      CtxRowsUnchanged(folded, ah, i, j, n - 1);
      FilterMapSkips(CtxRows(folded, ah, i, j, n - 1), Line(folded, Ctx, i + n, j + n, At(ah, i + n - 1)), ChangeOf);
    }
  }

  lemma {:induction false} DelRowsUnkept(ah: seq<string>, i: nat, n: nat)
    ensures FilterMap(DelRows(ah, i, n), KeptOf) == []
  {
    if n > 0 {
      DelRowsUnkept(ah, i, n - 1);
      FilterMapSkips(DelRows(ah, i, n - 1), Line(None, Del, i + n, 0, At(ah, i + n - 1)), KeptOf);
    }
  }

  lemma {:induction false} DelRowsRemove(ah: seq<string>, i: nat, n: nat)
    ensures FilterMap(DelRows(ah, i, n), ChangeOf) == RemovedLines(i, n)
  {
    if n > 0 {
      DelRowsRemove(ah, i, n - 1);
      FilterMapKeeps(DelRows(ah, i, n - 1), Line(None, Del, i + n, 0, At(ah, i + n - 1)), ChangeOf, Removed(i + n));
      RemovedNext(i, n);
    }
  }

  lemma {:induction false} AddRowsUnkept(bh: seq<string>, j: nat, n: nat)
    ensures FilterMap(AddRows(bh, j, n), KeptOf) == []
  {
    if n > 0 {
      AddRowsUnkept(bh, j, n - 1);
      FilterMapSkips(AddRows(bh, j, n - 1), Line(None, Add, 0, j + n, At(bh, j + n - 1)), KeptOf);
    }
  }

  lemma {:induction false} AddRowsAdd(bh: seq<string>, j: nat, n: nat)
    ensures FilterMap(AddRows(bh, j, n), ChangeOf) == AddedLines(j, n)
  {
    if n > 0 {
      AddRowsAdd(bh, j, n - 1);
      FilterMapKeeps(AddRows(bh, j, n - 1), Line(None, Add, 0, j + n, At(bh, j + n - 1)), ChangeOf, Added(j + n));
      AddedNext(j, n);
    }
  }

  lemma UnifiedOpKeeps(ah: seq<string>, bh: seq<string>, op: OpCode)
    ensures FilterMap(UnifiedOp(ah, bh, op), KeptOf) == KeptInOp(op)
  {
    var dn, an := Minus(op.i2, op.i1), Minus(op.j2, op.j1);
    match op.tag
    case Equal => CtxRowsKept(None, ah, op.i1, op.j1, dn);
    case Delete => DelRowsUnkept(ah, op.i1, dn);
    case Insert => AddRowsUnkept(bh, op.j1, an);
    case Replace =>
      DelRowsUnkept(ah, op.i1, dn);
      AddRowsUnkept(bh, op.j1, an);
      FilterMapConcat(DelRows(ah, op.i1, dn), AddRows(bh, op.j1, an), KeptOf);
  }

  lemma UnifiedOpChanges(ah: seq<string>, bh: seq<string>, op: OpCode)
    ensures FilterMap(UnifiedOp(ah, bh, op), ChangeOf) == ChangesInOp(op)
  {
    var dn, an := Minus(op.i2, op.i1), Minus(op.j2, op.j1);
    match op.tag
    case Equal => CtxRowsUnchanged(None, ah, op.i1, op.j1, dn);
    case Delete => DelRowsRemove(ah, op.i1, dn);
    case Insert => AddRowsAdd(bh, op.j1, an);
    case Replace =>
      DelRowsRemove(ah, op.i1, dn);
      AddRowsAdd(bh, op.j1, an);
      FilterMapConcat(DelRows(ah, op.i1, dn), AddRows(bh, op.j1, an), ChangeOf);
  }

  lemma UnifiedGapReads(ah: seq<string>, g: Gap)
    ensures FilterMap(UnifiedGap(ah, g), KeptOf) == KeptInGap(g)
    ensures FilterMap(UnifiedGap(ah, g), ChangeOf) == []
  {
    if g.count > 0 {
      CtxRowsKept(Some(g.id), ah, g.oldStart, g.newStart, g.count);
      CtxRowsUnchanged(Some(g.id), ah, g.oldStart, g.newStart, g.count);
      FilterMapConcat([Expander(g.id, g.count)], CtxRows(Some(g.id), ah, g.oldStart, g.newStart, g.count), KeptOf);
      FilterMapConcat([Expander(g.id, g.count)], CtxRows(Some(g.id), ah, g.oldStart, g.newStart, g.count), ChangeOf);
    }
  }

  /** The context rows are exactly the lines of equal opcodes, in the open, and those of
      the gaps, folded behind an expander; the removed rows are exactly the old lines of
      deletions and replacements, the added ones the new lines of insertions and
      replacements, each replacement's removed lines first. */
  lemma UnifiedKindsAreExact(ah: seq<string>, bh: seq<string>, groups: seq<seq<OpCode>>)
    requires NonEmpty(groups)
    ensures FilterMap(Unified(ah, bh, groups), KeptOf) == Assemble(KeptInOp, KeptInGap, groups, |ah|)
    ensures FilterMap(Unified(ah, bh, groups), ChangeOf) == Assemble(ChangesInOp, NoChanges, groups, |ah|)
  {
    forall op
      ensures FilterMap(UnifiedOps(ah, bh)(op), KeptOf) == KeptInOp(op)
      ensures FilterMap(UnifiedOps(ah, bh)(op), ChangeOf) == ChangesInOp(op)
    {
      UnifiedOpKeeps(ah, bh, op);
      UnifiedOpChanges(ah, bh, op);
    }
    forall gap
      ensures FilterMap(UnifiedGaps(ah)(gap), KeptOf) == KeptInGap(gap)
      ensures FilterMap(UnifiedGaps(ah)(gap), ChangeOf) == []
    {
      UnifiedGapReads(ah, gap);
    }
    ViewReads(UnifiedOps(ah, bh), UnifiedGaps(ah), KeptOf, KeptInOp, KeptInGap, groups, |ah|);
    ViewReads(UnifiedOps(ah, bh), UnifiedGaps(ah), ChangeOf, ChangesInOp, NoChanges, groups, |ah|);
  }

  /** A side-by-side row as kinds and numbers. */
  datatype Beside =
    | Top(fold: nat, count: nat)
    | Cells(folded: Option<nat>, left: Kind, leftNo: nat, right: Kind, rightNo: nat)

  function BesideOf(r: SideRow): Option<Beside>
  {
    match r
    case Divider(fold, count) => Some(Top(fold, count))
    case Pair(folded, left, right) => Some(Cells(folded, left.kind, left.no, right.kind, right.no))
  }

  function SameBeside(folded: Option<nat>, i: nat, j: nat, n: nat): seq<Beside>
  {
    seq(n, k requires 0 <= k => Cells(folded, Ctx, i + k + 1, Ctx, j + k + 1))
  }

  /** The k-th removed line stands beside the k-th added one, while there are any. */
  function ChangedBeside(i: nat, dn: nat, j: nat, an: nat, n: nat): seq<Beside>
  {
    seq(n, k requires 0 <= k => Cells(None, if k < dn then Del else Blank, if k < dn then i + k + 1 else 0,
                                      if k < an then Add else Blank, if k < an then j + k + 1 else 0))
  }

  function BesideInOp(op: OpCode): seq<Beside>
  {
    var dn := if op.tag == Insert then 0 else Minus(op.i2, op.i1);
    var an := if op.tag == Delete then 0 else Minus(op.j2, op.j1);
    if op.tag == Equal then SameBeside(None, op.i1, op.j1, dn)
    else ChangedBeside(op.i1, dn, op.j1, an, if dn > an then dn else an)
  }

  function BesideInGap(g: Gap): seq<Beside>
  {
    if g.count == 0 then [] else [Top(g.id, g.count)] + SameBeside(Some(g.id), g.oldStart, g.newStart, g.count)
  }

  lemma {:induction false} CtxPairsRead(folded: Option<nat>, ah: seq<string>, bh: seq<string>, i: nat, j: nat, n: nat)
    ensures FilterMap(CtxPairs(folded, ah, bh, i, j, n), BesideOf) == SameBeside(folded, i, j, n)
  {
    if n > 0 {
      CtxPairsRead(folded, ah, bh, i, j, n - 1);
      var pair := Pair(folded, Cell(Ctx, i + n, At(ah, i + n - 1)), Cell(Ctx, j + n, At(bh, j + n - 1)));
      FilterMapKeeps(CtxPairs(folded, ah, bh, i, j, n - 1), pair, BesideOf, Cells(folded, Ctx, i + n, Ctx, j + n));
      assert SameBeside(folded, i, j, n) == SameBeside(folded, i, j, n - 1) + [Cells(folded, Ctx, i + n, Ctx, j + n)];
    }
  }

  lemma {:induction false} ChangePairsRead(ah: seq<string>, bh: seq<string>, i: nat, dn: nat, j: nat, an: nat, n: nat)
    ensures FilterMap(ChangePairs(ah, bh, i, dn, j, an, n), BesideOf) == ChangedBeside(i, dn, j, an, n)
  {
    if n > 0 {
      ChangePairsRead(ah, bh, i, dn, j, an, n - 1);
      var pair := ChangePair(ah, bh, i, dn, j, an, n);
      FilterMapKeeps(ChangePairs(ah, bh, i, dn, j, an, n - 1), pair, BesideOf, BesideOf(pair).value);
      assert ChangedBeside(i, dn, j, an, n) == ChangedBeside(i, dn, j, an, n - 1) + [BesideOf(pair).value];
    }
  }

  lemma SideOpReads(ah: seq<string>, bh: seq<string>, op: OpCode)
    ensures FilterMap(SideOp(ah, bh, op), BesideOf) == BesideInOp(op)
  {
    var dn, an := Minus(op.i2, op.i1), Minus(op.j2, op.j1);
    match op.tag
    case Equal => CtxPairsRead(None, ah, bh, op.i1, op.j1, dn);
    case Delete => ChangePairsRead(ah, bh, op.i1, dn, op.j1, 0, dn);
    case Insert => ChangePairsRead(ah, bh, op.i1, 0, op.j1, an, an);
    case Replace => ChangePairsRead(ah, bh, op.i1, dn, op.j1, an, if dn > an then dn else an);
  }

  lemma SideGapReads(ah: seq<string>, bh: seq<string>, g: Gap)
    ensures FilterMap(SideGap(ah, bh, g), BesideOf) == BesideInGap(g)
  {
    if g.count > 0 {
      CtxPairsRead(Some(g.id), ah, bh, g.oldStart, g.newStart, g.count);
      FilterMapConcat([Divider(g.id, g.count)], CtxPairs(Some(g.id), ah, bh, g.oldStart, g.newStart, g.count), BesideOf);
    }
  }

  /** The rows of the side-by-side view are exactly these: equal and trimmed lines beside
      each other as context, removed beside added lines, blanks where one side runs out. */
  lemma SideKindsAreExact(ah: seq<string>, bh: seq<string>, groups: seq<seq<OpCode>>)
    requires NonEmpty(groups)
    ensures FilterMap(Side(ah, bh, groups), BesideOf) == Assemble(BesideInOp, BesideInGap, groups, |ah|)
  {
    forall op
      ensures FilterMap(SideOps(ah, bh)(op), BesideOf) == BesideInOp(op)
    {
      SideOpReads(ah, bh, op);
    }
    forall gap
      ensures FilterMap(SideGaps(ah, bh)(gap), BesideOf) == BesideInGap(gap)
    {
      SideGapReads(ah, bh, gap);
    }
    ViewReads(SideOps(ah, bh), SideGaps(ah, bh), BesideOf, BesideInOp, BesideInGap, groups, |ah|);
  }

  /** How many old, or new, lines the opcodes of a diff replace, delete or insert. */
  function ChangedLines(ops: seq<OpCode>, on: Half): nat
  {
    if ops == [] then 0
    else
      var op := ops[|ops| - 1];
      var counted := op.tag == Replace || op.tag == if on == Old then Delete else Insert;
      ChangedLines(ops[..|ops| - 1], on) + if counted then Span(op, on) else 0
  }

  function AllChangedLines(groups: seq<seq<OpCode>>, on: Half): nat
  {
    if groups == [] then 0
    else AllChangedLines(groups[..|groups| - 1], on) + ChangedLines(groups[|groups| - 1], on)
  }

  function KindOn(on: Half): Kind
  {
    if on == Old then Del else Add
  }

  lemma {:induction false} CountConcat(a: seq<UnifiedRow>, b: seq<UnifiedRow>, kind: Kind)
    ensures CountKind(a + b, kind) == CountKind(a, kind) + CountKind(b, kind)
  {
    if b == [] {
      assert a + b == a;
    } else {
      assert (a + b)[..|a + b| - 1] == a + b[..|b| - 1];
      CountConcat(a, b[..|b| - 1], kind);
    }
  }

  lemma {:induction false} CountCtx(folded: Option<nat>, ah: seq<string>, i: nat, j: nat, n: nat, kind: Kind)
    requires kind != Ctx
    ensures CountKind(CtxRows(folded, ah, i, j, n), kind) == 0
  {
    if n > 0 {
      CountCtx(folded, ah, i, j, n - 1, kind);
    }
  }

  lemma {:induction false} CountDel(ah: seq<string>, i: nat, n: nat, kind: Kind)
    ensures CountKind(DelRows(ah, i, n), kind) == if kind == Del then n else 0
  {
    if n > 0 {
      CountDel(ah, i, n - 1, kind);
    }
  }

  lemma {:induction false} CountAdd(bh: seq<string>, j: nat, n: nat, kind: Kind)
    ensures CountKind(AddRows(bh, j, n), kind) == if kind == Add then n else 0
  {
    if n > 0 {
      CountAdd(bh, j, n - 1, kind);
    }
  }

  lemma CountOp(ah: seq<string>, bh: seq<string>, op: OpCode, on: Half)
    ensures CountKind(UnifiedOp(ah, bh, op), KindOn(on)) == ChangedLines([op], on)
  {
    var dn, an := Minus(op.i2, op.i1), Minus(op.j2, op.j1);
    CountCtx(None, ah, op.i1, op.j1, dn, KindOn(on));
    CountDel(ah, op.i1, dn, KindOn(on));
    CountAdd(bh, op.j1, an, KindOn(on));
    CountConcat(DelRows(ah, op.i1, dn), AddRows(bh, op.j1, an), KindOn(on));
    assert ChangedLines([], on) == 0 && [op][..0] == [];
  }

  lemma CountGap(ah: seq<string>, g: Gap, on: Half)
    ensures CountKind(UnifiedGap(ah, g), KindOn(on)) == 0
  {
    if g.count > 0 {
      CountCtx(Some(g.id), ah, g.oldStart, g.newStart, g.count, KindOn(on));
      CountConcat([Expander(g.id, g.count)], CtxRows(Some(g.id), ah, g.oldStart, g.newStart, g.count), KindOn(on));
    }
  }

  lemma {:induction false} CountOps(ah: seq<string>, bh: seq<string>, ops: seq<OpCode>, on: Half)
    ensures CountKind(OpsRows(UnifiedOps(ah, bh), ops), KindOn(on)) == ChangedLines(ops, on)
  {
    if ops != [] {
      var front, op := ops[..|ops| - 1], ops[|ops| - 1];
      CountOps(ah, bh, front, on);
      CountOp(ah, bh, op, on);
      CountConcat(OpsRows(UnifiedOps(ah, bh), front), UnifiedOp(ah, bh, op), KindOn(on));
      assert [op][..0] == [];
    }
  }

  lemma CountGroup(ah: seq<string>, bh: seq<string>, groups: seq<seq<OpCode>>, g: nat, on: Half)
    requires g < |groups| && NonEmpty(groups)
    ensures CountKind(FirstGroups(UnifiedOps(ah, bh), UnifiedGaps(ah), groups, g + 1, |ah|), KindOn(on)) ==
            CountKind(FirstGroups(UnifiedOps(ah, bh), UnifiedGaps(ah), groups, g, |ah|), KindOn(on)) + ChangedLines(groups[g], on)
  {
    var before := FirstGroups(UnifiedOps(ah, bh), UnifiedGaps(ah), groups, g, |ah|);
    var gap, ops := UnifiedGap(ah, GapBefore(groups, g, |ah|)), OpsRows(UnifiedOps(ah, bh), groups[g]);
    CountGap(ah, GapBefore(groups, g, |ah|), on);
    CountOps(ah, bh, groups[g], on);
    CountConcat(before, gap, KindOn(on));
    CountConcat(before + gap, ops, KindOn(on));
    UnifiedStep(ah, bh, groups, g);
  }

  lemma {:induction false} CountGroups(ah: seq<string>, bh: seq<string>, groups: seq<seq<OpCode>>, g: nat, on: Half)
    requires g <= |groups| && NonEmpty(groups)
    ensures CountKind(FirstGroups(UnifiedOps(ah, bh), UnifiedGaps(ah), groups, g, |ah|), KindOn(on)) ==
            AllChangedLines(groups[..g], on)
  {
    if g > 0 {
      CountGroups(ah, bh, groups, g - 1, on);
      CountGroup(ah, bh, groups, g - 1, on);
      assert groups[..g][..g - 1] == groups[..g - 1];
    }
  }

  /** The tally is the number of old lines deleted or replaced and of new lines inserted
      or replacing. */
  lemma TallyIsExact(ah: seq<string>, bh: seq<string>, groups: seq<seq<OpCode>>)
    requires NonEmpty(groups)
    ensures CountKind(Unified(ah, bh, groups), Del) == AllChangedLines(groups, Old)
    ensures CountKind(Unified(ah, bh, groups), Add) == AllChangedLines(groups, New)
  {
    var n := |groups|;
    var before, gap := FirstGroups(UnifiedOps(ah, bh), UnifiedGaps(ah), groups, n, |ah|), GapBefore(groups, n, |ah|);
    assert groups[..n] == groups;
    CountGroups(ah, bh, groups, n, Old);
    CountGroups(ah, bh, groups, n, New);
    CountGap(ah, gap, Old);
    CountGap(ah, gap, New);
    CountConcat(before, UnifiedGap(ah, gap), Del);
    CountConcat(before, UnifiedGap(ah, gap), Add);
  }
}
