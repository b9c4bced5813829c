/** The unified and side-by-side views of one resource's diff: grouped opcodes plus
    the unchanged runs the grouping trimmed, folded behind expanders. */
module DiffViews {
  import opened Prelude

  datatype Tag = Equal | Delete | Insert | Replace
  datatype OpCode = OpCode(tag: Tag, i1: nat, i2: nat, j1: nat, j2: nat)

  datatype Kind = Ctx | Add | Del | Blank

  /** An expander names its fold and its length; 0 stands for an absent line number. */
  datatype UnifiedRow =
    | Expander(fold: nat, count: nat)
    | Line(folded: Option<nat>, kind: Kind, oldNo: nat, newNo: nat, html: string)

  datatype Cell = Cell(kind: Kind, no: nat, html: string)

  datatype SideRow =
    | Divider(fold: nat, count: nat)
    | Pair(folded: Option<nat>, left: Cell, right: Cell)

  /** The two files of a diff. */
  datatype Half = Old | New

  datatype Gap = Gap(id: nat, oldStart: nat, newStart: nat, count: nat)

  const NO_GAP := Gap(0, 0, 0, 0)

  // ---- what the diff library promises about its groups ----

  predicate WellFormedOp(op: OpCode, nOld: nat, nNew: nat)
  {
    && op.i1 <= op.i2 <= nOld && op.j1 <= op.j2 <= nNew
    && (op.tag == Equal ==> op.i2 - op.i1 == op.j2 - op.j1)
    && (op.tag == Delete ==> op.j1 == op.j2)
    && (op.tag == Insert ==> op.i1 == op.i2)
  }

  ghost predicate NonEmpty(groups: seq<seq<OpCode>>)
  {
    forall g :: 0 <= g < |groups| ==> groups[g] != []
  }

  /** Contiguous inside a group, and only equal-length runs left out between groups. */
  ghost predicate Grouped(groups: seq<seq<OpCode>>, nOld: nat, nNew: nat)
  {
    && NonEmpty(groups)
    && (forall g :: 0 <= g < |groups| ==> GroupOk(groups, g, nOld, nNew))
    && (groups != [] ==> Skips(OldEnd(groups, |groups|), NewEnd(groups, |groups|), nOld, nNew))
  }

  ghost predicate GroupOk(groups: seq<seq<OpCode>>, g: nat, nOld: nat, nNew: nat)
    requires g < |groups| && NonEmpty(groups)
  {
    && Contiguous(groups[g], nOld, nNew)
    && Skips(OldEnd(groups, g), NewEnd(groups, g), groups[g][0].i1, groups[g][0].j1)
  }

  predicate Contiguous(ops: seq<OpCode>, nOld: nat, nNew: nat)
  {
    ops == [] || (
      var n := |ops| - 1;
      && WellFormedOp(ops[n], nOld, nNew)
      && Contiguous(ops[..n], nOld, nNew)
      && (n > 0 ==> ops[n].i1 == ops[n - 1].i2 && ops[n].j1 == ops[n - 1].j2))
  }

  predicate Skips(i: nat, j: nat, i': nat, j': nat)
  {
    i <= i' && j <= j' && i' - i == j' - j
  }

  /** Where the first `g` groups end on each side. */
  function OldEnd(groups: seq<seq<OpCode>>, g: nat): nat
    requires g <= |groups| && NonEmpty(groups)
  {
    if g == 0 then 0 else groups[g - 1][|groups[g - 1]| - 1].i2
  }

  function NewEnd(groups: seq<seq<OpCode>>, g: nat): nat
    requires g <= |groups| && NonEmpty(groups)
  {
    if g == 0 then 0 else groups[g - 1][|groups[g - 1]| - 1].j2
  }

  // ---- the specification: assembling rows from gaps and opcodes ----

  /** The line at `i`; opcodes of well-formed groups never index past the end. */
  function At(lines: seq<string>, i: nat): string
  {
    if i < |lines| then lines[i] else ""
  }

  function GapBefore(groups: seq<seq<OpCode>>, g: nat, nOld: nat): Gap
    requires g <= |groups| && NonEmpty(groups)
  {
    if groups == [] then NO_GAP
    else
      var from := OldEnd(groups, g);
      var to := if g < |groups| then groups[g][0].i1 else nOld;
      if to > from then Gap(g, from, NewEnd(groups, g), to - from) else NO_GAP
  }

  function OpsRows<R>(opRows: OpCode -> seq<R>, ops: seq<OpCode>): seq<R>
  {
    if ops == [] then [] else OpsRows(opRows, ops[..|ops| - 1]) + opRows(ops[|ops| - 1])
  }

  function FirstGroups<R>(opRows: OpCode -> seq<R>, gapRows: Gap -> seq<R>, groups: seq<seq<OpCode>>, g: nat, nOld: nat): seq<R>
    requires g <= |groups| && NonEmpty(groups)
  {
    if g == 0 then []
    else
      FirstGroups(opRows, gapRows, groups, g - 1, nOld) + gapRows(GapBefore(groups, g - 1, nOld))
      + OpsRows(opRows, groups[g - 1])
  }

  function Assemble<R>(opRows: OpCode -> seq<R>, gapRows: Gap -> seq<R>, groups: seq<seq<OpCode>>, nOld: nat): seq<R>
    requires NonEmpty(groups)
  {
    FirstGroups(opRows, gapRows, groups, |groups|, nOld) + gapRows(GapBefore(groups, |groups|, nOld))
  }

  function Minus(hi: nat, lo: nat): nat
  {
    if hi > lo then hi - lo else 0
  }

  /** `n` unchanged lines from `i` on the old side and `j` on the new. */
  function CtxRows(folded: Option<nat>, ah: seq<string>, i: nat, j: nat, n: nat): seq<UnifiedRow>
  {
    if n == 0 then [] else CtxRows(folded, ah, i, j, n - 1) + [Line(folded, Ctx, i + n, j + n, At(ah, i + n - 1))]
  }

  function DelRows(ah: seq<string>, i: nat, n: nat): seq<UnifiedRow>
  {
    if n == 0 then [] else DelRows(ah, i, n - 1) + [Line(None, Del, i + n, 0, At(ah, i + n - 1))]
  }

  function AddRows(bh: seq<string>, j: nat, n: nat): seq<UnifiedRow>
  {
    if n == 0 then [] else AddRows(bh, j, n - 1) + [Line(None, Add, 0, j + n, At(bh, j + n - 1))]
  }

  function UnifiedOp(ah: seq<string>, bh: seq<string>, op: OpCode): seq<UnifiedRow>
  {
    var dn, an := Minus(op.i2, op.i1), Minus(op.j2, op.j1);
    match op.tag
    case Equal => CtxRows(None, ah, op.i1, op.j1, dn)
    case Delete => DelRows(ah, op.i1, dn)
    case Insert => AddRows(bh, op.j1, an)
    case Replace => DelRows(ah, op.i1, dn) + AddRows(bh, op.j1, an)
  }

  function UnifiedGap(ah: seq<string>, g: Gap): seq<UnifiedRow>
  {
    if g.count == 0 then []
    else [Expander(g.id, g.count)] + CtxRows(Some(g.id), ah, g.oldStart, g.newStart, g.count)
  }

  const BLANK := Cell(Blank, 0, "")

  function CtxPairs(folded: Option<nat>, ah: seq<string>, bh: seq<string>, i: nat, j: nat, n: nat): seq<SideRow>
  {
    if n == 0 then []
    else
      CtxPairs(folded, ah, bh, i, j, n - 1) +
      [Pair(folded, Cell(Ctx, i + n, At(ah, i + n - 1)), Cell(Ctx, j + n, At(bh, j + n - 1)))]
  }

  /** `dn` removed lines beside `an` added ones; the shorter side runs out into blanks. */
  function ChangePairs(ah: seq<string>, bh: seq<string>, i: nat, dn: nat, j: nat, an: nat, n: nat): seq<SideRow>
  {
    if n == 0 then []
    else
      ChangePairs(ah, bh, i, dn, j, an, n - 1) + [ChangePair(ah, bh, i, dn, j, an, n)]
  }

  function SideOp(ah: seq<string>, bh: seq<string>, op: OpCode): seq<SideRow>
  {
    var dn, an := Minus(op.i2, op.i1), Minus(op.j2, op.j1);
    match op.tag
    case Equal => CtxPairs(None, ah, bh, op.i1, op.j1, dn)
    case Delete => ChangePairs(ah, bh, op.i1, dn, op.j1, 0, dn)
    case Insert => ChangePairs(ah, bh, op.i1, 0, op.j1, an, an)
    case Replace => ChangePairs(ah, bh, op.i1, dn, op.j1, an, if dn > an then dn else an)
  }

  function SideGap(ah: seq<string>, bh: seq<string>, g: Gap): seq<SideRow>
  {
    if g.count == 0 then []
    else [Divider(g.id, g.count)] + CtxPairs(Some(g.id), ah, bh, g.oldStart, g.newStart, g.count)
  }

  function UnifiedOps(ah: seq<string>, bh: seq<string>): OpCode -> seq<UnifiedRow>
  {
    (op: OpCode) => UnifiedOp(ah, bh, op)
  }

  function UnifiedGaps(ah: seq<string>): Gap -> seq<UnifiedRow>
  {
    (g: Gap) => UnifiedGap(ah, g)
  }

  function SideOps(ah: seq<string>, bh: seq<string>): OpCode -> seq<SideRow>
  {
    (op: OpCode) => SideOp(ah, bh, op)
  }

  function SideGaps(ah: seq<string>, bh: seq<string>): Gap -> seq<SideRow>
  {
    (g: Gap) => SideGap(ah, bh, g)
  }

  function Unified(ah: seq<string>, bh: seq<string>, groups: seq<seq<OpCode>>): seq<UnifiedRow>
    requires NonEmpty(groups)
  {
    Assemble(UnifiedOps(ah, bh), UnifiedGaps(ah), groups, |ah|)
  }

  function Side(ah: seq<string>, bh: seq<string>, groups: seq<seq<OpCode>>): seq<SideRow>
    requires NonEmpty(groups)
  {
    Assemble(SideOps(ah, bh), SideGaps(ah, bh), groups, |ah|)
  }

  lemma OpWellFormed(ops: seq<OpCode>, k: nat, nOld: nat, nNew: nat)
    requires Contiguous(ops, nOld, nNew) && k < |ops|
    ensures WellFormedOp(ops[k], nOld, nNew)
  {
    if k < |ops| - 1 {
      OpWellFormed(ops[..|ops| - 1], k, nOld, nNew);
    }
  }

  /** A gap lies inside both files. */
  lemma GapInRange(groups: seq<seq<OpCode>>, g: nat, nOld: nat, nNew: nat)
    requires Grouped(groups, nOld, nNew) && g <= |groups|
    ensures var gap := GapBefore(groups, g, nOld);
            gap.oldStart + gap.count <= nOld && gap.newStart + gap.count <= nNew
  {
    if g < |groups| {
      assert GroupOk(groups, g, nOld, nNew);
      OpWellFormed(groups[g], 0, nOld, nNew);
    }
  }

  lemma UnifiedNext(ah: seq<string>, bh: seq<string>, ops: seq<OpCode>, k: nat, before: seq<UnifiedRow>)
    requires k < |ops|
    ensures before + OpsRows(UnifiedOps(ah, bh), ops[..k + 1]) ==
            before + OpsRows(UnifiedOps(ah, bh), ops[..k]) + UnifiedOp(ah, bh, ops[k])
  {
    assert ops[..k + 1][..k] == ops[..k];
  }

  lemma SideNext(ah: seq<string>, bh: seq<string>, ops: seq<OpCode>, k: nat, before: seq<SideRow>)
    requires k < |ops|
    ensures before + OpsRows(SideOps(ah, bh), ops[..k + 1]) ==
            before + OpsRows(SideOps(ah, bh), ops[..k]) + SideOp(ah, bh, ops[k])
  {
    assert ops[..k + 1][..k] == ops[..k];
  }

  lemma UnifiedStep(ah: seq<string>, bh: seq<string>, groups: seq<seq<OpCode>>, g: nat)
    requires g < |groups| && NonEmpty(groups)
    ensures FirstGroups(UnifiedOps(ah, bh), UnifiedGaps(ah), groups, g + 1, |ah|) ==
            FirstGroups(UnifiedOps(ah, bh), UnifiedGaps(ah), groups, g, |ah|)
            + UnifiedGap(ah, GapBefore(groups, g, |ah|)) + OpsRows(UnifiedOps(ah, bh), groups[g])
  {
  }

  lemma SideStep(ah: seq<string>, bh: seq<string>, groups: seq<seq<OpCode>>, g: nat)
    requires g < |groups| && NonEmpty(groups)
    ensures FirstGroups(SideOps(ah, bh), SideGaps(ah, bh), groups, g + 1, |ah|) ==
            FirstGroups(SideOps(ah, bh), SideGaps(ah, bh), groups, g, |ah|)
            + SideGap(ah, bh, GapBefore(groups, g, |ah|)) + OpsRows(SideOps(ah, bh), groups[g])
  {
  }

  // ---- the program ----

  method FoldGaps(groups: seq<seq<OpCode>>, nOld: nat) returns (gaps: seq<Gap>)
    requires NonEmpty(groups)
    ensures |gaps| == |groups| + 1
    ensures forall g :: 0 <= g <= |groups| ==> gaps[g] == GapBefore(groups, g, nOld)
    ensures forall g :: 0 <= g <= |groups| && gaps[g].count > 0 ==> gaps[g].id == g
  {
    gaps := seq(|groups| + 1, _ => NO_GAP);
    for gi := 0 to |groups|
      invariant |gaps| == |groups| + 1
      invariant forall g :: 0 <= g < gi ==> gaps[g] == GapBefore(groups, g, nOld)
      invariant forall g :: gi <= g <= |groups| ==> gaps[g] == NO_GAP
    {
      if gi == 0 {
        if groups[0][0].i1 > 0 {
          gaps := gaps[0 := Gap(0, 0, 0, groups[0][0].i1)];
        }
      } else {
        var prev := groups[gi - 1][|groups[gi - 1]| - 1];
        if groups[gi][0].i1 > prev.i2 {
          gaps := gaps[gi := Gap(gi, prev.i2, prev.j2, groups[gi][0].i1 - prev.i2)];
        }
      }
    }
    var n := |groups|;
    if n > 0 {
      var last := groups[n - 1][|groups[n - 1]| - 1];
      if nOld > last.i2 {
        gaps := gaps[n := Gap(n, last.i2, last.j2, nOld - last.i2)];
      }
    }
  }

  method UnifiedRows(ah: seq<string>, bh: seq<string>, groups: seq<seq<OpCode>>) returns (rows: seq<UnifiedRow>)
    requires Grouped(groups, |ah|, |bh|)
    ensures rows == Unified(ah, bh, groups)
  {
    rows := [];
    var gaps := FoldGaps(groups, |ah|);
    for gi := 0 to |groups|
      invariant rows == FirstGroups(UnifiedOps(ah, bh), UnifiedGaps(ah), groups, gi, |ah|)
    {
      assert GroupOk(groups, gi, |ah|, |bh|);
      GapInRange(groups, gi, |ah|, |bh|);
      rows := UnifiedFold(rows, ah, gaps[gi]);
      rows := AppendUnifiedGroup(rows, ah, bh, groups[gi]);
      UnifiedStep(ah, bh, groups, gi);
    }
    GapInRange(groups, |groups|, |ah|, |bh|);
    rows := UnifiedFold(rows, ah, gaps[|groups|]);
  }

  method UnifiedFold(before: seq<UnifiedRow>, ah: seq<string>, g: Gap) returns (rows: seq<UnifiedRow>)
    requires g.oldStart + g.count <= |ah|
    ensures rows == before + UnifiedGap(ah, g)
  {
    rows := before;
    if g.count == 0 {
      return;
    }
    rows := rows + [Expander(g.id, g.count)];
    for k := 0 to g.count
      invariant rows == before + ([Expander(g.id, g.count)] + CtxRows(Some(g.id), ah, g.oldStart, g.newStart, k))
    {
      rows := rows + [Line(Some(g.id), Ctx, g.oldStart + k + 1, g.newStart + k + 1, ah[g.oldStart + k])];
    }
  }

  method AppendUnifiedGroup(before: seq<UnifiedRow>, ah: seq<string>, bh: seq<string>, group: seq<OpCode>)
    returns (rows: seq<UnifiedRow>)
    requires Contiguous(group, |ah|, |bh|)
    ensures rows == before + OpsRows(UnifiedOps(ah, bh), group)
  {
    rows := before;
    for k := 0 to |group|
      invariant rows == before + OpsRows(UnifiedOps(ah, bh), group[..k])
    {
      OpWellFormed(group, k, |ah|, |bh|);
      UnifiedNext(ah, bh, group, k, before);
      rows := AppendUnified(rows, ah, bh, group[k]);
    }
    assert group[..|group|] == group;
  }

  method AppendUnified(before: seq<UnifiedRow>, ah: seq<string>, bh: seq<string>, op: OpCode) returns (rows: seq<UnifiedRow>)
    requires WellFormedOp(op, |ah|, |bh|)
    ensures rows == before + UnifiedOp(ah, bh, op)
  {
    rows := before;
    match op.tag {
      case Equal =>
        for k := 0 to op.i2 - op.i1
          invariant rows == before + CtxRows(None, ah, op.i1, op.j1, k)
        {
          rows := rows + [Line(None, Ctx, op.i1 + k + 1, op.j1 + k + 1, ah[op.i1 + k])];
        }
      case Insert =>
        rows := AppendInserted(rows, ah, bh, op);
      case _ =>
        for k := 0 to op.i2 - op.i1
          invariant rows == before + DelRows(ah, op.i1, k)
        {
          rows := rows + [Line(None, Del, op.i1 + k + 1, 0, ah[op.i1 + k])];
        }
        if op.tag == Replace {
          rows := AppendInserted(rows, ah, bh, op);
        }
    }
  }

  method AppendInserted(before: seq<UnifiedRow>, ah: seq<string>, bh: seq<string>, op: OpCode) returns (rows: seq<UnifiedRow>)
    requires WellFormedOp(op, |ah|, |bh|)
    ensures rows == before + AddRows(bh, op.j1, op.j2 - op.j1)
  {
    rows := before;
    for k := 0 to op.j2 - op.j1
      invariant rows == before + AddRows(bh, op.j1, k)
    {
      rows := rows + [Line(None, Add, 0, op.j1 + k + 1, bh[op.j1 + k])];
    }
  }

  method SideRows(ah: seq<string>, bh: seq<string>, groups: seq<seq<OpCode>>) returns (rows: seq<SideRow>)
    requires Grouped(groups, |ah|, |bh|)
    ensures rows == Side(ah, bh, groups)
  {
    rows := [];
    var gaps := FoldGaps(groups, |ah|);
    for gi := 0 to |groups|
      invariant rows == FirstGroups(SideOps(ah, bh), SideGaps(ah, bh), groups, gi, |ah|)
    {
      assert GroupOk(groups, gi, |ah|, |bh|);
      GapInRange(groups, gi, |ah|, |bh|);
      rows := SideFold(rows, ah, bh, gaps[gi]);
      rows := AppendSideGroup(rows, ah, bh, groups[gi]);
      SideStep(ah, bh, groups, gi);
    }
    GapInRange(groups, |groups|, |ah|, |bh|);
    rows := SideFold(rows, ah, bh, gaps[|groups|]);
  }

  method SideFold(before: seq<SideRow>, ah: seq<string>, bh: seq<string>, g: Gap) returns (rows: seq<SideRow>)
    requires g.oldStart + g.count <= |ah| && g.newStart + g.count <= |bh|
    ensures rows == before + SideGap(ah, bh, g)
  {
    rows := before;
    if g.count == 0 {
      return;
    }
    rows := rows + [Divider(g.id, g.count)];
    for k := 0 to g.count
      invariant rows == before + ([Divider(g.id, g.count)] + CtxPairs(Some(g.id), ah, bh, g.oldStart, g.newStart, k))
    {
      var left, right := Cell(Ctx, g.oldStart + k + 1, ah[g.oldStart + k]), Cell(Ctx, g.newStart + k + 1, bh[g.newStart + k]);
      rows := rows + [Pair(Some(g.id), left, right)];
    }
  }

  method AppendSideGroup(before: seq<SideRow>, ah: seq<string>, bh: seq<string>, group: seq<OpCode>)
    returns (rows: seq<SideRow>)
    requires Contiguous(group, |ah|, |bh|)
    ensures rows == before + OpsRows(SideOps(ah, bh), group)
  {
    rows := before;
    for k := 0 to |group|
      invariant rows == before + OpsRows(SideOps(ah, bh), group[..k])
    {
      OpWellFormed(group, k, |ah|, |bh|);
      SideNext(ah, bh, group, k, before);
      rows := AppendSide(rows, ah, bh, group[k]);
    }
    assert group[..|group|] == group;
  }

  method AppendSide(before: seq<SideRow>, ah: seq<string>, bh: seq<string>, op: OpCode) returns (rows: seq<SideRow>)
    requires WellFormedOp(op, |ah|, |bh|)
    ensures rows == before + SideOp(ah, bh, op)
  {
    rows := before;
    var dn, an := op.i2 - op.i1, op.j2 - op.j1;
    match op.tag {
      case Equal =>
        for k := 0 to dn
          invariant rows == before + CtxPairs(None, ah, bh, op.i1, op.j1, k)
        {
          rows := rows + [Pair(None, Cell(Ctx, op.i1 + k + 1, ah[op.i1 + k]), Cell(Ctx, op.j1 + k + 1, bh[op.j1 + k]))];
        }
      case Delete =>
        for k := 0 to dn
          invariant rows == before + ChangePairs(ah, bh, op.i1, dn, op.j1, 0, k)
        {
          rows := rows + [Pair(None, Cell(Del, op.i1 + k + 1, ah[op.i1 + k]), BLANK)];
        }
      case Insert =>
        for k := 0 to an
          invariant rows == before + ChangePairs(ah, bh, op.i1, 0, op.j1, an, k)
        {
          rows := rows + [Pair(None, BLANK, Cell(Add, op.j1 + k + 1, bh[op.j1 + k]))];
        }
      case Replace =>
        for k := 0 to if dn > an then dn else an
          invariant rows == before + ChangePairs(ah, bh, op.i1, dn, op.j1, an, k)
        {
          var l, r := BLANK, BLANK;
          if k < dn {
            l := Cell(Del, op.i1 + k + 1, ah[op.i1 + k]);
          }
          if k < an {
            r := Cell(Add, op.j1 + k + 1, bh[op.j1 + k]);
          }
          rows := rows + [Pair(None, l, r)];
        }
    }
  }

  // ---- reading a side back out of a view ----

  function FilterMap<A, B>(s: seq<A>, f: A -> Option<B>): seq<B>
  {
    if s == [] then []
    else
      var last := f(s[|s| - 1]);
      FilterMap(s[..|s| - 1], f) + if last.Some? then [last.value] else []
  }

  lemma FilterMapKeeps<A, B>(s: seq<A>, x: A, f: A -> Option<B>, v: B)
    requires f(x) == Some(v)
    ensures FilterMap(s + [x], f) == FilterMap(s, f) + [v]
  {
    assert (s + [x])[..|s|] == s;
  }

  lemma FilterMapSkips<A, B>(s: seq<A>, x: A, f: A -> Option<B>)
    requires f(x) == None
    ensures FilterMap(s + [x], f) == FilterMap(s, f)
  {
    assert (s + [x])[..|s|] == s;
  }

  lemma {:induction false} FilterMapConcat<A, B>(a: seq<A>, b: seq<A>, f: A -> Option<B>)
    ensures FilterMap(a + b, f) == FilterMap(a, f) + FilterMap(b, f)
  {
    if b == [] {
      assert a + b == a;
    } else {
      assert (a + b)[..|a + b| - 1] == a + b[..|b| - 1];
      FilterMapConcat(a, b[..|b| - 1], f);
    }
  }

  /** `n` lines from `lo`, numbered from one. */
  function Numbered(lines: seq<string>, lo: nat, n: nat): seq<(nat, string)>
  {
    if n == 0 then [] else Numbered(lines, lo, n - 1) + [(lo + n, At(lines, lo + n - 1))]
  }

  lemma {:induction false} NumberedJoin(lines: seq<string>, lo: nat, m: nat, n: nat)
    ensures Numbered(lines, lo, m) + Numbered(lines, lo + m, n) == Numbered(lines, lo, m + n)
  {
    if n > 0 {
      NumberedJoin(lines, lo, m, n - 1);
    }
  }

  function OldOf(r: UnifiedRow): Option<(nat, string)>
  {
    if r.Line? && (r.kind == Ctx || r.kind == Del) then Some((r.oldNo, r.html)) else None
  }

  /** The new side of a unified row, as the plain text behind its markup: context rows
      carry the old side's markup. */
  function NewOf(plain: string -> string): UnifiedRow -> Option<(nat, string)>
  {
    (r: UnifiedRow) => if r.Line? && (r.kind == Ctx || r.kind == Add) then Some((r.newNo, plain(r.html))) else None
  }

  function LeftOf(r: SideRow): Option<(nat, string)>
  {
    if r.Pair? && r.left.kind != Blank then Some((r.left.no, r.left.html)) else None
  }

  function RightOf(r: SideRow): Option<(nat, string)>
  {
    if r.Pair? && r.right.kind != Blank then Some((r.right.no, r.right.html)) else None
  }

  function Start(op: OpCode, on: Half): nat { if on == Old then op.i1 else op.j1 }
  function Span(op: OpCode, on: Half): nat { if on == Old then Minus(op.i2, op.i1) else Minus(op.j2, op.j1) }
  function GapStart(g: Gap, on: Half): nat { if on == Old then g.oldStart else g.newStart }

  function End(groups: seq<seq<OpCode>>, g: nat, on: Half): nat
    requires g <= |groups| && NonEmpty(groups)
  {
    if on == Old then OldEnd(groups, g) else NewEnd(groups, g)
  }

  /** `rows` show exactly the lines from `lo` to `hi` of one side. */
  ghost predicate Covers<R>(rows: seq<R>, f: R -> Option<(nat, string)>, lines: seq<string>, lo: nat, hi: nat)
  {
    lo <= hi && FilterMap(rows, f) == Numbered(lines, lo, hi - lo)
  }

  lemma CoversJoin<R>(a: seq<R>, b: seq<R>, f: R -> Option<(nat, string)>, lines: seq<string>, lo: nat, mid: nat, hi: nat)
    requires Covers(a, f, lines, lo, mid) && Covers(b, f, lines, mid, hi)
    ensures Covers(a + b, f, lines, lo, hi)
  {
    FilterMapConcat(a, b, f);
    NumberedJoin(lines, lo, mid - lo, hi - mid);
  }

  lemma JoinThree<R>(a: seq<R>, b: seq<R>, c: seq<R>, f: R -> Option<(nat, string)>, lines: seq<string>, lo: nat, mid: nat, hi: nat)
    requires Covers(a, f, lines, 0, lo) && Covers(b, f, lines, lo, mid) && Covers(c, f, lines, mid, hi)
    ensures Covers(a + b + c, f, lines, 0, hi)
  {
    CoversJoin(a, b, f, lines, 0, lo, mid);
    CoversJoin(a + b, c, f, lines, 0, mid, hi);
  }

  lemma CoversNext<R>(rows: seq<R>, x: R, f: R -> Option<(nat, string)>, lines: seq<string>, lo: nat, hi: nat)
    requires Covers(rows, f, lines, lo, hi) && f(x) == Some((hi + 1, At(lines, hi)))
    ensures Covers(rows + [x], f, lines, lo, hi + 1)
  {
    assert (rows + [x])[..|rows|] == rows;
  }

  lemma CoversSkip<R>(rows: seq<R>, x: R, f: R -> Option<(nat, string)>, lines: seq<string>, lo: nat, hi: nat)
    requires Covers(rows, f, lines, lo, hi) && f(x) == None
    ensures Covers(rows + [x], f, lines, lo, hi)
  {
    assert (rows + [x])[..|rows|] == rows;
  }

  lemma CoversNothing<R>(rows: seq<R>, f: R -> Option<(nat, string)>, lines: seq<string>, lo: nat, elsewhere: nat)
    requires Covers(rows, f, lines, lo, lo)
    ensures Covers(rows, f, lines, elsewhere, elsewhere)
  {
  }

  ghost predicate OpShown<R>(opRows: OpCode -> seq<R>, op: OpCode, f: R -> Option<(nat, string)>, lines: seq<string>, on: Half)
  {
    Covers(opRows(op), f, lines, Start(op, on), Start(op, on) + Span(op, on))
  }

  ghost predicate GapShown<R>(gapRows: Gap -> seq<R>, g: Gap, f: R -> Option<(nat, string)>, lines: seq<string>, on: Half)
  {
    Covers(gapRows(g), f, lines, GapStart(g, on), GapStart(g, on) + g.count)
  }

  ghost predicate OpsShown<R>(opRows: OpCode -> seq<R>, ops: seq<OpCode>, f: R -> Option<(nat, string)>, lines: seq<string>, on: Half)
  {
    forall k :: 0 <= k < |ops| ==> OpShown(opRows, ops[k], f, lines, on)
  }

  ghost predicate GroupShown<R>(opRows: OpCode -> seq<R>, gapRows: Gap -> seq<R>, groups: seq<seq<OpCode>>, g: nat, nOld: nat,
                                f: R -> Option<(nat, string)>, lines: seq<string>, on: Half)
    requires NonEmpty(groups) && g < |groups|
  {
    OpsShown(opRows, groups[g], f, lines, on) && GapShown(gapRows, GapBefore(groups, g, nOld), f, lines, on)
  }

  /** A view shows, for every opcode and gap, exactly that stretch of `lines`. */
  ghost predicate Shows<R>(opRows: OpCode -> seq<R>, gapRows: Gap -> seq<R>, groups: seq<seq<OpCode>>, nOld: nat,
                           f: R -> Option<(nat, string)>, lines: seq<string>, on: Half)
    requires NonEmpty(groups)
  {
    && (forall g :: 0 <= g < |groups| ==> GroupShown(opRows, gapRows, groups, g, nOld, f, lines, on))
    && GapShown(gapRows, GapBefore(groups, |groups|, nOld), f, lines, on)
  }

  lemma {:induction false} OpsCover<R>(opRows: OpCode -> seq<R>, ops: seq<OpCode>, nOld: nat, nNew: nat,
                                       f: R -> Option<(nat, string)>, lines: seq<string>, on: Half)
    requires ops != [] && Contiguous(ops, nOld, nNew)
    requires OpsShown(opRows, ops, f, lines, on)
    ensures var last := ops[|ops| - 1];
            Covers(OpsRows(opRows, ops), f, lines, Start(ops[0], on), Start(last, on) + Span(last, on))
  {
    var n := |ops| - 1;
    assert OpShown(opRows, ops[n], f, lines, on);
    var front := ops[..n];
    if n > 0 {
      OpsCover(opRows, front, nOld, nNew, f, lines, on);
      OpWellFormed(ops, n - 1, nOld, nNew);
      CoversJoin(OpsRows(opRows, front), opRows(ops[n]), f, lines,
                 Start(ops[0], on), Start(ops[n], on), Start(ops[n], on) + Span(ops[n], on));
    } else {
      assert OpsRows(opRows, front) == [];
      assert OpsRows(opRows, ops) == opRows(ops[n]);
    }
  }

  /** The gap before a group ends exactly where the group starts. */
  lemma GapMeets(groups: seq<seq<OpCode>>, g: nat, nOld: nat, nNew: nat, on: Half)
    requires Grouped(groups, nOld, nNew) && g <= |groups| && groups != []
    ensures var gap := GapBefore(groups, g, nOld);
            && (gap.count > 0 ==> GapStart(gap, on) == End(groups, g, on))
            && End(groups, g, on) + gap.count ==
               if g < |groups| then Start(groups[g][0], on) else if on == Old then nOld else nNew
  {
    if g < |groups| {
      assert GroupOk(groups, g, nOld, nNew);
    }
  }

  lemma GapCovers<R>(gapRows: Gap -> seq<R>, groups: seq<seq<OpCode>>, g: nat, nOld: nat, nNew: nat,
                     f: R -> Option<(nat, string)>, lines: seq<string>, on: Half)
    requires Grouped(groups, nOld, nNew) && g <= |groups| && groups != []
    requires GapShown(gapRows, GapBefore(groups, g, nOld), f, lines, on)
    ensures Covers(gapRows(GapBefore(groups, g, nOld)), f, lines, End(groups, g, on),
                   if g < |groups| then Start(groups[g][0], on) else if on == Old then nOld else nNew)
  {
    var gap := GapBefore(groups, g, nOld);
    GapMeets(groups, g, nOld, nNew, on);
    if gap.count == 0 {
      CoversNothing(gapRows(gap), f, lines, GapStart(gap, on), End(groups, g, on));
    }
  }

  lemma GroupCovers<R>(opRows: OpCode -> seq<R>, groups: seq<seq<OpCode>>, g: nat, nOld: nat, nNew: nat,
                       f: R -> Option<(nat, string)>, lines: seq<string>, on: Half)
    requires Grouped(groups, nOld, nNew) && g < |groups| && OpsShown(opRows, groups[g], f, lines, on)
    ensures Covers(OpsRows(opRows, groups[g]), f, lines, Start(groups[g][0], on), End(groups, g + 1, on))
  {
    assert GroupOk(groups, g, nOld, nNew);
    OpsCover(opRows, groups[g], nOld, nNew, f, lines, on);
    OpWellFormed(groups[g], |groups[g]| - 1, nOld, nNew);
  }

  lemma StepCovers<R>(opRows: OpCode -> seq<R>, gapRows: Gap -> seq<R>, groups: seq<seq<OpCode>>, g: nat, nOld: nat,
                      f: R -> Option<(nat, string)>, lines: seq<string>, lo: nat, mid: nat, hi: nat)
    requires NonEmpty(groups) && g < |groups|
    requires Covers(FirstGroups(opRows, gapRows, groups, g, nOld), f, lines, 0, lo)
    requires Covers(gapRows(GapBefore(groups, g, nOld)), f, lines, lo, mid)
    requires Covers(OpsRows(opRows, groups[g]), f, lines, mid, hi)
    ensures Covers(FirstGroups(opRows, gapRows, groups, g + 1, nOld), f, lines, 0, hi)
  {
    JoinThree(FirstGroups(opRows, gapRows, groups, g, nOld), gapRows(GapBefore(groups, g, nOld)),
              OpsRows(opRows, groups[g]), f, lines, lo, mid, hi);
  }

  lemma ShownStep<R>(opRows: OpCode -> seq<R>, gapRows: Gap -> seq<R>, groups: seq<seq<OpCode>>, g: nat,
                     nOld: nat, nNew: nat, f: R -> Option<(nat, string)>, lines: seq<string>, on: Half)
    requires Grouped(groups, nOld, nNew) && g < |groups|
    requires GroupShown(opRows, gapRows, groups, g, nOld, f, lines, on)
    requires Covers(FirstGroups(opRows, gapRows, groups, g, nOld), f, lines, 0, End(groups, g, on))
    ensures Covers(FirstGroups(opRows, gapRows, groups, g + 1, nOld), f, lines, 0, End(groups, g + 1, on))
  {
    GapCovers(gapRows, groups, g, nOld, nNew, f, lines, on);
    GroupCovers(opRows, groups, g, nOld, nNew, f, lines, on);
    StepCovers(opRows, gapRows, groups, g, nOld, f, lines,
               End(groups, g, on), Start(groups[g][0], on), End(groups, g + 1, on));
  }

  lemma GroupsCover<R>(opRows: OpCode -> seq<R>, gapRows: Gap -> seq<R>, groups: seq<seq<OpCode>>,
                       nOld: nat, nNew: nat, f: R -> Option<(nat, string)>, lines: seq<string>, on: Half)
    requires Grouped(groups, nOld, nNew) && Shows(opRows, gapRows, groups, nOld, f, lines, on)
    ensures Covers(FirstGroups(opRows, gapRows, groups, |groups|, nOld), f, lines, 0, End(groups, |groups|, on))
  {
    for g := 0 to |groups|
      invariant Covers(FirstGroups(opRows, gapRows, groups, g, nOld), f, lines, 0, End(groups, g, on))
    {
      ShownStep(opRows, gapRows, groups, g, nOld, nNew, f, lines, on);
    }
  }

  lemma ViewCovers<R>(opRows: OpCode -> seq<R>, gapRows: Gap -> seq<R>, groups: seq<seq<OpCode>>,
                      nOld: nat, nNew: nat, f: R -> Option<(nat, string)>, lines: seq<string>, on: Half)
    requires Grouped(groups, nOld, nNew) && groups != []
    requires Shows(opRows, gapRows, groups, nOld, f, lines, on)
    ensures Covers(Assemble(opRows, gapRows, groups, nOld), f, lines, 0, if on == Old then nOld else nNew)
  {
    var n := |groups|;
    GroupsCover(opRows, gapRows, groups, nOld, nNew, f, lines, on);
    GapCovers(gapRows, groups, n, nOld, nNew, f, lines, on);
    CoversJoin(FirstGroups(opRows, gapRows, groups, n, nOld), gapRows(GapBefore(groups, n, nOld)), f, lines,
               0, End(groups, n, on), if on == Old then nOld else nNew);
  }

  // ---- both views are lossless ----

  /** `n` lines agree, from `i` on the old side and `j` on the new. */
  predicate EqualRun(a: seq<string>, b: seq<string>, i: nat, j: nat, n: nat)
  {
    n == 0 || (EqualRun(a, b, i, j, n - 1) && At(a, i + n - 1) == At(b, j + n - 1))
  }

  ghost predicate OpAligned(a: seq<string>, b: seq<string>, op: OpCode)
  {
    op.tag == Equal ==> EqualRun(a, b, op.i1, op.j1, Minus(op.i2, op.i1))
  }

  ghost predicate GapAligned(a: seq<string>, b: seq<string>, g: Gap)
  {
    EqualRun(a, b, g.oldStart, g.newStart, g.count)
  }

  ghost predicate GroupAligned(a: seq<string>, b: seq<string>, groups: seq<seq<OpCode>>, g: nat)
    requires NonEmpty(groups) && g < |groups|
  {
    (forall k :: 0 <= k < |groups[g]| ==> OpAligned(a, b, groups[g][k])) && GapAligned(a, b, GapBefore(groups, g, |a|))
  }

  /** Equal opcodes and trimmed runs really are equal lines. */
  ghost predicate Aligned(a: seq<string>, b: seq<string>, groups: seq<seq<OpCode>>)
    requires NonEmpty(groups)
  {
    && (forall g :: 0 <= g < |groups| ==> GroupAligned(a, b, groups, g))
    && GapAligned(a, b, GapBefore(groups, |groups|, |a|))
  }

  /** `html` is the markup of `lines`. */
  ghost predicate Renders(plain: string -> string, html: seq<string>, lines: seq<string>)
  {
    |html| == |lines| && forall i :: 0 <= i < |lines| ==> plain(html[i]) == lines[i]
  }

  lemma {:induction false} CtxRowsShowOld(folded: Option<nat>, ah: seq<string>, i: nat, j: nat, n: nat)
    ensures Covers(CtxRows(folded, ah, i, j, n), OldOf, ah, i, i + n)
  {
    if n > 0 {
      CtxRowsShowOld(folded, ah, i, j, n - 1);
      CoversNext(CtxRows(folded, ah, i, j, n - 1), Line(folded, Ctx, i + n, j + n, At(ah, i + n - 1)), OldOf, ah, i, i + n - 1);
    }
  }

  lemma {:induction false} CtxRowsShowNew(folded: Option<nat>, plain: string -> string, ah: seq<string>, a: seq<string>,
                                          b: seq<string>, i: nat, j: nat, n: nat)
    requires Renders(plain, ah, a) && i + n <= |a| && EqualRun(a, b, i, j, n)
    ensures Covers(CtxRows(folded, ah, i, j, n), NewOf(plain), b, j, j + n)
  {
    if n > 0 {
      CtxRowsShowNew(folded, plain, ah, a, b, i, j, n - 1);
      var html := At(ah, i + n - 1);
      assert plain(html) == At(a, i + n - 1);
      CoversNext(CtxRows(folded, ah, i, j, n - 1), Line(folded, Ctx, i + n, j + n, html), NewOf(plain), b, j, j + n - 1);
    }
  }

  lemma {:induction false} DelRowsShowOld(ah: seq<string>, i: nat, n: nat)
    ensures Covers(DelRows(ah, i, n), OldOf, ah, i, i + n)
  {
    if n > 0 {
      DelRowsShowOld(ah, i, n - 1);
      CoversNext(DelRows(ah, i, n - 1), Line(None, Del, i + n, 0, At(ah, i + n - 1)), OldOf, ah, i, i + n - 1);
    }
  }

  lemma {:induction false} DelRowsHideNew(plain: string -> string, ah: seq<string>, i: nat, b: seq<string>, j: nat, n: nat)
    ensures Covers(DelRows(ah, i, n), NewOf(plain), b, j, j)
  {
    if n > 0 {
      DelRowsHideNew(plain, ah, i, b, j, n - 1);
      CoversSkip(DelRows(ah, i, n - 1), Line(None, Del, i + n, 0, At(ah, i + n - 1)), NewOf(plain), b, j, j);
    }
  }

  lemma {:induction false} AddRowsHideOld(bh: seq<string>, j: nat, ah: seq<string>, i: nat, n: nat)
    ensures Covers(AddRows(bh, j, n), OldOf, ah, i, i)
  {
    if n > 0 {
      AddRowsHideOld(bh, j, ah, i, n - 1);
      CoversSkip(AddRows(bh, j, n - 1), Line(None, Add, 0, j + n, At(bh, j + n - 1)), OldOf, ah, i, i);
    }
  }

  lemma {:induction false} AddRowsShowNew(plain: string -> string, bh: seq<string>, b: seq<string>, j: nat, n: nat)
    requires Renders(plain, bh, b) && j + n <= |b|
    ensures Covers(AddRows(bh, j, n), NewOf(plain), b, j, j + n)
  {
    if n > 0 {
      AddRowsShowNew(plain, bh, b, j, n - 1);
      var html := At(bh, j + n - 1);
      assert plain(html) == At(b, j + n - 1);
      CoversNext(AddRows(bh, j, n - 1), Line(None, Add, 0, j + n, html), NewOf(plain), b, j, j + n - 1);
    }
  }

  lemma {:induction false} CtxPairsShowLeft(folded: Option<nat>, ah: seq<string>, bh: seq<string>, i: nat, j: nat, n: nat)
    ensures Covers(CtxPairs(folded, ah, bh, i, j, n), LeftOf, ah, i, i + n)
  {
    if n > 0 {
      CtxPairsShowLeft(folded, ah, bh, i, j, n - 1);
      var pair := Pair(folded, Cell(Ctx, i + n, At(ah, i + n - 1)), Cell(Ctx, j + n, At(bh, j + n - 1)));
      CoversNext(CtxPairs(folded, ah, bh, i, j, n - 1), pair, LeftOf, ah, i, i + n - 1);
    }
  }

  lemma {:induction false} CtxPairsShowRight(folded: Option<nat>, ah: seq<string>, bh: seq<string>, i: nat, j: nat, n: nat)
    ensures Covers(CtxPairs(folded, ah, bh, i, j, n), RightOf, bh, j, j + n)
  {
    if n > 0 {
      CtxPairsShowRight(folded, ah, bh, i, j, n - 1);
      var pair := Pair(folded, Cell(Ctx, i + n, At(ah, i + n - 1)), Cell(Ctx, j + n, At(bh, j + n - 1)));
      CoversNext(CtxPairs(folded, ah, bh, i, j, n - 1), pair, RightOf, bh, j, j + n - 1);
    }
  }

  function ChangePair(ah: seq<string>, bh: seq<string>, i: nat, dn: nat, j: nat, an: nat, n: nat): SideRow
    requires n > 0
  {
    Pair(None, if n <= dn then Cell(Del, i + n, At(ah, i + n - 1)) else BLANK,
         if n <= an then Cell(Add, j + n, At(bh, j + n - 1)) else BLANK)
  }

  function Min(m: nat, n: nat): nat
  {
    if m < n then m else n
  }

  lemma {:induction false} ChangePairsShowLeft(ah: seq<string>, bh: seq<string>, i: nat, dn: nat, j: nat, an: nat, n: nat)
    ensures Covers(ChangePairs(ah, bh, i, dn, j, an, n), LeftOf, ah, i, i + Min(n, dn))
  {
    if n > 0 {
      ChangePairsShowLeft(ah, bh, i, dn, j, an, n - 1);
      var before, pair := ChangePairs(ah, bh, i, dn, j, an, n - 1), ChangePair(ah, bh, i, dn, j, an, n);
      if n <= dn {
        CoversNext(before, pair, LeftOf, ah, i, i + n - 1);
      } else {
        CoversSkip(before, pair, LeftOf, ah, i, i + dn);
      }
    }
  }

  lemma {:induction false} ChangePairsShowRight(ah: seq<string>, bh: seq<string>, i: nat, dn: nat, j: nat, an: nat, n: nat)
    ensures Covers(ChangePairs(ah, bh, i, dn, j, an, n), RightOf, bh, j, j + Min(n, an))
  {
    if n > 0 {
      ChangePairsShowRight(ah, bh, i, dn, j, an, n - 1);
      var before, pair := ChangePairs(ah, bh, i, dn, j, an, n - 1), ChangePair(ah, bh, i, dn, j, an, n);
      if n <= an {
        CoversNext(before, pair, RightOf, bh, j, j + n - 1);
      } else {
        CoversSkip(before, pair, RightOf, bh, j, j + an);
      }
    }
  }

  lemma ReplaceShowsOld(ah: seq<string>, bh: seq<string>, i: nat, dn: nat, j: nat, an: nat)
    ensures Covers(DelRows(ah, i, dn) + AddRows(bh, j, an), OldOf, ah, i, i + dn)
  {
    DelRowsShowOld(ah, i, dn);
    AddRowsHideOld(bh, j, ah, i + dn, an);
    CoversJoin(DelRows(ah, i, dn), AddRows(bh, j, an), OldOf, ah, i, i + dn, i + dn);
  }

  lemma ReplaceShowsNew(plain: string -> string, ah: seq<string>, bh: seq<string>, b: seq<string>, i: nat, dn: nat, j: nat, an: nat)
    requires Renders(plain, bh, b) && j + an <= |b|
    ensures Covers(DelRows(ah, i, dn) + AddRows(bh, j, an), NewOf(plain), b, j, j + an)
  {
    DelRowsHideNew(plain, ah, i, b, j, dn);
    AddRowsShowNew(plain, bh, b, j, an);
    CoversJoin(DelRows(ah, i, dn), AddRows(bh, j, an), NewOf(plain), b, j, j, j + an);
  }

  lemma UnifiedOpOld(ah: seq<string>, bh: seq<string>, op: OpCode)
    requires WellFormedOp(op, |ah|, |bh|)
    ensures Covers(UnifiedOp(ah, bh, op), OldOf, ah, op.i1, op.i2)
  {
    var dn, an := op.i2 - op.i1, op.j2 - op.j1;
    match op.tag
    case Equal => CtxRowsShowOld(None, ah, op.i1, op.j1, dn);
    case Delete => DelRowsShowOld(ah, op.i1, dn);
    case Insert => AddRowsHideOld(bh, op.j1, ah, op.i1, an);
    case Replace => ReplaceShowsOld(ah, bh, op.i1, dn, op.j1, an);
  }

  lemma UnifiedOpNew(plain: string -> string, ah: seq<string>, bh: seq<string>, a: seq<string>, b: seq<string>, op: OpCode)
    requires Renders(plain, ah, a) && Renders(plain, bh, b) && WellFormedOp(op, |a|, |b|) && OpAligned(a, b, op)
    ensures Covers(UnifiedOp(ah, bh, op), NewOf(plain), b, op.j1, op.j2)
  {
    var dn, an := op.i2 - op.i1, op.j2 - op.j1;
    match op.tag
    case Equal => CtxRowsShowNew(None, plain, ah, a, b, op.i1, op.j1, dn);
    case Delete => DelRowsHideNew(plain, ah, op.i1, b, op.j1, dn);
    case Insert => AddRowsShowNew(plain, bh, b, op.j1, an);
    case Replace => ReplaceShowsNew(plain, ah, bh, b, op.i1, dn, op.j1, an);
  }

  lemma UnifiedOpShows(plain: string -> string, ah: seq<string>, bh: seq<string>, a: seq<string>, b: seq<string>, op: OpCode)
    requires Renders(plain, ah, a) && Renders(plain, bh, b) && WellFormedOp(op, |a|, |b|) && OpAligned(a, b, op)
    ensures OpShown(UnifiedOps(ah, bh), op, OldOf, ah, Old)
    ensures OpShown(UnifiedOps(ah, bh), op, NewOf(plain), b, New)
  {
    UnifiedOpOld(ah, bh, op);
    UnifiedOpNew(plain, ah, bh, a, b, op);
  }

  lemma UnifiedGapShows(plain: string -> string, ah: seq<string>, a: seq<string>, b: seq<string>, g: Gap)
    requires Renders(plain, ah, a) && g.oldStart + g.count <= |a| && GapAligned(a, b, g)
    ensures GapShown(UnifiedGaps(ah), g, OldOf, ah, Old)
    ensures GapShown(UnifiedGaps(ah), g, NewOf(plain), b, New)
  {
    if g.count > 0 {
      var rows := CtxRows(Some(g.id), ah, g.oldStart, g.newStart, g.count);
      CtxRowsShowOld(Some(g.id), ah, g.oldStart, g.newStart, g.count);
      CtxRowsShowNew(Some(g.id), plain, ah, a, b, g.oldStart, g.newStart, g.count);
      FilterMapConcat([Expander(g.id, g.count)], rows, OldOf);
      FilterMapConcat([Expander(g.id, g.count)], rows, NewOf(plain));
    }
  }

  lemma SideOpLeft(ah: seq<string>, bh: seq<string>, op: OpCode)
    requires WellFormedOp(op, |ah|, |bh|)
    ensures Covers(SideOp(ah, bh, op), LeftOf, ah, op.i1, op.i2)
  {
    var dn, an := op.i2 - op.i1, op.j2 - op.j1;
    match op.tag
    case Equal => CtxPairsShowLeft(None, ah, bh, op.i1, op.j1, dn);
    case Delete => ChangePairsShowLeft(ah, bh, op.i1, dn, op.j1, 0, dn);
    case Insert => ChangePairsShowLeft(ah, bh, op.i1, 0, op.j1, an, an);
    case Replace => ChangePairsShowLeft(ah, bh, op.i1, dn, op.j1, an, if dn > an then dn else an);
  }

  lemma SideOpRight(ah: seq<string>, bh: seq<string>, op: OpCode)
    requires WellFormedOp(op, |ah|, |bh|)
    ensures Covers(SideOp(ah, bh, op), RightOf, bh, op.j1, op.j2)
  {
    var dn, an := op.i2 - op.i1, op.j2 - op.j1;
    match op.tag
    case Equal => CtxPairsShowRight(None, ah, bh, op.i1, op.j1, dn);
    case Delete => ChangePairsShowRight(ah, bh, op.i1, dn, op.j1, 0, dn);
    case Insert => ChangePairsShowRight(ah, bh, op.i1, 0, op.j1, an, an);
    case Replace => ChangePairsShowRight(ah, bh, op.i1, dn, op.j1, an, if dn > an then dn else an);
  }

  lemma SideOpShows(ah: seq<string>, bh: seq<string>, op: OpCode)
    requires WellFormedOp(op, |ah|, |bh|)
    ensures OpShown(SideOps(ah, bh), op, LeftOf, ah, Old)
    ensures OpShown(SideOps(ah, bh), op, RightOf, bh, New)
  {
    SideOpLeft(ah, bh, op);
    SideOpRight(ah, bh, op);
  }

  lemma SideGapShows(ah: seq<string>, bh: seq<string>, g: Gap)
    ensures GapShown(SideGaps(ah, bh), g, LeftOf, ah, Old)
    ensures GapShown(SideGaps(ah, bh), g, RightOf, bh, New)
  {
    if g.count > 0 {
      var rows := CtxPairs(Some(g.id), ah, bh, g.oldStart, g.newStart, g.count);
      CtxPairsShowLeft(Some(g.id), ah, bh, g.oldStart, g.newStart, g.count);
      CtxPairsShowRight(Some(g.id), ah, bh, g.oldStart, g.newStart, g.count);
      FilterMapConcat([Divider(g.id, g.count)], rows, LeftOf);
      FilterMapConcat([Divider(g.id, g.count)], rows, RightOf);
    }
  }

  lemma UnifiedGroupShows(plain: string -> string, ah: seq<string>, bh: seq<string>, a: seq<string>, b: seq<string>,
                          groups: seq<seq<OpCode>>, g: nat)
    requires Renders(plain, ah, a) && Renders(plain, bh, b)
    requires Grouped(groups, |a|, |b|) && g < |groups| && GroupAligned(a, b, groups, g)
    ensures GroupShown(UnifiedOps(ah, bh), UnifiedGaps(ah), groups, g, |ah|, OldOf, ah, Old)
    ensures GroupShown(UnifiedOps(ah, bh), UnifiedGaps(ah), groups, g, |ah|, NewOf(plain), b, New)
  {
    assert GroupOk(groups, g, |a|, |b|);
    forall k | 0 <= k < |groups[g]|
      ensures OpShown(UnifiedOps(ah, bh), groups[g][k], OldOf, ah, Old)
      ensures OpShown(UnifiedOps(ah, bh), groups[g][k], NewOf(plain), b, New)
    {
      OpWellFormed(groups[g], k, |a|, |b|);
      assert OpAligned(a, b, groups[g][k]);
      UnifiedOpShows(plain, ah, bh, a, b, groups[g][k]);
    }
    GapInRange(groups, g, |a|, |b|);
    UnifiedGapShows(plain, ah, a, b, GapBefore(groups, g, |a|));
  }

  lemma SideGroupShows(ah: seq<string>, bh: seq<string>, groups: seq<seq<OpCode>>, g: nat)
    requires Grouped(groups, |ah|, |bh|) && g < |groups|
    ensures GroupShown(SideOps(ah, bh), SideGaps(ah, bh), groups, g, |ah|, LeftOf, ah, Old)
    ensures GroupShown(SideOps(ah, bh), SideGaps(ah, bh), groups, g, |ah|, RightOf, bh, New)
  {
    assert GroupOk(groups, g, |ah|, |bh|);
    forall k | 0 <= k < |groups[g]|
      ensures OpShown(SideOps(ah, bh), groups[g][k], LeftOf, ah, Old)
      ensures OpShown(SideOps(ah, bh), groups[g][k], RightOf, bh, New)
    {
      OpWellFormed(groups[g], k, |ah|, |bh|);
      SideOpShows(ah, bh, groups[g][k]);
    }
    SideGapShows(ah, bh, GapBefore(groups, g, |ah|));
  }

  /** With at least one hunk, the unified view's old side is the old file, numbered
      from one, and its new side the new file, folded lines included. */
  lemma UnifiedIsLossless(plain: string -> string, ah: seq<string>, bh: seq<string>, a: seq<string>, b: seq<string>,
                          groups: seq<seq<OpCode>>)
    requires Renders(plain, ah, a) && Renders(plain, bh, b)
    requires Grouped(groups, |a|, |b|) && Aligned(a, b, groups) && groups != []
    ensures FilterMap(Unified(ah, bh, groups), OldOf) == Numbered(ah, 0, |ah|)
    ensures FilterMap(Unified(ah, bh, groups), NewOf(plain)) == Numbered(b, 0, |b|)
  {
    forall g | 0 <= g < |groups|
      ensures GroupShown(UnifiedOps(ah, bh), UnifiedGaps(ah), groups, g, |ah|, OldOf, ah, Old)
      ensures GroupShown(UnifiedOps(ah, bh), UnifiedGaps(ah), groups, g, |ah|, NewOf(plain), b, New)
    {
      assert GroupAligned(a, b, groups, g);
      UnifiedGroupShows(plain, ah, bh, a, b, groups, g);
    }
    GapInRange(groups, |groups|, |a|, |b|);
    UnifiedGapShows(plain, ah, a, b, GapBefore(groups, |groups|, |a|));
    ViewCovers(UnifiedOps(ah, bh), UnifiedGaps(ah), groups, |a|, |b|, OldOf, ah, Old);
    ViewCovers(UnifiedOps(ah, bh), UnifiedGaps(ah), groups, |a|, |b|, NewOf(plain), b, New);
  }

  /** Likewise the two columns of the side-by-side view, markup and all. */
  lemma SideIsLossless(ah: seq<string>, bh: seq<string>, groups: seq<seq<OpCode>>)
    requires Grouped(groups, |ah|, |bh|) && groups != []
    ensures FilterMap(Side(ah, bh, groups), LeftOf) == Numbered(ah, 0, |ah|)
    ensures FilterMap(Side(ah, bh, groups), RightOf) == Numbered(bh, 0, |bh|)
  {
    forall g | 0 <= g < |groups|
      ensures GroupShown(SideOps(ah, bh), SideGaps(ah, bh), groups, g, |ah|, LeftOf, ah, Old)
      ensures GroupShown(SideOps(ah, bh), SideGaps(ah, bh), groups, g, |ah|, RightOf, bh, New)
    {
      SideGroupShows(ah, bh, groups, g);
    }
    SideGapShows(ah, bh, GapBefore(groups, |groups|, |ah|));
    ViewCovers(SideOps(ah, bh), SideGaps(ah, bh), groups, |ah|, |bh|, LeftOf, ah, Old);
    ViewCovers(SideOps(ah, bh), SideGaps(ah, bh), groups, |ah|, |bh|, RightOf, bh, New);
  }

  /** Without a hunk both views are empty, so then they are lossless only for empty files. */
  lemma NoHunksNoRows(ah: seq<string>, bh: seq<string>)
    ensures Unified(ah, bh, []) == [] && Side(ah, bh, []) == []
  {
  }

  // ---- folds and counts ----

  /** An expander as (id, count), a folded line as (id, 0). */
  function UnifiedFoldMark(r: UnifiedRow): Option<(nat, nat)>
  {
    match r
    case Expander(id, count) => Some((id, count))
    case Line(folded, _, _, _, _) => if folded.Some? then Some((folded.value, 0)) else None
  }

  function SideFoldMark(r: SideRow): Option<(nat, nat)>
  {
    match r
    case Divider(id, count) => Some((id, count))
    case Pair(folded, _, _) => if folded.Some? then Some((folded.value, 0)) else None
  }

  function Marks(folded: Option<nat>, n: nat): seq<(nat, nat)>
  {
    if n == 0 || folded.None? then [] else Marks(folded, n - 1) + [(folded.value, 0)]
  }

  /** A trimmed run is announced by its length and followed by that many lines. */
  function GapMarks(gap: Gap): seq<(nat, nat)>
  {
    if gap.count == 0 then [] else [(gap.id, gap.count)] + Marks(Some(gap.id), gap.count)
  }

  lemma {:induction false} CtxRowsMarked(folded: Option<nat>, ah: seq<string>, i: nat, j: nat, n: nat)
    ensures FilterMap(CtxRows(folded, ah, i, j, n), UnifiedFoldMark) == Marks(folded, n)
  {
    if n > 0 {
      CtxRowsMarked(folded, ah, i, j, n - 1);
      var row := Line(folded, Ctx, i + n, j + n, At(ah, i + n - 1));
      if folded.Some? {
        FilterMapKeeps(CtxRows(folded, ah, i, j, n - 1), row, UnifiedFoldMark, (folded.value, 0));
      } else {
        FilterMapSkips(CtxRows(folded, ah, i, j, n - 1), row, UnifiedFoldMark);
      }
    }
  }

  lemma {:induction false} CtxPairsMarked(folded: Option<nat>, ah: seq<string>, bh: seq<string>, i: nat, j: nat, n: nat)
    ensures FilterMap(CtxPairs(folded, ah, bh, i, j, n), SideFoldMark) == Marks(folded, n)
  {
    if n > 0 {
      CtxPairsMarked(folded, ah, bh, i, j, n - 1);
      var last := Pair(folded, Cell(Ctx, i + n, At(ah, i + n - 1)), Cell(Ctx, j + n, At(bh, j + n - 1)));
      if folded.Some? {
        FilterMapKeeps(CtxPairs(folded, ah, bh, i, j, n - 1), last, SideFoldMark, (folded.value, 0));
      } else {
        FilterMapSkips(CtxPairs(folded, ah, bh, i, j, n - 1), last, SideFoldMark);
      }
    }
  }

  lemma {:induction false} DelRowsUnmarked(ah: seq<string>, i: nat, n: nat)
    ensures FilterMap(DelRows(ah, i, n), UnifiedFoldMark) == []
  {
    if n > 0 {
      DelRowsUnmarked(ah, i, n - 1);
      FilterMapSkips(DelRows(ah, i, n - 1), Line(None, Del, i + n, 0, At(ah, i + n - 1)), UnifiedFoldMark);
    }
  }

  lemma {:induction false} AddRowsUnmarked(bh: seq<string>, j: nat, n: nat)
    ensures FilterMap(AddRows(bh, j, n), UnifiedFoldMark) == []
  {
    if n > 0 {
      AddRowsUnmarked(bh, j, n - 1);
      FilterMapSkips(AddRows(bh, j, n - 1), Line(None, Add, 0, j + n, At(bh, j + n - 1)), UnifiedFoldMark);
    }
  }

  lemma {:induction false} ChangesUnmarked(ah: seq<string>, bh: seq<string>, i: nat, dn: nat, j: nat, an: nat, n: nat)
    ensures FilterMap(ChangePairs(ah, bh, i, dn, j, an, n), SideFoldMark) == []
  {
    if n > 0 {
      ChangesUnmarked(ah, bh, i, dn, j, an, n - 1);
    }
  }

  lemma OpUnmarked(ah: seq<string>, bh: seq<string>, op: OpCode)
    ensures FilterMap(UnifiedOps(ah, bh)(op), UnifiedFoldMark) == []
    ensures FilterMap(SideOps(ah, bh)(op), SideFoldMark) == []
  {
    var dn, an := Minus(op.i2, op.i1), Minus(op.j2, op.j1);
    CtxRowsMarked(None, ah, op.i1, op.j1, dn);
    CtxPairsMarked(None, ah, bh, op.i1, op.j1, dn);
    DelRowsUnmarked(ah, op.i1, dn);
    AddRowsUnmarked(bh, op.j1, an);
    FilterMapConcat(DelRows(ah, op.i1, dn), AddRows(bh, op.j1, an), UnifiedFoldMark);
    match op.tag
    case Equal =>
    case Delete => ChangesUnmarked(ah, bh, op.i1, dn, op.j1, 0, dn);
    case Insert => ChangesUnmarked(ah, bh, op.i1, 0, op.j1, an, an);
    case Replace => ChangesUnmarked(ah, bh, op.i1, dn, op.j1, an, if dn > an then dn else an);
  }

  lemma GapMarked(ah: seq<string>, bh: seq<string>, g: Gap)
    ensures FilterMap(UnifiedGaps(ah)(g), UnifiedFoldMark) == GapMarks(g)
    ensures FilterMap(SideGaps(ah, bh)(g), SideFoldMark) == GapMarks(g)
  {
    if g.count > 0 {
      CtxRowsMarked(Some(g.id), ah, g.oldStart, g.newStart, g.count);
      CtxPairsMarked(Some(g.id), ah, bh, g.oldStart, g.newStart, g.count);
      FilterMapConcat([Expander(g.id, g.count)], CtxRows(Some(g.id), ah, g.oldStart, g.newStart, g.count), UnifiedFoldMark);
      FilterMapConcat([Divider(g.id, g.count)], CtxPairs(Some(g.id), ah, bh, g.oldStart, g.newStart, g.count), SideFoldMark);
    }
  }

  /** What `f` reads from the rows of each opcode and of each gap. */
  ghost predicate Reads<R(!new), V(!new)>(opRows: OpCode -> seq<R>, gapRows: Gap -> seq<R>, f: R -> Option<V>,
                                          opReads: OpCode -> seq<V>, gapReads: Gap -> seq<V>)
  {
    && (forall op {:trigger opRows(op)} :: FilterMap(opRows(op), f) == opReads(op))
    && (forall gap {:trigger gapRows(gap)} :: FilterMap(gapRows(gap), f) == gapReads(gap))
  }

  lemma {:induction false} OpsRead<R(!new), V(!new)>(opRows: OpCode -> seq<R>, gapRows: Gap -> seq<R>, f: R -> Option<V>,
                                                     opReads: OpCode -> seq<V>, gapReads: Gap -> seq<V>, ops: seq<OpCode>)
    requires Reads(opRows, gapRows, f, opReads, gapReads)
    ensures FilterMap(OpsRows(opRows, ops), f) == OpsRows(opReads, ops)
    decreases |ops|
  {
    if ops != [] {
      OpsRead(opRows, gapRows, f, opReads, gapReads, ops[..|ops| - 1]);
      FilterMapConcat(OpsRows(opRows, ops[..|ops| - 1]), opRows(ops[|ops| - 1]), f);
    }
  }

  /** Group `g` adds its leading gap and its opcodes to what is read, and nothing else. */
  ghost predicate GroupReads<R, V>(opRows: OpCode -> seq<R>, gapRows: Gap -> seq<R>, f: R -> Option<V>,
                                   opReads: OpCode -> seq<V>, gapReads: Gap -> seq<V>,
                                   groups: seq<seq<OpCode>>, g: nat, nOld: nat)
    requires g < |groups| && NonEmpty(groups)
  {
    FilterMap(FirstGroups(opRows, gapRows, groups, g + 1, nOld), f) ==
    FilterMap(FirstGroups(opRows, gapRows, groups, g, nOld), f) + gapReads(GapBefore(groups, g, nOld)) + OpsRows(opReads, groups[g])
  }

  lemma GroupRead<R(!new), V(!new)>(opRows: OpCode -> seq<R>, gapRows: Gap -> seq<R>, f: R -> Option<V>,
                                    opReads: OpCode -> seq<V>, gapReads: Gap -> seq<V>,
                                    groups: seq<seq<OpCode>>, g: nat, nOld: nat)
    requires g < |groups| && NonEmpty(groups) && Reads(opRows, gapRows, f, opReads, gapReads)
    ensures GroupReads(opRows, gapRows, f, opReads, gapReads, groups, g, nOld)
  {
    var before, gap := FirstGroups(opRows, gapRows, groups, g, nOld), gapRows(GapBefore(groups, g, nOld));
    OpsRead(opRows, gapRows, f, opReads, gapReads, groups[g]);
    FilterMapConcat(before, gap, f);
    FilterMapConcat(before + gap, OpsRows(opRows, groups[g]), f);
  }

  ghost predicate ReadUpTo<R, V>(opRows: OpCode -> seq<R>, gapRows: Gap -> seq<R>, f: R -> Option<V>,
                                 opReads: OpCode -> seq<V>, gapReads: Gap -> seq<V>,
                                 groups: seq<seq<OpCode>>, g: nat, nOld: nat)
    requires g <= |groups| && NonEmpty(groups)
  {
    FilterMap(FirstGroups(opRows, gapRows, groups, g, nOld), f) == FirstGroups(opReads, gapReads, groups, g, nOld)
  }

  lemma ReadStart<R, V>(opRows: OpCode -> seq<R>, gapRows: Gap -> seq<R>, f: R -> Option<V>,
                        opReads: OpCode -> seq<V>, gapReads: Gap -> seq<V>, groups: seq<seq<OpCode>>, nOld: nat)
    requires NonEmpty(groups)
    ensures ReadUpTo(opRows, gapRows, f, opReads, gapReads, groups, 0, nOld)
  {
  }

  lemma ReadStep<R, V>(opRows: OpCode -> seq<R>, gapRows: Gap -> seq<R>, f: R -> Option<V>,
                       opReads: OpCode -> seq<V>, gapReads: Gap -> seq<V>, groups: seq<seq<OpCode>>, g: nat, nOld: nat)
    requires g < |groups| && NonEmpty(groups)
    requires GroupReads(opRows, gapRows, f, opReads, gapReads, groups, g, nOld)
    requires ReadUpTo(opRows, gapRows, f, opReads, gapReads, groups, g, nOld)
    ensures ReadUpTo(opRows, gapRows, f, opReads, gapReads, groups, g + 1, nOld)
  {
  }

  lemma GroupsRead<R(!new), V(!new)>(opRows: OpCode -> seq<R>, gapRows: Gap -> seq<R>, f: R -> Option<V>,
                                     opReads: OpCode -> seq<V>, gapReads: Gap -> seq<V>,
                                     groups: seq<seq<OpCode>>, nOld: nat)
    requires NonEmpty(groups) && Reads(opRows, gapRows, f, opReads, gapReads)
    ensures ReadUpTo(opRows, gapRows, f, opReads, gapReads, groups, |groups|, nOld)
  {
    ReadStart(opRows, gapRows, f, opReads, gapReads, groups, nOld);
    for g := 0 to |groups|
      invariant ReadUpTo(opRows, gapRows, f, opReads, gapReads, groups, g, nOld)
    {
      GroupRead(opRows, gapRows, f, opReads, gapReads, groups, g, nOld);
      ReadStep(opRows, gapRows, f, opReads, gapReads, groups, g, nOld);
    }
  }

  /** Reading a whole view is reading its gaps and opcodes in order. */
  lemma ViewReads<R(!new), V(!new)>(opRows: OpCode -> seq<R>, gapRows: Gap -> seq<R>, f: R -> Option<V>,
                                    opReads: OpCode -> seq<V>, gapReads: Gap -> seq<V>,
                                    groups: seq<seq<OpCode>>, nOld: nat)
    requires NonEmpty(groups) && Reads(opRows, gapRows, f, opReads, gapReads)
    ensures FilterMap(Assemble(opRows, gapRows, groups, nOld), f) == Assemble(opReads, gapReads, groups, nOld)
  {
    var n := |groups|;
    GroupsRead(opRows, gapRows, f, opReads, gapReads, groups, nOld);
    FilterMapConcat(FirstGroups(opRows, gapRows, groups, n, nOld), gapRows(GapBefore(groups, n, nOld)), f);
  }

  /** Both views fold the same runs, under the same ids and with the same counts, so
      one expand reveals a run in each. */
  lemma ViewsFoldAlike(ah: seq<string>, bh: seq<string>, groups: seq<seq<OpCode>>)
    requires NonEmpty(groups)
    ensures FilterMap(Unified(ah, bh, groups), UnifiedFoldMark) == FilterMap(Side(ah, bh, groups), SideFoldMark)
  {
    forall op
      ensures FilterMap(UnifiedOps(ah, bh)(op), UnifiedFoldMark) == [] && FilterMap(SideOps(ah, bh)(op), SideFoldMark) == []
    {
      OpUnmarked(ah, bh, op);
    }
    forall gap
      ensures FilterMap(UnifiedGaps(ah)(gap), UnifiedFoldMark) == GapMarks(gap)
      ensures FilterMap(SideGaps(ah, bh)(gap), SideFoldMark) == GapMarks(gap)
    {
      GapMarked(ah, bh, gap);
    }
    ViewReads(UnifiedOps(ah, bh), UnifiedGaps(ah), UnifiedFoldMark, NoMarks, GapMarks, groups, |ah|);
    ViewReads(SideOps(ah, bh), SideGaps(ah, bh), SideFoldMark, NoMarks, GapMarks, groups, |ah|);
  }

  function NoMarks(op: OpCode): seq<(nat, nat)> { [] }

  function CountKind(rows: seq<UnifiedRow>, kind: Kind): nat
  {
    if rows == [] then 0
    else
      var r := rows[|rows| - 1];
      CountKind(rows[..|rows| - 1], kind) + if r.Line? && r.kind == kind then 1 else 0
  }

  /** The tally buildResource makes over the unified rows. */
  method CountChanges(rows: seq<UnifiedRow>) returns (add: nat, del: nat)
    ensures add == CountKind(rows, Add) && del == CountKind(rows, Del)
  {
    add, del := 0, 0;
    for i := 0 to |rows|
      invariant add == CountKind(rows[..i], Add) && del == CountKind(rows[..i], Del)
    {
      assert rows[..i + 1][..i] == rows[..i];
      if rows[i].Line? {
        if rows[i].kind == Add {
          add := add + 1;
        } else if rows[i].kind == Del {
          del := del + 1;
        }
      }
    }
    assert rows[..|rows|] == rows;
  }

  lemma {:induction false} SidesCount(rows: seq<UnifiedRow>, plain: string -> string)
    ensures |FilterMap(rows, NewOf(plain))| + CountKind(rows, Del) == |FilterMap(rows, OldOf)| + CountKind(rows, Add)
  {
    if rows != [] {
      SidesCount(rows[..|rows| - 1], plain);
    }
  }

  lemma {:induction false} NumberedLength(lines: seq<string>, lo: nat, n: nat)
    ensures |Numbered(lines, lo, n)| == n
  {
    if n > 0 {
      NumberedLength(lines, lo, n - 1);
    }
  }

  /** The added count minus the removed one is the growth of the file. */
  lemma CountsBalance(plain: string -> string, ah: seq<string>, bh: seq<string>, a: seq<string>, b: seq<string>,
                      groups: seq<seq<OpCode>>)
    requires Renders(plain, ah, a) && Renders(plain, bh, b)
    requires Grouped(groups, |a|, |b|) && Aligned(a, b, groups) && groups != []
    ensures CountKind(Unified(ah, bh, groups), Add) - CountKind(Unified(ah, bh, groups), Del) == |b| - |a|
  {
    UnifiedIsLossless(plain, ah, bh, a, b, groups);
    SidesCount(Unified(ah, bh, groups), plain);
    NumberedLength(ah, 0, |ah|);
    NumberedLength(b, 0, |b|);
  }
}
