/** What the word highlighting of a whole diff leaves in the two arrays of markup, stated
    without the ranges it computes. */
module WordMarks {
  import opened Prelude
  import opened DiffViews
  import opened Highlight

  // ---- the markup of a line, token by token ----

  const OPEN_WORD := "<span class=\"wd\">"
  const CLOSE_SPAN := "</span>"

  lemma Tags()
    ensures TagOf(WORD) == OPEN_WORD && TagOf(CLOSE) == CLOSE_SPAN
  {
    assert "<" + WORD + ">" == OPEN_WORD;
    assert "<" + CLOSE + ">" == CLOSE_SPAN;
  }

  /** Rune `k` of a token at rune `pos` lies in the range. */
  predicate InMark(pos: int, k: int, lo: int, hi: int)
  {
    lo <= pos + k < hi
  }

  /** A token's text escaped, inside a span of its class if it has one, and what of it lies
      in [lo, hi), from its rune `l` to its rune `h`, inside a word span. */
  lemma TokenMarkup(t: Token, pos: int, lo: int, hi: int, l: nat, h: nat)
    requires l <= h <= |t.text|
    requires forall k :: 0 <= k < |t.text| ==> (l <= k < h <==> InMark(pos, k, lo, hi))
    ensures var marked := if l == h then Escape(t.text)
                          else Escape(t.text[..l]) + OPEN_WORD + Escape(t.text[l..h]) + CLOSE_SPAN + Escape(t.text[h..]);
            Emitted([t], pos, lo, hi) ==
            if t.css == "" then marked else "<span class=\"" + t.css + "\">" + marked + CLOSE_SPAN
  {
    Tags();
    var cl, ch := Clamp(lo - pos, |t.text|), Clamp(hi - pos, |t.text|);
    if l < h {
      assert InMark(pos, l, lo, hi) && InMark(pos, h - 1, lo, hi);
      assert l > 0 ==> !InMark(pos, l - 1, lo, hi);
      assert h < |t.text| ==> !InMark(pos, h, lo, hi);
      assert cl == l && ch == h;
    } else if cl < ch {
      assert InMark(pos, cl, lo, hi);
    }
    assert Emitted([t][1..], pos + |t.text|, lo, hi) == "";
  }

  lemma OneTokenMarkup(t: Token, pos: int, next: int, lo: int, hi: int)
    requires next == pos + |t.text|
    ensures Emitted([t], pos, lo, hi) == EmitToken(t, pos, lo, hi)
  {
    assert Emitted([t][1..], next, lo, hi) == "";
  }

  /** A line's markup is that of its tokens one after the other, each at its own position. */
  lemma LineMarkup(t: Token, rest: seq<Token>, pos: int, next: int, lo: int, hi: int)
    requires next == pos + |t.text|
    ensures Emitted([t] + rest, pos, lo, hi) == Emitted([t], pos, lo, hi) + Emitted(rest, next, lo, hi)
  {
    var line, only := [t] + rest, [t];
    assert line[0] == t && line[1..] == rest && only[1..] == [];
    OneTokenMarkup(t, pos, next, lo, hi);
  }

  /** Lines are compared without the newlines they end in, and nothing else is cut off. */
  lemma {:induction false} TrimsNewlinesOnly(s: string)
    ensures var t := TrimNewlines(s);
            t <= s && (forall i :: |t| <= i < |s| ==> s[i] == '\n') && (t != "" ==> t[|t| - 1] != '\n')
  {
    if s != "" && s[|s| - 1] == '\n' {
      TrimsNewlinesOnly(s[..|s| - 1]);
    }
  }

  // ---- a line belongs to at most one replaced pair ----

  lemma {:induction false} OpsInOrder(ops: seq<OpCode>, k: nat, l: nat, nOld: nat, nNew: nat)
    requires Contiguous(ops, nOld, nNew) && k < l < |ops|
    ensures ops[k].i2 <= ops[l].i1 && ops[k].j2 <= ops[l].j1
    decreases |ops|
  {
    var n := |ops| - 1;
    if l < n {
      OpsInOrder(ops[..n], k, l, nOld, nNew);
    } else if k < n - 1 {
      OpsInOrder(ops[..n], k, n - 1, nOld, nNew);
      OpWellFormed(ops, n - 1, nOld, nNew);
    }
  }

  /** An opcode lies between where its group starts and where it ends. */
  lemma OpInGroup(groups: seq<seq<OpCode>>, g: nat, k: nat, nOld: nat, nNew: nat)
    requires Grouped(groups, nOld, nNew) && g < |groups| && k < |groups[g]|
    ensures var op := groups[g][k];
            && OldEnd(groups, g) <= op.i1 && op.i2 <= OldEnd(groups, g + 1)
            && NewEnd(groups, g) <= op.j1 && op.j2 <= NewEnd(groups, g + 1)
  {
    assert GroupOk(groups, g, nOld, nNew);
    var ops := groups[g];
    OpWellFormed(ops, 0, nOld, nNew);
    OpWellFormed(ops, |ops| - 1, nOld, nNew);
    if k > 0 {
      OpsInOrder(ops, 0, k, nOld, nNew);
    }
    if k < |ops| - 1 {
      OpsInOrder(ops, k, |ops| - 1, nOld, nNew);
    }
  }

  lemma {:induction false} EndsGrow(groups: seq<seq<OpCode>>, g: nat, h: nat, nOld: nat, nNew: nat)
    requires Grouped(groups, nOld, nNew) && g <= h <= |groups|
    ensures OldEnd(groups, g) <= OldEnd(groups, h) && NewEnd(groups, g) <= NewEnd(groups, h)
    decreases h
  {
    if g < h {
      EndsGrow(groups, g, h - 1, nOld, nNew);
      assert GroupOk(groups, h - 1, nOld, nNew);
      OpWellFormed(groups[h - 1], 0, nOld, nNew);
      OpInGroup(groups, h - 1, 0, nOld, nNew);
    }
  }

  lemma OpsAreApart(groups: seq<seq<OpCode>>, g: nat, k: nat, h: nat, l: nat, nOld: nat, nNew: nat)
    requires Grouped(groups, nOld, nNew) && g < |groups| && k < |groups[g]| && h < |groups| && l < |groups[h]|
    requires g < h || (g == h && k < l)
    ensures groups[g][k].i2 <= groups[h][l].i1 && groups[g][k].j2 <= groups[h][l].j1
  {
    if g == h {
      assert GroupOk(groups, g, nOld, nNew);
      OpsInOrder(groups[g], k, l, nOld, nNew);
    } else {
      OpInGroup(groups, g, k, nOld, nNew);
      EndsGrow(groups, g + 1, h, nOld, nNew);
      OpInGroup(groups, h, l, nOld, nNew);
    }
  }

  lemma PairsAreUnique(groups: seq<seq<OpCode>>, p: Pairing, q: Pairing, nOld: nat, nNew: nat)
    requires Grouped(groups, nOld, nNew) && Paired(groups, p) && Paired(groups, q)
    requires p.0 == q.0 || p.1 == q.1
    ensures p == q
  {
    var g :| 0 <= g < |groups| && PairedIn(groups[g], p);
    var k :| 0 <= k < |groups[g]| && PairedBy(groups[g][k], p);
    var h :| 0 <= h < |groups| && PairedIn(groups[h], q);
    var l :| 0 <= l < |groups[h]| && PairedBy(groups[h][l], q);
    if g < h || (g == h && k < l) {
      OpsAreApart(groups, g, k, h, l, nOld, nNew);
    } else if h < g || (h == g && l < k) {
      OpsAreApart(groups, h, l, g, k, nOld, nNew);
    }
  }

  // ---- what each array holds afterwards ----

  ghost predicate AllPairs(groups: seq<seq<OpCode>>, pairs: set<Pairing>)
  {
    forall p: Pairing :: p in pairs <==> Paired(groups, p)
  }

  /** The line of a pair shows the mark of that very pair, if it has one. */
  lemma OwnMark(on: Half, o: Doc, n: Doc, groups: seq<seq<OpCode>>, pairs: set<Pairing>, before: seq<string>, now: seq<string>, p: Pairing)
    requires Grouped(groups, |o.lines|, |n.lines|) && AllPairs(groups, pairs) && InRange(o, n, pairs) && p in pairs
    requires Rewritten(on, o, n, pairs, before, now) && LineOf(on, p) < |now|
    ensures var mark := MarkOf(on, o, n, p);
            now[LineOf(on, p)] == if mark.Some? then mark.value else before[LineOf(on, p)]
  {
    var k := LineOf(on, p);
    assert RewrittenAt(on, o, n, pairs, before, now, k);
    forall q | q in pairs && LineOf(on, q) == k
      ensures q == p
    {
      PairsAreUnique(groups, p, q, |o.lines|, |n.lines|);
    }
  }

  /** Lines outside every replaced pair are as they were. */
  lemma OthersUntouched(on: Half, o: Doc, n: Doc, pairs: set<Pairing>, before: seq<string>, now: seq<string>, k: nat)
    requires InRange(o, n, pairs) && Rewritten(on, o, n, pairs, before, now) && k < |now|
    requires forall p :: p in pairs ==> LineOf(on, p) != k
    ensures now[k] == before[k]
  {
    assert RewrittenAt(on, o, n, pairs, before, now, k);
  }

  /** Markup of the lines with no word highlighted yet. */
  ghost predicate Unhighlighted(html: seq<string>, d: Doc)
  {
    |html| == |d.lines| &&
    forall k :: 0 <= k < |html| ==> Marked(html[k]) == "" && Unmarked(html[k]) == TrimNewlines(d.lines[k])
  }

  /** `line` is its highlighted word `word` between `pre` and `suf`. */
  predicate Shows(html: string, line: string, pre: string, word: string, suf: string)
  {
    line == pre + word + suf && Marked(html) == word && Unmarked(html) == pre + suf
  }

  lemma EmittedShows(toks: seq<Token>, lo: nat, hi: nat)
    requires Safe(toks) && '\0' !in Text(toks) && lo < hi <= |Text(toks)|
    ensures var t := Text(toks); Shows(Emitted(toks, 0, lo, hi), t, t[..lo], t[lo..hi], t[hi..])
  {
    EmitRoundTrip(toks, lo, hi);
    InsideAndOutside(Text(toks), lo, hi);
    ThreeParts(Text(toks), lo, hi);
  }

  lemma InsideAndOutside(text: string, lo: nat, hi: nat)
    requires lo < hi <= |text|
    ensures Inside(text, lo, hi) == text[lo..hi] && Outside(text, lo, hi) == text[..lo] + text[hi..]
  {
  }

  lemma ThreeParts(text: string, lo: nat, hi: nat)
    requires lo <= hi <= |text|
    ensures text == text[..lo] + text[lo..hi] + text[hi..]
  {
  }

  lemma PlainShows(html: string, line: string, lo: nat)
    requires Marked(html) == "" && Unmarked(html) == line && lo <= |line|
    ensures Shows(html, line, line[..lo], line[lo..lo], line[lo..])
  {
    ThreeParts(line, lo, lo);
  }

  function Texts(on: Half, o: Doc, n: Doc, p: Pairing): string
    requires p.0 < |o.lines| && p.1 < |n.lines|
  {
    TrimNewlines(if on == Old then o.lines[p.0] else n.lines[p.1])
  }

  /** One side of a pair after the marking, by the range it was marked in. */
  lemma SideShows(on: Half, o: Doc, n: Doc, groups: seq<seq<OpCode>>, pairs: set<Pairing>, before: seq<string>, now: seq<string>, p: Pairing)
    requires Grouped(groups, |o.lines|, |n.lines|) && AllPairs(groups, pairs) && InRange(o, n, pairs) && p in pairs
    requires Lexed(o) && Lexed(n) && Unhighlighted(before, if on == Old then o else n)
    requires Rewritten(on, o, n, pairs, before, now)
    ensures var r, t := DiffRanges(Texts(Old, o, n, p), Texts(New, o, n, p)), Texts(on, o, n, p);
            var lo, hi := if on == Old then r.aLo else r.bLo, if on == Old then r.aHi else r.bHi;
            Shows(now[LineOf(on, p)], t, t[..lo], t[lo..hi], t[hi..])
  {
    var r, t := DiffRanges(Texts(Old, o, n, p), Texts(New, o, n, p)), Texts(on, o, n, p);
    var lo, hi := if on == Old then r.aLo else r.bLo, if on == Old then r.aHi else r.bHi;
    OwnMark(on, o, n, groups, pairs, before, now, p);
    if lo < hi {
      EmittedShows(if on == Old then o.toks[p.0] else n.toks[p.1], lo, hi);
    } else {
      PlainShows(now[LineOf(on, p)], t, lo);
    }
  }

  /** The k-th lines of a replacement, while both sides have one. */
  predicate Replaces(groups: seq<seq<OpCode>>, g: nat, m: nat, k: nat)
  {
    && g < |groups| && m < |groups[g]| && groups[g][m].tag == Replace
    && groups[g][m].i1 + k < groups[g][m].i2 && groups[g][m].j1 + k < groups[g][m].j2
  }

  lemma ReplacedIsPaired(groups: seq<seq<OpCode>>, pairs: set<Pairing>, g: nat, m: nat, k: nat)
    requires AllPairs(groups, pairs) && Replaces(groups, g, m, k)
    ensures (groups[g][m].i1 + k, groups[g][m].j1 + k) in pairs
  {
    assert PairedBy(groups[g][m], (groups[g][m].i1 + k, groups[g][m].j1 + k));
    assert PairedIn(groups[g], (groups[g][m].i1 + k, groups[g][m].j1 + k));
  }

  /** A line that is no k-th line of a replacement that has one on the other side, too, keeps
      its markup. */
  lemma OthersKeepTheirMarkup(on: Half, o: Doc, n: Doc, groups: seq<seq<OpCode>>, pairs: set<Pairing>,
                              before: seq<string>, now: seq<string>, line: nat)
    requires AllPairs(groups, pairs) && InRange(o, n, pairs) && Rewritten(on, o, n, pairs, before, now) && line < |now|
    requires forall g: nat, m: nat, k: nat :: Replaces(groups, g, m, k) ==> line != Start(groups[g][m], on) + k
    ensures now[line] == before[line]
  {
    forall p | p in pairs
      ensures LineOf(on, p) != line
    {
      var g :| 0 <= g < |groups| && PairedIn(groups[g], p);
      var m :| 0 <= m < |groups[g]| && PairedBy(groups[g][m], p);
      assert Replaces(groups, g, m, p.0 - groups[g][m].i1);
    }
    OthersUntouched(on, o, n, pairs, before, now, line);
  }

  lemma WordsDiffer(a: string, b: string)
    requires var r := DiffRanges(a, b); r.aLo < r.aHi && r.bLo < r.bHi
    ensures var r := DiffRanges(a, b);
            var x, y := a[r.aLo..r.aHi], b[r.bLo..r.bHi];
            x[0] != y[0] && x[|x| - 1] != y[|y| - 1]
  {
    var r := DiffRanges(a, b);
    RangesAreTight(a, b);
    assert FromEnd(a, |a| - r.aHi) == a[r.aLo..r.aHi][r.aHi - r.aLo - 1];
    assert FromEnd(b, |b| - r.bHi) == b[r.bLo..r.bHi][r.bHi - r.bLo - 1];
  }

  /** The lines are one text with one word changed, and it is that word that is highlighted. */
  predicate OneWordChanged(ha: string, hb: string, a: string, b: string, pre: string, suf: string)
  {
    var x, y := Marked(ha), Marked(hb);
    && Shows(ha, a, pre, x, suf) && Shows(hb, b, pre, y, suf)
    && (x != "" && y != "" ==> x[0] != y[0] && x[|x| - 1] != y[|y| - 1])
  }

  lemma WordsShown(ha: string, hb: string, a: string, b: string) returns (pre: string, suf: string)
    requires a != "" && b != "" && (a[0] == b[0] || a[|a| - 1] == b[|b| - 1])
    requires var r := DiffRanges(a, b);
             && Shows(ha, a, a[..r.aLo], a[r.aLo..r.aHi], a[r.aHi..])
             && Shows(hb, b, b[..r.bLo], b[r.bLo..r.bHi], b[r.bHi..])
    ensures OneWordChanged(ha, hb, a, b, pre, suf)
  {
    var r := DiffRanges(a, b);
    RangesCoverTheChange(a, b);
    pre, suf := a[..r.aLo], a[r.aHi..];
    if r.aLo < r.aHi && r.bLo < r.bHi {
      WordsDiffer(a, b);
    }
  }

  /** The marking of a replacement's k-th lines, on the arrays: where the two lines share an
      affix they are one text with one word changed, and exactly that word is highlighted in
      each; it cannot be made smaller, as the two words differ in their first and last
      runes. So taking the highlighted text out leaves the same text on both sides. */
  lemma HighlightedIsTheChange(o: Doc, n: Doc, groups: seq<seq<OpCode>>, pairs: set<Pairing>,
                               a0: seq<string>, b0: seq<string>, ah: seq<string>, bh: seq<string>,
                               g: nat, m: nat, k: nat, i: nat, j: nat)
    returns (pre: string, suf: string)
    requires Lexed(o) && Lexed(n) && Unhighlighted(a0, o) && Unhighlighted(b0, n)
    requires Grouped(groups, |o.lines|, |n.lines|) && AllPairs(groups, pairs) && InRange(o, n, pairs)
    requires Rewritten(Old, o, n, pairs, a0, ah) && Rewritten(New, o, n, pairs, b0, bh)
    requires Replaces(groups, g, m, k) && i == groups[g][m].i1 + k < |o.lines| && j == groups[g][m].j1 + k < |n.lines|
    requires var a, b := TrimNewlines(o.lines[i]), TrimNewlines(n.lines[j]);
             a != "" && b != "" && (a[0] == b[0] || a[|a| - 1] == b[|b| - 1])
    ensures OneWordChanged(ah[i], bh[j], TrimNewlines(o.lines[i]), TrimNewlines(n.lines[j]), pre, suf)
    ensures Unmarked(ah[i]) == Unmarked(bh[j])
  {
    ReplacedIsPaired(groups, pairs, g, m, k);
    SideShows(Old, o, n, groups, pairs, a0, ah, (i, j));
    SideShows(New, o, n, groups, pairs, b0, bh, (i, j));
    pre, suf := WordsShown(ah[i], bh[j], TrimNewlines(o.lines[i]), TrimNewlines(n.lines[j]));
  }

  /** A pair that shares no affix is a total change and keeps its markup. */
  lemma TotalChangeIsUntouched(o: Doc, n: Doc, groups: seq<seq<OpCode>>, pairs: set<Pairing>,
                               a0: seq<string>, b0: seq<string>, ah: seq<string>, bh: seq<string>, p: Pairing)
    requires Grouped(groups, |o.lines|, |n.lines|) && AllPairs(groups, pairs) && InRange(o, n, pairs) && p in pairs
    requires |a0| == |o.lines| && |b0| == |n.lines|
    requires Rewritten(Old, o, n, pairs, a0, ah) && Rewritten(New, o, n, pairs, b0, bh)
    requires var a, b := TrimNewlines(o.lines[p.0]), TrimNewlines(n.lines[p.1]);
             a != "" && b != "" ==> a[0] != b[0] && a[|a| - 1] != b[|b| - 1]
    ensures ah[p.0] == a0[p.0] && bh[p.1] == b0[p.1]
  {
    TotalChangeIsUnmarked(TrimNewlines(o.lines[p.0]), TrimNewlines(n.lines[p.1]));
    OwnMark(Old, o, n, groups, pairs, a0, ah, p);
    OwnMark(New, o, n, groups, pairs, b0, bh, p);
  }
}
