/** The list tool's cursor paging over a list of pull requests that changes between calls. */
module Paging {
  import opened Decimal
  import opened Prelude
  import opened Ordering

  const DEFAULT_LIMIT := 100

  /** Newest first: numbers strictly descending. */
  ghost predicate Descending(list: seq<int>)
  {
    forall i, j :: 0 <= i < j < |list| ==> list[i] > list[j]
  }

  predicate NewestFirst(a: int, b: int)
  {
    a >= b
  }

  /** store.list, reduced to the numbers a page names. */
  method List(tracked: set<int>) returns (list: seq<int>)
    ensures Descending(list) && forall n :: n in list <==> n in tracked
  {
    var raw: seq<int> := [];
    var todo := tracked;
    while todo != {}
      invariant todo <= tracked && Distinct(raw)
      invariant forall n :: n in raw <==> n in tracked && n !in todo
      decreases |todo|
    {
      ghost var member := SomeMember(todo);
      var n :| n in todo;
      raw := raw + [n];
      todo := todo - {n};
    }
    list := Sort(NewestFirst, raw);
    SortKeepsDistinct(raw, list);
  }

  /** One page and, when more remain, the cursor that continues it. */
  datatype Page = Page(numbers: seq<int>, cursor: Option<int>)

  /** What a call with this cursor has left to show. */
  predicate Below(cursor: Option<int>, n: int)
  {
    cursor.None? || n < cursor.value
  }

  function Limit(asked: int): (limit: nat)
    ensures limit > 0
  {
    if asked <= 0 then DEFAULT_LIMIT else asked
  }

  /** A page is the newest PRs below the cursor, up to the limit; it carries a cursor
      exactly when it leaves some out. */
  ghost predicate IsPage(tracked: set<int>, asked: int, cursor: Option<int>, p: Page)
  {
    && Descending(p.numbers) && |p.numbers| <= Limit(asked)
    && (forall n :: n in p.numbers ==> n in tracked && Below(cursor, n))
    && (p.cursor.None? ==> forall n :: n in tracked && Below(cursor, n) ==> n in p.numbers)
    && (p.cursor.Some? ==>
          && |p.numbers| == Limit(asked) && p.cursor.value == p.numbers[|p.numbers| - 1]
          && (exists n :: n in tracked && n < p.cursor.value)
          && (forall n :: n in tracked && Below(cursor, n) && n >= p.cursor.value ==> n in p.numbers))
  }

  /** A page with the footer's cursor text, empty when nothing is left out. */
  datatype Answer = Listed(page: Page, footer: string) | InvalidCursor

  /** The number a cursor text resumes below; an omitted cursor is empty. */
  function Parsed(text: string): Option<int>
  {
    if text == "" then None else Atoi(text)
  }

  method ListPRs(tracked: set<int>, asked: int, text: string) returns (a: Answer)
    requires forall n :: n in tracked ==> IsInt(n)
    ensures a.InvalidCursor? <==> text != "" && Atoi(text).None?
    ensures a.Listed? ==> IsPage(tracked, asked, Parsed(text), a.page)
    ensures a.Listed? ==> Parsed(a.footer) == a.page.cursor
    ensures a.Listed? ==>
              var most := if asked > 0 then asked else 100;
              |a.page.numbers| <= most && (a.footer != "" ==> |a.page.numbers| == most)
  {
    var after := None;
    if text != "" {
      after := Atoi(text);
      if after.None? {
        return InvalidCursor;
      }
    }
    var page := ListFrom(tracked, asked, after);
    var footer := "";
    if page.cursor.Some? {
      assert page.cursor.value in page.numbers;
      AtoiInverts(page.cursor.value);
      footer := FormatInt(page.cursor.value);
    }
    return Listed(page, footer);
  }

  method ListFrom(tracked: set<int>, asked: int, cursor: Option<int>) returns (p: Page)
    ensures IsPage(tracked, asked, cursor, p)
  {
    var list := List(tracked);
    var limit := asked;
    if limit <= 0 {
      limit := DEFAULT_LIMIT;
    }
    var start := 0;
    if cursor.Some? {
      while start < |list| && list[start] >= cursor.value
        invariant 0 <= start <= |list|
        invariant forall i :: 0 <= i < start ==> list[i] >= cursor.value
      {
        start := start + 1;
      }
    }
    assert forall i :: start <= i < |list| ==> Below(cursor, list[i]);
    var page := list[start..];
    var more := |page| > limit;
    if more {
      PageCut(tracked, asked, cursor, list, start);
      page := page[..limit];
      p := Page(page, Some(page[|page| - 1]));
    } else {
      PageRest(tracked, asked, cursor, list, start);
      p := Page(page, None);
    }
  }

  lemma PageRest(tracked: set<int>, asked: int, cursor: Option<int>, list: seq<int>, start: nat)
    requires start <= |list| && Descending(list) && (forall n :: n in list <==> n in tracked)
    requires forall i :: 0 <= i < |list| ==> (i < start <==> !Below(cursor, list[i]))
    requires |list| - start <= Limit(asked)
    ensures IsPage(tracked, asked, cursor, Page(list[start..], None))
  {
    var page := list[start..];
    forall n | n in tracked && Below(cursor, n)
      ensures n in page
    {
      var i :| 0 <= i < |list| && list[i] == n;
      assert page[i - start] == n;
    }
  }

  lemma PageCut(tracked: set<int>, asked: int, cursor: Option<int>, list: seq<int>, start: nat)
    requires start <= |list| && Descending(list) && (forall n :: n in list <==> n in tracked)
    requires forall i :: 0 <= i < |list| ==> (i < start <==> !Below(cursor, list[i]))
    requires |list| - start > Limit(asked)
    ensures var page := list[start..][..Limit(asked)];
            IsPage(tracked, asked, cursor, Page(page, Some(page[|page| - 1])))
  {
    var page, limit := list[start..][..Limit(asked)], Limit(asked);
    var last := page[limit - 1];
    assert list[start + limit] in tracked && list[start + limit] < last;
    forall n | n in tracked && Below(cursor, n) && n >= last
      ensures n in page
    {
      var i :| 0 <= i < |list| && list[i] == n;
      assert i < start + limit;
      assert page[i - start] == n;
    }
  }

  // ---- a walk over a changing list ----

  /** One call of a walk: what was tracked at the time, the limit, and the page returned. */
  datatype Call = Call(tracked: set<int>, asked: int, page: Page)

  /** The cursor a client holds after some calls: none at first, then the last page's. */
  function Cursor(walk: seq<Call>): Option<int>
  {
    if walk == [] then None else walk[|walk| - 1].page.cursor
  }

  /** Each call follows the cursor of the page before it. */
  ghost predicate Follows(walk: seq<Call>)
  {
    walk == [] || (
      var n := |walk| - 1;
      && Follows(walk[..n])
      && (n > 0 ==> Cursor(walk[..n]).Some?)
      && IsPage(walk[n].tracked, walk[n].asked, Cursor(walk[..n]), walk[n].page))
  }

  /** The numbers a walk has shown, in order. */
  function Shown(walk: seq<Call>): seq<int>
  {
    if walk == [] then [] else Shown(walk[..|walk| - 1]) + walk[|walk| - 1].page.numbers
  }

  /** Everything shown so far is at or above the cursor. */
  lemma {:induction false} ShownAbove(walk: seq<Call>)
    requires Follows(walk)
    ensures Descending(Shown(walk))
    ensures Cursor(walk).Some? ==> forall n :: n in Shown(walk) ==> n >= Cursor(walk).value
  {
    if walk != [] {
      var front, last := walk[..|walk| - 1], walk[|walk| - 1];
      ShownAbove(front);
      var was, more := Shown(front), last.page.numbers;
      forall i, j | 0 <= i < j < |was + more|
        ensures (was + more)[i] > (was + more)[j]
      {
        if i < |was| <= j {
          assert front != [];
          assert was[i] in was && more[j - |was|] in more;
        }
      }
      if last.page.cursor.Some? {
        PageAbove(last.tracked, last.asked, Cursor(front), last.page);
      }
    }
  }

  lemma PageAbove(tracked: set<int>, asked: int, cursor: Option<int>, p: Page)
    requires IsPage(tracked, asked, cursor, p) && p.cursor.Some?
    ensures forall n :: n in p.numbers ==> n >= p.cursor.value
    ensures Below(cursor, p.cursor.value)
  {
    assert p.numbers[|p.numbers| - 1] in p.numbers;
  }

  /** No PR is shown twice, however the list changes between the calls. */
  lemma NothingRepeats(walk: seq<Call>, i: nat, j: nat)
    requires Follows(walk) && i < j < |Shown(walk)|
    ensures Shown(walk)[i] != Shown(walk)[j]
  {
    ShownAbove(walk);
  }

  /** A PR tracked at every call of a walk has been shown once the cursor is past it. */
  lemma {:induction false} TrackedIsShown(walk: seq<Call>, pr: int)
    requires Follows(walk) && walk != []
    requires forall k :: 0 <= k < |walk| ==> pr in walk[k].tracked
    ensures pr in Shown(walk) || (Cursor(walk).Some? && pr < Cursor(walk).value)
  {
    var front, last := walk[..|walk| - 1], walk[|walk| - 1];
    if front != [] {
      TrackedIsShown(front, pr);
    }
  }

  /** So a finished walk has skipped nothing that was there throughout. */
  lemma NothingIsSkipped(walk: seq<Call>, pr: int)
    requires Follows(walk) && walk != [] && Cursor(walk).None?
    requires forall k :: 0 <= k < |walk| ==> pr in walk[k].tracked
    ensures pr in Shown(walk)
  {
    TrackedIsShown(walk, pr);
  }

  /** A walk ends however many PRs open behind it, for the cursor only falls: with the
      first call's PRs numbered below `hi` and none ever below `lo`, it makes at most
      hi - lo + 1 calls. */
  lemma {:induction false} WalkEnds(walk: seq<Call>, lo: int, hi: int)
    requires Follows(walk) && walk != [] && lo <= hi
    requires forall n :: n in walk[0].tracked ==> n < hi
    requires forall k, n :: 0 <= k < |walk| && n in walk[k].tracked ==> lo <= n
    ensures Cursor(walk).Some? ==> lo < Cursor(walk).value <= hi - |walk|
    ensures |walk| <= hi - lo + 1
  {
    var front, last := walk[..|walk| - 1], walk[|walk| - 1];
    assert forall n :: n in last.tracked ==> lo <= n;
    if front != [] {
      assert front[0] == walk[0];
      assert forall k, n :: 0 <= k < |front| && n in front[k].tracked ==> lo <= n;
      WalkEnds(front, lo, hi);
    }
    if last.page.cursor.Some? {
      PageAbove(last.tracked, last.asked, Cursor(front), last.page);
      assert last.page.cursor.value in last.page.numbers;
    }
  }
}
