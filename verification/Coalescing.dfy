/** What coalescing means for one pull request, independently of the queue: a cell
    that is idle, or holds the snapshot being handled plus at most one successor. */
module Coalescing {
  import opened Prelude
  import opened Api

  datatype Event =
    | Accepted(pr: PR)      // a request the queue did not refuse
    | Begun(pr: PR)         // a snapshot handed to the engine
    | Ended(number: int)    // a worker finished its round for this number
    | Abandoned(number: int) // shutdown pre-empted the worker

  datatype Cell = Idle | Held(cur: PR, begun: bool, next: Option<PR>)

  function NumberOf(e: Event): int
  {
    match e
    case Accepted(pr) => pr.number
    case Begun(pr) => pr.number
    case Ended(n) => n
    case Abandoned(n) => n
  }

  /** None marks an event the cell does not allow in its current state. */
  function CellStep(c: Cell, e: Event): Option<Cell>
  {
    match e
    case Accepted(pr) => if c.Idle? then Some(Held(pr, false, None)) else Some(c.(next := Some(pr)))
    case Begun(pr) => if c.Held? && !c.begun && c.cur == pr then Some(c.(begun := true)) else None
    case Ended(_) =>
      if c.Idle? || !c.begun then None
      else if c.next.Some? then Some(Held(c.next.value, false, None))
      else Some(Idle)
    case Abandoned(_) => if c.Held? then Some(Idle) else None
  }

  /** The cell of `number` after the events of `log`, or None if one was illegal. */
  function ReplayFrom(c: Cell, log: seq<Event>, number: int): Option<Cell>
  {
    if log == [] then Some(c)
    else
      var before := ReplayFrom(c, log[..|log| - 1], number);
      var e := log[|log| - 1];
      if before.None? || NumberOf(e) != number then before else CellStep(before.value, e)
  }

  function Replay(log: seq<Event>, number: int): Option<Cell>
  {
    ReplayFrom(Idle, log, number)
  }

  function LastAccepted(log: seq<Event>, number: int): Option<PR>
  {
    if log == [] then None
    else
      var e := log[|log| - 1];
      if e.Accepted? && e.pr.number == number then Some(e.pr) else LastAccepted(log[..|log| - 1], number)
  }

  function LastBegun(log: seq<Event>, number: int): Option<PR>
  {
    if log == [] then None
    else
      var e := log[|log| - 1];
      if e.Begun? && e.pr.number == number then Some(e.pr) else LastBegun(log[..|log| - 1], number)
  }

  /** How many renders of `number` a log begins. */
  function Renders(log: seq<Event>, number: int): nat
  {
    if log == [] then 0
    else
      var e := log[|log| - 1];
      Renders(log[..|log| - 1], number) + if e.Begun? && e.pr.number == number then 1 else 0
  }

  function Requests(log: seq<Event>, number: int): nat
  {
    if log == [] then 0
    else
      var e := log[|log| - 1];
      Requests(log[..|log| - 1], number) + if e.Accepted? && e.pr.number == number then 1 else 0
  }

  ghost predicate Undisturbed(log: seq<Event>, number: int)
  {
    Abandoned(number) !in log
  }

  lemma ReplayAppend(c: Cell, log: seq<Event>, e: Event, number: int)
    ensures ReplayFrom(c, log + [e], number) ==
            var before := ReplayFrom(c, log, number);
            if before.None? || NumberOf(e) != number then before else CellStep(before.value, e)
  {
    assert (log + [e])[..|log|] == log;
  }

  lemma {:induction false} ReplayConcat(c: Cell, a: seq<Event>, b: seq<Event>, number: int)
    requires ReplayFrom(c, a + b, number).Some?
    ensures ReplayFrom(c, a, number).Some?
    ensures ReplayFrom(ReplayFrom(c, a, number).value, b, number) == ReplayFrom(c, a + b, number)
  {
    if b == [] {
      assert a + b == a;
    } else {
      var e := b[|b| - 1];
      assert a + b == (a + b[..|b| - 1]) + [e];
      ReplayAppend(c, a + b[..|b| - 1], e, number);
      ReplayConcat(c, a, b[..|b| - 1], number);
    }
  }

  /** The newest accepted request is the successor, else the snapshot being held,
      else (idle) the snapshot last rendered. */
  lemma {:induction false} NewestIsNeverLost(log: seq<Event>, number: int)
    requires Replay(log, number).Some? && Undisturbed(log, number)
    ensures var c := Replay(log, number).value;
            && LastAccepted(log, number) == (
                 if c.Idle? then LastBegun(log, number)
                 else if c.next.Some? then c.next
                 else Some(c.cur))
            && (c.Held? && c.begun ==> LastBegun(log, number) == Some(c.cur))
  {
    if log != [] {
      NewestIsNeverLost(log[..|log| - 1], number);
    }
  }

  /** Requests conserve: each one is rendered, being rendered, waiting, or was
      superseded by a newer one before its render began. */
  lemma {:induction false} RendersNeverExceedRequests(log: seq<Event>, number: int)
    requires Replay(log, number).Some?
    ensures var c := Replay(log, number).value;
            Renders(log, number)
            + (if c.Held? && !c.begun then 1 else 0)
            + (if c.Held? && c.next.Some? then 1 else 0) <= Requests(log, number)
  {
    if log != [] {
      RendersNeverExceedRequests(log[..|log| - 1], number);
    }
  }

  lemma {:induction false} DuringRender(c: Cell, log: seq<Event>, number: int)
    requires c.Held? && c.begun
    requires ReplayFrom(c, log, number).Some?
    requires Ended(number) !in log && Undisturbed(log, number)
    ensures Renders(log, number) == 0
    ensures ReplayFrom(c, log, number).value ==
            c.(next := if Requests(log, number) == 0 then c.next else LastAccepted(log, number))
    ensures Requests(log, number) > 0 ==> LastAccepted(log, number).Some?
  {
    if log != [] {
      DuringRender(c, log[..|log| - 1], number);
    }
  }

  lemma {:induction false} TrailingRender(c: Cell, log: seq<Event>, number: int)
    requires c.Held? && c.next.None?
    requires ReplayFrom(c, log, number).Some?
    requires Requests(log, number) == 0 && Undisturbed(log, number)
    ensures var d := ReplayFrom(c, log, number).value;
            && Renders(log, number) == (if c.begun || d == c then 0 else 1)
            && (Renders(log, number) == 1 ==> LastBegun(log, number) == Some(c.cur))
            && (d == Idle || d == c || d == c.(begun := true))
  {
    if log != [] {
      TrailingRender(c, log[..|log| - 1], number);
    }
  }

  /** A burst of any number of requests arriving during one render causes exactly
      one more render before the number is idle again, of the newest of them. */
  lemma BurstCollapses(before: seq<Event>, during: seq<Event>, after: seq<Event>, number: int)
    requires Replay(before + during + [Ended(number)] + after, number) == Some(Idle)
    requires Replay(before, number).Some? && Replay(before, number).value.Held? && Replay(before, number).value.begun
    requires Ended(number) !in during && Requests(during, number) > 0
    requires Requests(after, number) == 0
    requires Undisturbed(during, number) && Undisturbed(after, number)
    ensures Renders(during, number) == 0 && Renders(after, number) == 1
    ensures LastBegun(after, number) == LastAccepted(during, number)
  {
    var c := Replay(before, number).value;
    ReplayConcat(Idle, before + during + [Ended(number)], after, number);
    ReplayAppend(Idle, before + during, Ended(number), number);
    ReplayConcat(Idle, before, during, number);
    DuringRender(c, during, number);
    var d := ReplayFrom(Idle, before + during + [Ended(number)], number).value;
    assert d == Held(LastAccepted(during, number).value, false, None);
    TrailingRender(d, after, number);
  }
}
