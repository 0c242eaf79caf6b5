/** Usage: events become per-workspace, per-day rows, and no cost or outcome is lost,
    invented or counted twice on the way. */
module Usage {
  import opened Common
  import opened Timestamps
  import opened UsageWindow
  import opened EventLog

  // ------------------------------------------------------------- the sums

  datatype Tally = Tally(cost: real, turns: nat, done: nat, failed: nat, killed: nat, crashed: nat, timedOut: nat) {
    function Plus(t: Tally): Tally {
      Tally(cost + t.cost, turns + t.turns, done + t.done, failed + t.failed,
            killed + t.killed, crashed + t.crashed, timedOut + t.timedOut)
    }
  }

  const ZERO := Tally(0.0, 0, 0, 0, 0, 0, 0)

  /** The day a timestamp is sliced to; a shorter text has none. */
  function DayOf(ts: string): Option<string> {
    if |ts| >= 10 then Some(ts[..10]) else None
  }

  /** What one event adds, if it is of a kind that counts. */
  function Charge(kind: EventKind): Option<Tally> {
    match kind
    case AgentFinished(cost, turns) => Some(ZERO.(cost := cost, turns := turns))
    case AgentTimedOut(_) => Some(ZERO.(timedOut := 1))
    case StatusChanged(_, to) =>
      (match to
       case Done => Some(ZERO.(done := 1))
       case Failed => Some(ZERO.(failed := 1))
       case Killed => Some(ZERO.(killed := 1))
       case Crashed => Some(ZERO.(crashed := 1))
       case _ => None)
    case _ => None
  }

  // ------------------------------------------------------------- the rows

  datatype UsageRow = UsageRow(workspace: string, day: string, tally: Tally)

  /** What an event adds and where: nothing when it does not count or has no day. */
  function Posting(e: Event): Option<UsageRow> {
    match (DayOf(e.ts), Charge(e.kind))
    case (Some(day), Some(t)) => Some(UsageRow(e.repo, day, t))
    case _ => None
  }

  function Worth(p: Option<UsageRow>): Tally {
    if p.Some? then p.value.tally else ZERO
  }

  /** The direct sum over events: the reference every report is measured against. */
  function DirectSum(events: seq<Event>): Tally {
    if events == [] then ZERO else DirectSum(events[..|events| - 1]).Plus(Worth(Posting(events[|events| - 1])))
  }

  predicate Dated(e: Event) {
    DayOf(e.ts).Some?
  }

  function EndedBy(e: Event, status: AgentStatus): nat {
    if Dated(e) && e.kind.StatusChanged? && e.kind.to == status then 1 else 0
  }

  function TimedOutBy(e: Event): nat {
    if Dated(e) && e.kind.AgentTimedOut? then 1 else 0
  }

  function CostBy(e: Event): real {
    if Dated(e) && e.kind.AgentFinished? then e.kind.costUsd else 0.0
  }

  function TurnsBy(e: Event): nat {
    if Dated(e) && e.kind.AgentFinished? then e.kind.turns else 0
  }

  /** How many dated events say that an agent reached `status`. */
  function HowManyEnded(events: seq<Event>, status: AgentStatus): nat {
    if events == [] then 0 else HowManyEnded(events[..|events| - 1], status) + EndedBy(events[|events| - 1], status)
  }

  function HowManyTimedOut(events: seq<Event>): nat {
    if events == [] then 0 else HowManyTimedOut(events[..|events| - 1]) + TimedOutBy(events[|events| - 1])
  }

  function CostOf(events: seq<Event>): real {
    if events == [] then 0.0 else CostOf(events[..|events| - 1]) + CostBy(events[|events| - 1])
  }

  function TurnsOf(events: seq<Event>): nat {
    if events == [] then 0 else TurnsOf(events[..|events| - 1]) + TurnsBy(events[|events| - 1])
  }

  /** What one event counts for, by its own reading. */
  function Breakdown(e: Event): Tally {
    Tally(CostBy(e), TurnsBy(e), EndedBy(e, Done), EndedBy(e, Failed), EndedBy(e, Killed), EndedBy(e, Crashed), TimedOutBy(e))
  }

  function Breakdowns(events: seq<Event>): Tally {
    Tally(CostOf(events), TurnsOf(events), HowManyEnded(events, Done), HowManyEnded(events, Failed),
          HowManyEnded(events, Killed), HowManyEnded(events, Crashed), HowManyTimedOut(events))
  }

  lemma WorthCounts(e: Event)
    ensures Worth(Posting(e)) == Breakdown(e)
  {
  }

  lemma BreakdownOneMore(events: seq<Event>)
    requires events != []
    ensures Breakdowns(events) == Breakdowns(events[..|events| - 1]).Plus(Breakdown(events[|events| - 1]))
  {
  }

  /** What the sums count: finished agents' costs and turns, and one for each outcome. */
  lemma {:induction false} SumsCount(events: seq<Event>)
    ensures DirectSum(events) == Breakdowns(events)
  {
    if events != [] {
      SumsCount(events[..|events| - 1]);
      WorthCounts(events[|events| - 1]);
      BreakdownOneMore(events);
    }
  }

  predicate KeyBefore(w: string, d: string, w': string, d': string) {
    Before(w, w') || (w == w' && Before(d, d'))
  }

  predicate RowsAscend(rows: seq<UsageRow>) {
    forall i, j :: 0 <= i < j < |rows| ==> KeyBefore(rows[i].workspace, rows[i].day, rows[j].workspace, rows[j].day)
  }

  function SumRows(rows: seq<UsageRow>): Tally {
    if rows == [] then ZERO else rows[0].tally.Plus(SumRows(rows[1..]))
  }

  lemma KeyOrder(w: string, d: string, w': string, d': string)
    ensures !KeyBefore(w, d, w, d)
    ensures KeyBefore(w, d, w', d') || KeyBefore(w', d', w, d) || (w == w' && d == d')
    ensures !(KeyBefore(w, d, w', d') && KeyBefore(w', d', w, d))
  {
    BeforeIrreflexive(w);
    BeforeIrreflexive(d);
    BeforeTotal(w, w');
    BeforeTotal(d, d');
    if Before(w, w') {
      BeforeAsymmetric(w, w');
    }
    if Before(d, d') {
      BeforeAsymmetric(d, d');
    }
  }

  lemma KeyTransitive(a: UsageRow, b: UsageRow, c: UsageRow)
    requires KeyBefore(a.workspace, a.day, b.workspace, b.day) && KeyBefore(b.workspace, b.day, c.workspace, c.day)
    ensures KeyBefore(a.workspace, a.day, c.workspace, c.day)
  {
    if Before(a.workspace, b.workspace) && Before(b.workspace, c.workspace) {
      BeforeTransitive(a.workspace, b.workspace, c.workspace);
    } else if a.workspace == b.workspace && b.workspace == c.workspace {
      BeforeTransitive(a.day, b.day, c.day);
    }
  }

  /** Open the row of (`w`, `d`) in key order if it is missing, and add `t` to it. */
  function Post(rows: seq<UsageRow>, w: string, d: string, t: Tally): seq<UsageRow> {
    if rows == [] then [UsageRow(w, d, ZERO.Plus(t))]
    else if rows[0].workspace == w && rows[0].day == d then [rows[0].(tally := rows[0].tally.Plus(t))] + rows[1..]
    else if KeyBefore(w, d, rows[0].workspace, rows[0].day) then [UsageRow(w, d, ZERO.Plus(t))] + rows
    else [rows[0]] + Post(rows[1..], w, d, t)
  }

  lemma PlusZero(t: Tally)
    ensures ZERO.Plus(t) == t && t.Plus(ZERO) == t
  {
  }

  lemma PlusSwaps(a: Tally, b: Tally, c: Tally)
    ensures a.Plus(b).Plus(c) == a.Plus(c).Plus(b) == a.Plus(b.Plus(c))
    ensures a.Plus(b) == b.Plus(a)
  {
  }

  lemma SumCons(r: UsageRow, rows: seq<UsageRow>)
    ensures SumRows([r] + rows) == r.tally.Plus(SumRows(rows))
  {
    assert ([r] + rows)[1..] == rows;
  }

  lemma {:induction false} PostAdds(rows: seq<UsageRow>, w: string, d: string, t: Tally)
    ensures SumRows(Post(rows, w, d, t)) == SumRows(rows).Plus(t)
  {
    PlusZero(t);
    if rows == [] {
      SumCons(UsageRow(w, d, t), []);
      assert [UsageRow(w, d, t)] + [] == [UsageRow(w, d, t)];
    } else {
      var head, tail := rows[0], rows[1..];
      PlusSwaps(head.tally, SumRows(tail), t);
      if head.workspace == w && head.day == d {
        SumCons(head.(tally := head.tally.Plus(t)), tail);
      } else if KeyBefore(w, d, head.workspace, head.day) {
        SumCons(UsageRow(w, d, t), rows);
        PlusSwaps(t, SumRows(rows), ZERO);
      } else {
        SumCons(head, Post(tail, w, d, t));
        PostAdds(tail, w, d, t);
      }
    }
  }

  lemma {:induction false} PostKeys(rows: seq<UsageRow>, w: string, d: string, t: Tally, r: UsageRow)
    requires r in Post(rows, w, d, t)
    ensures (r.workspace == w && r.day == d) || r in rows
  {
    if rows != [] && r in Post(rows[1..], w, d, t) {
      PostKeys(rows[1..], w, d, t, r);
    }
  }

  lemma AscendCons(r: UsageRow, rows: seq<UsageRow>)
    requires RowsAscend(rows)
    requires forall s :: s in rows ==> KeyBefore(r.workspace, r.day, s.workspace, s.day)
    ensures RowsAscend([r] + rows)
  {
  }

  lemma {:induction false} PostAscends(rows: seq<UsageRow>, w: string, d: string, t: Tally)
    requires RowsAscend(rows)
    ensures RowsAscend(Post(rows, w, d, t))
  {
    if rows != [] {
      var head, tail := rows[0], rows[1..];
      KeyOrder(w, d, head.workspace, head.day);
      if head.workspace == w && head.day == d {
        AscendCons(head.(tally := head.tally.Plus(t)), tail);
      } else if KeyBefore(w, d, head.workspace, head.day) {
        forall s | s in rows
          ensures KeyBefore(w, d, s.workspace, s.day)
        {
          if s != head {
            KeyTransitive(UsageRow(w, d, ZERO.Plus(t)), head, s);
          }
        }
        AscendCons(UsageRow(w, d, ZERO.Plus(t)), rows);
      } else {
        PostAscends(tail, w, d, t);
        forall s | s in Post(tail, w, d, t)
          ensures KeyBefore(head.workspace, head.day, s.workspace, s.day)
        {
          PostKeys(tail, w, d, t, s);
        }
        AscendCons(head, Post(tail, w, d, t));
      }
    }
  }

  function Posted(rows: seq<UsageRow>, p: Option<UsageRow>): seq<UsageRow> {
    match p
    case Some(r) => Post(rows, r.workspace, r.day, r.tally)
    case None => rows
  }

  function Aggregated(events: seq<Event>): seq<UsageRow> {
    if events == [] then [] else Posted(Aggregated(events[..|events| - 1]), Posting(events[|events| - 1]))
  }

  lemma PostedAdds(rows: seq<UsageRow>, p: Option<UsageRow>)
    ensures SumRows(Posted(rows, p)) == SumRows(rows).Plus(Worth(p))
  {
    match p
    case Some(r) => PostAdds(rows, r.workspace, r.day, r.tally);
    case None => PlusZero(SumRows(rows));
  }

  /** Aggregation loses nothing: the rows sum to the direct sum over the events. */
  lemma {:induction false} AggregationConserves(events: seq<Event>)
    ensures SumRows(Aggregated(events)) == DirectSum(events)
  {
    if events != [] {
      AggregationConserves(events[..|events| - 1]);
      PostedAdds(Aggregated(events[..|events| - 1]), Posting(events[|events| - 1]));
    }
  }

  /** There is one row per workspace and day, in order. */
  lemma {:induction false} AggregationAscends(events: seq<Event>)
    ensures RowsAscend(Aggregated(events))
  {
    if events != [] {
      AggregationAscends(events[..|events| - 1]);
      var rows := Aggregated(events[..|events| - 1]);
      match Posting(events[|events| - 1]) {
        case Some(r) => PostAscends(rows, r.workspace, r.day, r.tally);
        case None =>
      }
    }
  }

  /** What one row holds for a workspace and day. */
  function At(r: UsageRow, w: string, d: string): Tally {
    if r.workspace == w && r.day == d then r.tally else ZERO
  }

  function RowsAt(rows: seq<UsageRow>, w: string, d: string): Tally {
    if rows == [] then ZERO else At(rows[0], w, d).Plus(RowsAt(rows[1..], w, d))
  }

  function PostingAt(p: Option<UsageRow>, w: string, d: string): Tally {
    if p.Some? then At(p.value, w, d) else ZERO
  }

  /** The direct sum over one workspace's events of one day. */
  function DirectSumAt(events: seq<Event>, w: string, d: string): Tally {
    if events == [] then ZERO
    else DirectSumAt(events[..|events| - 1], w, d).Plus(PostingAt(Posting(events[|events| - 1]), w, d))
  }

  lemma RowsAtCons(r: UsageRow, rows: seq<UsageRow>, w: string, d: string)
    ensures RowsAt([r] + rows, w, d) == At(r, w, d).Plus(RowsAt(rows, w, d))
  {
    assert ([r] + rows)[1..] == rows;
  }

  lemma AtBumped(r: UsageRow, t: Tally, w: string, d: string)
    ensures At(r.(tally := r.tally.Plus(t)), w, d) == At(r, w, d).Plus(At(r.(tally := t), w, d))
  {
    var bumped, fresh_ := r.(tally := r.tally.Plus(t)), r.(tally := t);
    if r.workspace == w && r.day == d {
      assert At(bumped, w, d) == r.tally.Plus(t) && At(r, w, d) == r.tally && At(fresh_, w, d) == t;
    } else {
      assert At(bumped, w, d) == ZERO && At(r, w, d) == ZERO && At(fresh_, w, d) == ZERO;
      PlusZero(ZERO);
    }
  }

  lemma {:induction false} PostAddsAt(rows: seq<UsageRow>, r: UsageRow, w: string, d: string)
    ensures RowsAt(Post(rows, r.workspace, r.day, r.tally), w, d) == RowsAt(rows, w, d).Plus(At(r, w, d))
  {
    PlusZero(r.tally);
    PlusZero(At(r, w, d));
    if rows == [] {
      RowsAtCons(r, [], w, d);
      assert [r] + [] == [r];
    } else {
      var head, tail := rows[0], rows[1..];
      PlusSwaps(At(head, w, d), RowsAt(tail, w, d), At(r, w, d));
      if head.workspace == r.workspace && head.day == r.day {
        RowsAtCons(head.(tally := head.tally.Plus(r.tally)), tail, w, d);
        AtBumped(head, r.tally, w, d);
      } else if KeyBefore(r.workspace, r.day, head.workspace, head.day) {
        RowsAtCons(r, rows, w, d);
        PlusSwaps(At(r, w, d), RowsAt(rows, w, d), ZERO);
      } else {
        RowsAtCons(head, Post(tail, r.workspace, r.day, r.tally), w, d);
        PostAddsAt(tail, r, w, d);
      }
    }
  }

  lemma PostedAddsAt(rows: seq<UsageRow>, p: Option<UsageRow>, w: string, d: string)
    ensures RowsAt(Posted(rows, p), w, d) == RowsAt(rows, w, d).Plus(PostingAt(p, w, d))
  {
    match p
    case Some(r) => PostAddsAt(rows, r, w, d);
    case None => PlusZero(RowsAt(rows, w, d));
  }

  /** Each row holds exactly its workspace's and its day's share. */
  lemma {:induction false} AggregationExact(events: seq<Event>, w: string, d: string)
    ensures RowsAt(Aggregated(events), w, d) == DirectSumAt(events, w, d)
  {
    if events != [] {
      AggregationExact(events[..|events| - 1], w, d);
      PostedAddsAt(Aggregated(events[..|events| - 1]), Posting(events[|events| - 1]), w, d);
    }
  }

  method AggregateUsage(events: seq<Event>) returns (rows: seq<UsageRow>)
    ensures rows == Aggregated(events)
  {
    rows := [];
    for i := 0 to |events|
      invariant rows == Aggregated(events[..i])
    {
      assert events[..i + 1][..i] == events[..i];
      var e := events[i];
      match DayOf(e.ts)
      case None =>
      case Some(day) =>
        match Charge(e.kind) {
          case None =>
          case Some(t) => rows := Post(rows, e.repo, day, t);
        }
    }
    assert events[..|events|] == events;
  }

  // ----------------------------------------------------- order of the events

  lemma PostHere(rows: seq<UsageRow>, w: string, d: string, t: Tally)
    requires rows != [] && rows[0].workspace == w && rows[0].day == d
    ensures Post(rows, w, d, t) == [rows[0].(tally := rows[0].tally.Plus(t))] + rows[1..]
  {
  }

  lemma PostBefore(rows: seq<UsageRow>, w: string, d: string, t: Tally)
    requires rows == [] || KeyBefore(w, d, rows[0].workspace, rows[0].day)
    ensures Post(rows, w, d, t) == [UsageRow(w, d, ZERO.Plus(t))] + rows
  {
    if rows != [] {
      KeyOrder(w, d, rows[0].workspace, rows[0].day);
    }
  }

  lemma PostAfter(rows: seq<UsageRow>, w: string, d: string, t: Tally)
    requires rows != [] && KeyBefore(rows[0].workspace, rows[0].day, w, d)
    ensures Post(rows, w, d, t) == [rows[0]] + Post(rows[1..], w, d, t)
  {
    KeyOrder(w, d, rows[0].workspace, rows[0].day);
  }

  /** Posting at two different keys, or twice at one, can be done in either order. */
  lemma {:induction false} PostsCommute(rows: seq<UsageRow>, a: UsageRow, b: UsageRow)
    requires !KeyBefore(b.workspace, b.day, a.workspace, a.day)
    ensures Post(Post(rows, a.workspace, a.day, a.tally), b.workspace, b.day, b.tally)
         == Post(Post(rows, b.workspace, b.day, b.tally), a.workspace, a.day, a.tally)
  {
    KeyOrder(a.workspace, a.day, b.workspace, b.day);
    if rows == [] || KeyBefore(b.workspace, b.day, rows[0].workspace, rows[0].day) {
      PostsBefore(rows, a, b);
    } else {
      var head, tail := rows[0], rows[1..];
      KeyOrder(a.workspace, a.day, head.workspace, head.day);
      KeyOrder(b.workspace, b.day, head.workspace, head.day);
      if KeyBefore(a.workspace, a.day, head.workspace, head.day) {
        PostsAround(rows, a, b);
      } else if head.workspace == a.workspace && head.day == a.day {
        PostsHere(rows, a, b);
      } else {
        if b.workspace != a.workspace || b.day != a.day {
          KeyTransitive(head, a, b);
        }
        PostsCommute(tail, a, b);
        PostAfter(rows, a.workspace, a.day, a.tally);
        PostAfter(rows, b.workspace, b.day, b.tally);
        PostAfter([head] + Post(tail, a.workspace, a.day, a.tally), b.workspace, b.day, b.tally);
        PostAfter([head] + Post(tail, b.workspace, b.day, b.tally), a.workspace, a.day, a.tally);
      }
    }
  }

  /** Neither key is reached yet. */
  lemma PostsBefore(rows: seq<UsageRow>, a: UsageRow, b: UsageRow)
    requires !KeyBefore(b.workspace, b.day, a.workspace, a.day)
    requires rows == [] || KeyBefore(b.workspace, b.day, rows[0].workspace, rows[0].day)
    ensures Post(Post(rows, a.workspace, a.day, a.tally), b.workspace, b.day, b.tally)
         == Post(Post(rows, b.workspace, b.day, b.tally), a.workspace, a.day, a.tally)
  {
    KeyOrder(a.workspace, a.day, b.workspace, b.day);
    if rows != [] && KeyBefore(a.workspace, a.day, b.workspace, b.day) {
      KeyTransitive(a, b, rows[0]);
    }
    PlusZero(a.tally);
    PlusZero(b.tally);
    PostBefore(rows, a.workspace, a.day, a.tally);
    PostBefore(rows, b.workspace, b.day, b.tally);
    if a.workspace == b.workspace && a.day == b.day {
      PlusSwaps(a.tally, b.tally, ZERO);
      PostHere([a] + rows, b.workspace, b.day, b.tally);
      PostHere([b] + rows, a.workspace, a.day, a.tally);
    } else {
      PostAfter([a] + rows, b.workspace, b.day, b.tally);
      PostBefore([b] + rows, a.workspace, a.day, a.tally);
      assert ([a] + rows)[1..] == rows;
    }
  }

  /** `a` comes before the first row, `b` does not. */
  lemma PostsAround(rows: seq<UsageRow>, a: UsageRow, b: UsageRow)
    requires rows != [] && KeyBefore(a.workspace, a.day, rows[0].workspace, rows[0].day)
    requires !KeyBefore(b.workspace, b.day, rows[0].workspace, rows[0].day)
    ensures Post(Post(rows, a.workspace, a.day, a.tally), b.workspace, b.day, b.tally)
         == Post(Post(rows, b.workspace, b.day, b.tally), a.workspace, a.day, a.tally)
  {
    var head := rows[0];
    KeyOrder(b.workspace, b.day, head.workspace, head.day);
    if b.workspace != head.workspace || b.day != head.day {
      KeyTransitive(a, head, b);
    }
    PlusZero(a.tally);
    PostBefore(rows, a.workspace, a.day, a.tally);
    PostAfter([a] + rows, b.workspace, b.day, b.tally);
    assert ([a] + rows)[1..] == rows;
    var posted := Post(rows, b.workspace, b.day, b.tally);
    assert posted[0].workspace == head.workspace && posted[0].day == head.day;
    PostBefore(posted, a.workspace, a.day, a.tally);
  }

  /** `a` is the first row's key, and `b` is that or later. */
  lemma PostsHere(rows: seq<UsageRow>, a: UsageRow, b: UsageRow)
    requires rows != [] && rows[0].workspace == a.workspace && rows[0].day == a.day
    requires !KeyBefore(b.workspace, b.day, a.workspace, a.day)
    ensures Post(Post(rows, a.workspace, a.day, a.tally), b.workspace, b.day, b.tally)
         == Post(Post(rows, b.workspace, b.day, b.tally), a.workspace, a.day, a.tally)
  {
    var head, tail := rows[0], rows[1..];
    KeyOrder(b.workspace, b.day, a.workspace, a.day);
    PlusSwaps(head.tally, a.tally, b.tally);
    PostHere(rows, a.workspace, a.day, a.tally);
    var bumped := head.(tally := head.tally.Plus(a.tally));
    assert ([bumped] + tail)[1..] == tail;
    if b.workspace == a.workspace && b.day == a.day {
      PostHere(rows, b.workspace, b.day, b.tally);
      PostHere([bumped] + tail, b.workspace, b.day, b.tally);
      PostHere([head.(tally := head.tally.Plus(b.tally))] + tail, a.workspace, a.day, a.tally);
    } else {
      PostAfter(rows, b.workspace, b.day, b.tally);
      PostAfter([bumped] + tail, b.workspace, b.day, b.tally);
      PostHere([head] + Post(tail, b.workspace, b.day, b.tally), a.workspace, a.day, a.tally);
    }
  }

  lemma PostedCommute(rows: seq<UsageRow>, p: Option<UsageRow>, q: Option<UsageRow>)
    ensures Posted(Posted(rows, p), q) == Posted(Posted(rows, q), p)
  {
    if p.Some? && q.Some? {
      KeyOrder(p.value.workspace, p.value.day, q.value.workspace, q.value.day);
      if KeyBefore(q.value.workspace, q.value.day, p.value.workspace, p.value.day) {
        PostsCommute(rows, q.value, p.value);
      } else {
        PostsCommute(rows, p.value, q.value);
      }
    }
  }

  lemma AggregatedOneMore(events: seq<Event>, e: Event)
    ensures Aggregated(events + [e]) == Posted(Aggregated(events), Posting(e))
  {
    assert (events + [e])[..|events|] == events;
  }

  lemma LastOfThree<T>(a: seq<T>, e: T, b: seq<T>)
    requires b != []
    ensures a + [e] + b == (a + [e] + b[..|b| - 1]) + [b[|b| - 1]]
    ensures a + b == (a + b[..|b| - 1]) + [b[|b| - 1]]
  {
    assert b == b[..|b| - 1] + [b[|b| - 1]];
  }

  /** An event may as well have come last. */
  lemma {:induction false} EventLast(a: seq<Event>, e: Event, b: seq<Event>)
    ensures Aggregated(a + [e] + b) == Posted(Aggregated(a + b), Posting(e))
    decreases |b|, 0
  {
    if b == [] {
      assert a + [e] + b == a + [e] && a + b == a;
      AggregatedOneMore(a, e);
    } else {
      LastOfThree(a, e, b);
      EventBeforeLast(a, e, b[..|b| - 1], b[|b| - 1]);
    }
  }

  lemma {:induction false} EventBeforeLast(a: seq<Event>, e: Event, b: seq<Event>, f: Event)
    ensures Aggregated((a + [e] + b) + [f]) == Posted(Aggregated((a + b) + [f]), Posting(e))
    decreases |b|, 1
  {
    EventLast(a, e, b);
    AggregatedOneMore(a + [e] + b, f);
    AggregatedOneMore(a + b, f);
    PostedCommute(Aggregated(a + b), Posting(e), Posting(f));
  }

  lemma Locate<T>(events: seq<T>, e: T) returns (a: seq<T>, b: seq<T>)
    requires e in events
    ensures events == a + [e] + b
  {
    var i :| 0 <= i < |events| && events[i] == e;
    a, b := events[..i], events[i + 1..];
  }

  lemma TakeOut<T>(init: seq<T>, e: T, a: seq<T>, b: seq<T>)
    requires multiset(init + [e]) == multiset(a + [e] + b)
    ensures multiset(init) == multiset(a + b)
  {
    assert multiset(init) == multiset(init + [e]) - multiset{e};
    assert multiset(a + b) == multiset(a) + multiset(b);
    assert multiset(a + [e] + b) == multiset(a) + multiset{e} + multiset(b);
  }

  /** The rows do not depend on the order of the events. */
  lemma {:induction false} AggregationIgnoresOrder(events: seq<Event>, other: seq<Event>)
    requires multiset(events) == multiset(other)
    ensures Aggregated(events) == Aggregated(other)
    decreases |events|
  {
    if events == [] {
      assert |multiset(other)| == 0;
    } else {
      var init, e := events[..|events| - 1], events[|events| - 1];
      assert events == init + [e];
      assert e in multiset(other);
      var a, b := Locate(other, e);
      TakeOut(init, e, a, b);
      AggregationIgnoresOrder(init, a + b);
      EventLast(a, e, b);
    }
  }

  // ----------------------------------------------------- adjacent windows

  function Window(events: seq<Event>, since: string, until: string): seq<Event> {
    if events == [] then []
    else
      var e := events[|events| - 1];
      Window(events[..|events| - 1], since, until) + if Selected(e.ts, since, until) then [e] else []
  }

  /** A window keeps each event it selects as often as it is there, and no other. */
  lemma {:induction false} WindowKeeps(events: seq<Event>, since: string, until: string, e: Event)
    ensures multiset(Window(events, since, until))[e] == if Selected(e.ts, since, until) then multiset(events)[e] else 0
  {
    if events != [] {
      var init, last := events[..|events| - 1], events[|events| - 1];
      WindowKeeps(init, since, until, e);
      assert events == init + [last];
    }
  }

  lemma DirectOneMore(events: seq<Event>, e: Event)
    ensures DirectSum(events + [e]) == DirectSum(events).Plus(Worth(Posting(e)))
  {
    assert (events + [e])[..|events|] == events;
  }

  function Counted(sum: Tally, e: Event, since: string, until: string): Tally {
    if Selected(e.ts, since, until) then sum.Plus(Worth(Posting(e))) else sum
  }

  lemma WindowOneMore(events: seq<Event>, since: string, until: string)
    requires events != []
    ensures DirectSum(Window(events, since, until))
         == Counted(DirectSum(Window(events[..|events| - 1], since, until)), events[|events| - 1], since, until)
  {
    var rest, e := Window(events[..|events| - 1], since, until), events[|events| - 1];
    if Selected(e.ts, since, until) {
      DirectOneMore(rest, e);
    } else {
      assert rest + [] == rest;
    }
  }

  lemma SelectedSplits(ts: string, a: string, b: string, c: string)
    requires !Before(b, a) && !Before(c, b)
    ensures Selected(ts, a, c) <==> Selected(ts, a, b) || Selected(ts, b, c)
    ensures !(Selected(ts, a, b) && Selected(ts, b, c))
  {
    BeforeTotal(a, b);
    BeforeTotal(b, c);
    BeforeTotal(ts, b);
    if Before(ts, b) && Before(b, c) {
      BeforeTransitive(ts, b, c);
    }
    if Before(ts, a) && Before(a, b) {
      BeforeTransitive(ts, a, b);
    }
    BeforeIrreflexive(b);
  }

  lemma CountedSplits(sum: Tally, sum': Tally, e: Event, a: string, b: string, c: string)
    requires !Before(b, a) && !Before(c, b)
    ensures Counted(sum.Plus(sum'), e, a, c) == Counted(sum, e, a, b).Plus(Counted(sum', e, b, c))
  {
    SelectedSplits(e.ts, a, b, c);
    var w := Worth(Posting(e));
    PlusSwaps(sum, sum', w);
    PlusSwaps(sum, w, sum');
  }

  /** Adjacent windows add up: nothing is counted in both and nothing in neither. */
  lemma {:induction false} WindowsAdd(events: seq<Event>, a: string, b: string, c: string)
    requires !Before(b, a) && !Before(c, b)
    ensures DirectSum(Window(events, a, c)) == DirectSum(Window(events, a, b)).Plus(DirectSum(Window(events, b, c)))
  {
    if events == [] {
      PlusZero(ZERO);
    } else {
      var init, e := events[..|events| - 1], events[|events| - 1];
      WindowsAdd(init, a, b, c);
      WindowOneMore(events, a, c);
      WindowOneMore(events, a, b);
      WindowOneMore(events, b, c);
      CountedSplits(DirectSum(Window(init, a, b)), DirectSum(Window(init, b, c)), e, a, b, c);
    }
  }
}
