/** The durable event log: what its rows are and what its queries mean. */
module EventLog {
  import opened Timestamps

  datatype AgentStatus = Spawning | Running | Idle | Killed | Done | Failed | Crashed {
    predicate IsTerminal() {
      this == Killed || this == Done || this == Failed || this == Crashed
    }
  }

  datatype EventKind =
    | AgentSpawned
    | AgentDiscovered
    | Output(chunk: string)
    | StatusChanged(from: AgentStatus, to: AgentStatus)
    | AgentFinished(costUsd: real, turns: nat)
    | AgentGone
    | StorePersistFailed(lost: nat)
    | DeadlineSet(deadline: string)
    | AgentTimedOut(deadline: string)
    | RepoHealth(healthy: bool)

  datatype Event = Event(no: nat, ts: string, repo: string, agent: string, kind: EventKind) {
    function Key(): string { StreamKeyFor(repo, agent) }
  }

  /** The ordered stream a (repo, agent) pair belongs to. */
  function StreamKeyFor(repo: string, agent: string): string {
    if agent != "" then agent else if repo != "" then "repo:" + repo else "fleet"
  }

  /** An agent id that cannot be mistaken for the key of a stream without an agent. */
  predicate Plain(agent: string) {
    agent != "fleet" && !("repo:" <= agent)
  }

  /** An agent's stream goes by its id, whatever its repo.  Two events share a stream
      exactly when they have the same agent or, without one, the same repo. */
  lemma SameStreamIff(repo: string, agent: string, repo': string, agent': string)
    requires Plain(agent) && Plain(agent')
    ensures agent != "" ==> StreamKeyFor(repo, agent) == agent
    ensures StreamKeyFor(repo, agent) == StreamKeyFor(repo', agent') <==> agent == agent' && (agent == "" ==> repo == repo')
  {
    if agent == "" && agent' == "" && repo != "" && repo' != "" {
      assert ("repo:" + repo)[5..] == repo && ("repo:" + repo')[5..] == repo';
    }
    assert repo != "" ==> ("repo:" + repo)[0] == 'r';
    assert repo' != "" ==> ("repo:" + repo')[0] == 'r';
  }

  /** One stored event and its fleet-wide cursor, the insertion ordinal. */
  datatype Row = Row(ordinal: nat, event: Event)

  type Rows = seq<Row>

  /** `UNIQUE(stream_key, seq)`. */
  ghost predicate UniqueSlots(rows: Rows) {
    forall i, j :: 0 <= i < j < |rows| ==>
      rows[i].event.Key() != rows[j].event.Key() || rows[i].event.no != rows[j].event.no
  }

  /** Rows in insertion order: the rowid only grows. */
  ghost predicate Ordered(rows: Rows) {
    forall i, j :: 0 <= i < j < |rows| ==> rows[i].ordinal < rows[j].ordinal
  }

  // ----------------------------------------------------------------- queries

  predicate Matches(e: Event, key: string, from: nat) {
    e.Key() == key && e.no >= from
  }

  ghost predicate Stores(rows: Rows, e: Event) {
    exists i :: 0 <= i < |rows| && rows[i].event == e
  }

  /** The event's slot, its stream and seq, is occupied. */
  ghost predicate Taken(rows: Rows, e: Event) {
    exists x :: Stores(rows, x) && x.Key() == e.Key() && x.no == e.no
  }

  ghost predicate Ascending(es: seq<Event>) {
    forall i, j :: 0 <= i < j < |es| ==> es[i].no < es[j].no
  }

  /** `ORDER BY seq`, one row at a time; equal seqs keep their order. */
  function InsertByNo(es: seq<Event>, e: Event): seq<Event> {
    if es != [] && es[|es| - 1].no > e.no then InsertByNo(es[..|es| - 1], e) + [es[|es| - 1]]
    else es + [e]
  }

  /** `SELECT .. WHERE stream_key AND seq >= from ORDER BY seq`. */
  function Replay(rows: Rows, key: string, from: nat): seq<Event> {
    if rows == [] then []
    else
      var earlier := Replay(rows[..|rows| - 1], key, from);
      var e := rows[|rows| - 1].event;
      if Matches(e, key, from) then InsertByNo(earlier, e) else earlier
  }

  /** `SELECT COALESCE(MAX(seq), 0)` over a stream. */
  function HighWater(rows: Rows, key: string): nat {
    if rows == [] then 0
    else
      var h := HighWater(rows[..|rows| - 1], key);
      var e := rows[|rows| - 1].event;
      if e.Key() == key && e.no > h then e.no else h
  }

  /** Rows after a cursor, oldest first, at most `limit`. */
  function ReplayFleet(rows: Rows, after: nat, limit: nat): Rows {
    Take(AfterCursor(rows, after), limit)
  }

  function AfterCursor(rows: Rows, after: nat): Rows {
    if rows == [] then []
    else
      var rest := AfterCursor(rows[..|rows| - 1], after);
      var row := rows[|rows| - 1];
      if row.ordinal > after then rest + [row] else rest
  }

  function Take(rows: Rows, limit: nat): Rows {
    if |rows| <= limit then rows else rows[..limit]
  }

  /** What `DELETE .. WHERE ts < before` leaves. */
  function Pruned(rows: Rows, before: string): Rows {
    if rows == [] then []
    else
      var rest := Pruned(rows[..|rows| - 1], before);
      var row := rows[|rows| - 1];
      if Before(row.event.ts, before) then rest else rest + [row]
  }

  // -------------------------------------------------------- their meaning

  lemma {:induction false} InsertSorts(es: seq<Event>, e: Event)
    requires Ascending(es) && forall i :: 0 <= i < |es| ==> es[i].no != e.no
    ensures Ascending(InsertByNo(es, e))
    ensures forall x :: x in InsertByNo(es, e) <==> x in es || x == e
  {
    if es != [] && es[|es| - 1].no > e.no {
      var last := es[|es| - 1];
      var init := es[..|es| - 1];
      assert es == init + [last];
      InsertSorts(init, e);
      var r := InsertByNo(init, e);
      forall i | 0 <= i < |r| ensures r[i].no < last.no {
        assert r[i] in r;
      }
    }
  }

  lemma LastStored(rows: Rows, e: Event)
    requires rows != []
    ensures Stores(rows, e) <==> Stores(rows[..|rows| - 1], e) || rows[|rows| - 1].event == e
  {
    var init := rows[..|rows| - 1];
    if Stores(rows, e) {
      var i :| 0 <= i < |rows| && rows[i].event == e;
      assert i < |init| ==> init[i].event == e;
    }
    if Stores(init, e) {
      var i :| 0 <= i < |init| && init[i].event == e;
      assert rows[i].event == e;
    }
  }

  /** Replay returns exactly the stream's stored events from a seq on, each once, in
      strictly increasing seq. */
  lemma {:induction false} ReplayExact(rows: Rows, key: string, from: nat)
    requires UniqueSlots(rows)
    ensures Ascending(Replay(rows, key, from))
    ensures forall e :: e in Replay(rows, key, from) <==> Stores(rows, e) && e.Key() == key && from <= e.no
  {
    if rows != [] {
      var init := rows[..|rows| - 1];
      var last := rows[|rows| - 1].event;
      ReplayExact(init, key, from);
      forall e ensures Stores(rows, e) <==> Stores(init, e) || last == e {
        LastStored(rows, e);
      }
      var earlier := Replay(init, key, from);
      if Matches(last, key, from) {
        forall i | 0 <= i < |earlier| ensures earlier[i].no != last.no {
          assert earlier[i] in earlier;
          var j :| 0 <= j < |init| && init[j].event == earlier[i];
          assert rows[j] == init[j];
        }
        InsertSorts(earlier, last);
      }
    }
  }

  lemma EmptyOrMember(a: seq<Event>)
    ensures a == [] || a[0] in a
  {
  }

  lemma SameLast(a: seq<Event>, b: seq<Event>)
    requires Ascending(a) && Ascending(b) && a != [] && b != []
    requires a[|a| - 1] in b && b[|b| - 1] in a
    ensures a[|a| - 1] == b[|b| - 1]
  {
    var i :| 0 <= i < |b| && b[i] == a[|a| - 1];
    var j :| 0 <= j < |a| && a[j] == b[|b| - 1];
  }

  lemma WithoutLast(a: seq<Event>, e: Event)
    requires Ascending(a) && a != []
    ensures e in a[..|a| - 1] <==> e in a && e != a[|a| - 1]
  {
    assert a == a[..|a| - 1] + [a[|a| - 1]];
  }

  /** A strictly increasing list is determined by its members. */
  lemma {:induction false} AscendingUnique(a: seq<Event>, b: seq<Event>)
    requires Ascending(a) && Ascending(b) && forall e :: e in a <==> e in b
    ensures a == b
    decreases |a|
  {
    if a == [] {
      EmptyOrMember(b);
    } else if b == [] {
      EmptyOrMember(a);
    } else {
      SameLast(a, b);
      var a', b' := a[..|a| - 1], b[..|b| - 1];
      forall e ensures e in a' <==> e in b' {
        WithoutLast(a, e);
        WithoutLast(b, e);
      }
      AscendingUnique(a', b');
      assert a == a' + [a[|a| - 1]] && b == b' + [b[|b| - 1]];
    }
  }

  /** The high-water is the largest surviving seq of the stream, 0 without one. */
  lemma {:induction false} HighWaterIsMax(rows: Rows, key: string)
    ensures forall e :: Stores(rows, e) && e.Key() == key ==> e.no <= HighWater(rows, key)
    ensures HighWater(rows, key) == 0 || exists e :: Stores(rows, e) && e.Key() == key && e.no == HighWater(rows, key)
  {
    if rows != [] {
      var init := rows[..|rows| - 1];
      var last := rows[|rows| - 1].event;
      HighWaterIsMax(init, key);
      forall e ensures Stores(rows, e) <==> Stores(init, e) || last == e {
        LastStored(rows, e);
      }
      if HighWater(rows, key) != 0 {
        if HighWater(rows, key) == HighWater(init, key) {
          var e :| Stores(init, e) && e.Key() == key && e.no == HighWater(init, key);
          assert Stores(rows, e);
        } else {
          assert Stores(rows, last) && last.Key() == key && last.no == HighWater(rows, key);
        }
      }
    }
  }

  /** Pruning keeps exactly the rows not before the bound. */
  lemma {:induction false} PruneExact(rows: Rows, before: string)
    ensures forall row :: row in Pruned(rows, before) <==> row in rows && !Before(row.event.ts, before)
  {
    if rows != [] {
      PruneExact(rows[..|rows| - 1], before);
      assert rows == rows[..|rows| - 1] + [rows[|rows| - 1]];
    }
  }

  /** Whatever survives a prune was there, in the same order. */
  lemma {:induction false} PrunedRowsFrom(rows: Rows, before: string, i: nat, j: nat) returns (k: nat, l: nat)
    requires i < j < |Pruned(rows, before)|
    ensures k < l < |rows| && rows[k] == Pruned(rows, before)[i] && rows[l] == Pruned(rows, before)[j]
  {
    var init := rows[..|rows| - 1];
    if j < |Pruned(init, before)| {
      k, l := PrunedRowsFrom(init, before, i, j);
    } else {
      PruneExact(init, before);
      assert Pruned(init, before)[i] in init;
      k :| 0 <= k < |init| && init[k] == Pruned(init, before)[i];
      l := |init|;
    }
  }

  /** It keeps their order and cursors, and no two of them share a slot. */
  lemma PruneKeepsTable(rows: Rows, before: string)
    requires Ordered(rows) && UniqueSlots(rows)
    ensures Ordered(Pruned(rows, before)) && UniqueSlots(Pruned(rows, before))
  {
    var rest := Pruned(rows, before);
    forall i, j | 0 <= i < j < |rest|
      ensures rest[i].ordinal < rest[j].ordinal
      ensures rest[i].event.Key() != rest[j].event.Key() || rest[i].event.no != rest[j].event.no
    {
      var k, l := PrunedRowsFrom(rows, before, i, j);
    }
  }

  lemma PrunedStores(rows: Rows, before: string, e: Event)
    ensures Stores(Pruned(rows, before), e) <==> Stores(rows, e) && !Before(e.ts, before)
  {
    var kept := Pruned(rows, before);
    PruneExact(rows, before);
    if i :| 0 <= i < |kept| && kept[i].event == e {
      assert kept[i] in rows;
      var j :| 0 <= j < |rows| && rows[j] == kept[i];
    }
    if Stores(rows, e) && !Before(e.ts, before) {
      var i :| 0 <= i < |rows| && rows[i].event == e;
      assert rows[i] in kept;
      var j :| 0 <= j < |kept| && kept[j] == rows[i];
    }
  }

  /** Some event at the stream's high-water survives the prune. */
  ghost predicate TopSurvives(rows: Rows, before: string, key: string) {
    exists e :: Stores(rows, e) && e.Key() == key && e.no == HighWater(rows, key) && !Before(e.ts, before)
  }

  /** Pruning never raises the high-water, and lowers it exactly when the newest event
      of the stream goes: a seq may then be handed out again. */
  lemma PruneLowersHighWater(rows: Rows, before: string, key: string)
    ensures HighWater(Pruned(rows, before), key) <= HighWater(rows, key)
    ensures HighWater(Pruned(rows, before), key) < HighWater(rows, key) <==> HighWater(rows, key) > 0 && !TopSurvives(rows, before, key)
  {
    var kept := Pruned(rows, before);
    HighWaterIsMax(kept, key);
    HighWaterIsMax(rows, key);
    forall e
      ensures Stores(kept, e) <==> Stores(rows, e) && !Before(e.ts, before)
    {
      PrunedStores(rows, before, e);
    }
  }

  // ------------------------------------------------------------- the table

  datatype Appended = Stored | SeqConflict | Refused

  /** The sqlite events table.  `fault` stands for the database refusing. */
  class SqliteStore {
    var rows: Rows
    var next: nat

    ghost predicate Valid()
      reads this
    {
      Ordered(rows) && UniqueSlots(rows) && forall i :: 0 <= i < |rows| ==> rows[i].ordinal < next
    }

    constructor ()
      ensures Valid() && rows == []
    {
      rows, next := [], 1;
    }

    /** Insert at the end, unless the stream already has an event at that seq. */
    method Append(e: Event, fault: bool) returns (r: Appended)
      requires Valid()
      modifies this
      ensures Valid()
      ensures r == Refused <==> fault
      ensures r == SeqConflict <==> !fault && Taken(old(rows), e)
      ensures r == Stored ==> rows == old(rows) + [Row(old(next), e)] && next == old(next) + 1
      ensures r != Stored ==> rows == old(rows) && next == old(next)
    {
      if fault {
        return Refused;
      }
      var i := 0;
      while i < |rows|
        invariant 0 <= i <= |rows|
        invariant forall j :: 0 <= j < i ==> rows[j].event.Key() != e.Key() || rows[j].event.no != e.no
      {
        if rows[i].event.Key() == e.Key() && rows[i].event.no == e.no {
          assert Stores(rows, rows[i].event);
          return SeqConflict;
        }
        i := i + 1;
      }
      rows := rows + [Row(next, e)];
      next := next + 1;
      r := Stored;
    }

    /** Delete by age; the count is what the caller reports. */
    method Prune(before: string) returns (removed: nat)
      requires Valid()
      modifies this`rows
      ensures Valid()
      ensures rows == Pruned(old(rows), before) && removed == |old(rows)| - |rows|
    {
      var kept: Rows := [];
      var i := 0;
      while i < |rows|
        invariant 0 <= i <= |rows| && rows == old(rows)
        invariant kept == Pruned(rows[..i], before) && |kept| <= i
      {
        assert rows[..i + 1][..i] == rows[..i];
        if !Before(rows[i].event.ts, before) {
          kept := kept + [rows[i]];
        }
        i := i + 1;
      }
      assert rows[..i] == rows;
      PruneExact(rows, before);
      PruneKeepsTable(rows, before);
      removed := |rows| - |kept|;
      forall k | 0 <= k < |kept| ensures kept[k].ordinal < next {
        assert kept[k] in rows;
      }
      rows := kept;
    }
  }
}
