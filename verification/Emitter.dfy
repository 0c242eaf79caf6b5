/** The emitter itself, one call at a time over the events table, with other
    replicas appending between its statements. */
module Emitter {
  import opened Common
  import opened EventLog

  /** What the outside does while one event is sequenced and appended: the rows other
      replicas get in just before attempt `n`, whether the database refuses that attempt,
      and whether the high-water read before attempt `n` fails. */
  datatype World = World(rivals: nat -> seq<Event>, faults: nat -> bool, blind: nat -> bool)

  ghost predicate Climbing(tries: seq<Try>) {
    forall i, j :: 0 <= i < j < |tries| ==> tries[i].no < tries[j].no
  }

  /** The reads before attempts 1 up to `n` succeed. */
  ghost predicate Sighted(world: World, n: nat) {
    forall m :: 1 <= m <= n ==> !world.blind(m)
  }

  // -------------------------------------------------- what an append loop met

  /** One attempt: the seq it tried, and the table it found. */
  datatype Try = Try(no: nat, table: Rows)

  /** One append loop: the event it was given and its attempts. */
  datatype Account = Account(event: Event, tries: seq<Try>) {
    /** The event as the loop left it. */
    function Final(): Event
      requires tries != []
    {
      event.(no := tries[|tries| - 1].no)
    }

    /** The table its last attempt found. */
    function Last(): Rows
      requires tries != []
    {
      tries[|tries| - 1].table
    }
  }

  /** `later` is `rows` and one row of `e` behind it. */
  ghost predicate Appends(rows: Rows, later: Rows, e: Event) {
    rows <= later && |later| == |rows| + 1 && later[|rows|].event == e
  }

  /** One replica's append: a row at the end, unless the slot is occupied. */
  ghost predicate Offered(earlier: Rows, later: Rows, e: Event) {
    if Taken(earlier, e) then later == earlier else Appends(earlier, later, e)
  }

  /** Other replicas appended these, one after another. */
  ghost predicate Grew(earlier: Rows, later: Rows, rivals: seq<Event>)
    decreases |rivals|
  {
    if rivals == [] then later == earlier
    else
      var init, last := rivals[..|rivals| - 1], rivals[|rivals| - 1];
      exists mid :: Grew(earlier, mid, init) && Offered(mid, later, last)
  }

  /** The table before the rivals of the next attempt. */
  function Before(rows: Rows, tries: seq<Try>): Rows {
    if tries == [] then rows else tries[|tries| - 1].table
  }

  /** Attempt `m` was let through and found its seq taken. */
  ghost predicate Conflict(event: Event, world: World, tries: seq<Try>, m: nat)
    requires m < |tries|
  {
    !world.faults(m) && Taken(tries[m].table, event.(no := tries[m].no))
  }

  /** The attempts, one after another: between two of them only the rivals of the later
      one append. */
  ghost predicate Met(rows: Rows, event: Event, world: World, tries: seq<Try>)
    decreases |tries|, 0
  {
    && tries != []
    && var init, last := tries[..|tries| - 1], tries[|tries| - 1];
    && MayTry(rows, event, world, init, last.no)
    && Grew(Before(rows, init), last.table, world.rivals(|init|))
  }

  /** The seq of the next attempt: the event's own at first, and after a conflict the
      successor of the high-water of the table that the conflict was met in. */
  ghost predicate MayTry(rows: Rows, event: Event, world: World, tries: seq<Try>, no: nat)
    decreases |tries|, 1
  {
    if tries == [] then no == event.no
    else
      && Met(rows, event, world, tries) && Conflict(event, world, tries, |tries| - 1)
      && no == 1 + if world.blind(|tries|) then 0 else HighWater(tries[|tries| - 1].table, event.Key())
  }

  /** The last attempt met a database that answers and a free slot. */
  ghost predicate Persisted(a: Account, world: World)
    requires a.tries != []
  {
    !world.faults(|a.tries| - 1) && !Taken(a.Last(), a.Final())
  }

  /** A loop's account is true of a run from `rows`, and it ended for a reason: the event
      was stored, the database refused, or nine seqs in a row were taken. */
  ghost predicate Tells(a: Account, rows: Rows, world: World) {
    && Met(rows, a.event, world, a.tries) && |a.tries| <= SEQ_CONFLICT_RETRIES + 1
    && (Persisted(a, world) || world.faults(|a.tries| - 1) || |a.tries| == SEQ_CONFLICT_RETRIES + 1)
  }

  /** What is stored stays stored while the table grows. */
  lemma Outlives(rows: Rows, later: Rows)
    requires rows <= later
    ensures forall e :: Stores(rows, e) ==> Stores(later, e)
  {
    forall e | Stores(rows, e)
      ensures Stores(later, e)
    {
      var i :| 0 <= i < |rows| && rows[i].event == e;
      assert later[i].event == e;
    }
  }

  lemma TakenOutlives(rows: Rows, later: Rows, e: Event)
    requires rows <= later && Taken(rows, e)
    ensures Taken(later, e)
  {
    Outlives(rows, later);
  }

  lemma OfferedAdds(earlier: Rows, later: Rows, e: Event)
    requires Offered(earlier, later, e)
    ensures earlier <= later && Taken(later, e)
    ensures forall i :: |earlier| <= i < |later| ==> later[i].event == e
  {
    if !Taken(earlier, e) {
      assert Stores(later, e);
    }
  }

  /** They only add rows, and only their own: each of their slots is occupied now. */
  lemma {:induction false} GrewAdds(earlier: Rows, later: Rows, rivals: seq<Event>)
    requires Grew(earlier, later, rivals)
    ensures earlier <= later
    ensures forall i :: |earlier| <= i < |later| ==> later[i].event in rivals
    ensures forall i :: 0 <= i < |rivals| ==> Taken(later, rivals[i])
    decreases |rivals|
  {
    if rivals != [] {
      var init, last := rivals[..|rivals| - 1], rivals[|rivals| - 1];
      var mid: Rows :| Grew(earlier, mid, init) && Offered(mid, later, last);
      GrewAdds(earlier, mid, init);
      OfferedAdds(mid, later, last);
      forall i | 0 <= i < |rivals|
        ensures Taken(later, rivals[i])
      {
        if i < |init| {
          TakenOutlives(mid, later, init[i]);
        }
      }
      forall i | |earlier| <= i < |later|
        ensures later[i].event in rivals
      {
        if i < |mid| {
          assert mid[i].event in init && later[i] == mid[i];
        }
      }
    }
  }

  lemma {:induction false} MetUpTo(rows: Rows, event: Event, world: World, tries: seq<Try>, n: nat)
    requires Met(rows, event, world, tries) && 0 < n <= |tries|
    ensures Met(rows, event, world, tries[..n])
    decreases |tries|
  {
    if n == |tries| {
      assert tries[..n] == tries;
    } else {
      var init := tries[..|tries| - 1];
      MetUpTo(rows, event, world, init, n);
      assert init[..n] == tries[..n];
    }
  }

  /** Attempt by attempt: every later one follows a conflict, tries the successor of the
      high-water that the conflict left behind (or 1 if it could not be read), and finds
      that table and its rivals' rows. */
  lemma MetAt(rows: Rows, event: Event, world: World, tries: seq<Try>, m: nat)
    requires Met(rows, event, world, tries) && m < |tries|
    ensures Grew(Before(rows, tries[..m]), tries[m].table, world.rivals(m))
    ensures m == 0 ==> tries[m].no == event.no
    ensures m > 0 ==>
              && Conflict(event, world, tries, m - 1)
              && tries[m].no == 1 + if world.blind(m) then 0 else HighWater(tries[m - 1].table, event.Key())
  {
    MetUpTo(rows, event, world, tries, m + 1);
    var upTo := tries[..m + 1];
    assert upTo[..m] == tries[..m] && upTo[m] == tries[m];
    if m > 0 {
      assert tries[..m][m - 1] == tries[m - 1];
    }
  }

  lemma AttemptMade(rows: Rows, event: Event, world: World, tries: seq<Try>, no: nat, found: Rows)
    requires MayTry(rows, event, world, tries, no) && Grew(Before(rows, tries), found, world.rivals(|tries|))
    ensures Met(rows, event, world, tries + [Try(no, found)])
  {
    var more := tries + [Try(no, found)];
    assert more[..|tries|] == tries;
  }

  /** What stands in a table is not above its high-water. */
  lemma NotAbove(rows: Rows, i: nat)
    requires i < |rows|
    ensures rows[i].event.no <= HighWater(rows, rows[i].event.Key())
  {
    HighWaterIsMax(rows, rows[i].event.Key());
    assert Stores(rows, rows[i].event);
  }

  /** A retry that could read the high-water is above the seq that was taken. */
  lemma RetryIsHigher(rows: Rows, event: Event, world: World, tries: seq<Try>, m: nat)
    requires Met(rows, event, world, tries) && 0 < m < |tries| && !world.blind(m)
    ensures tries[m - 1].no < tries[m].no
  {
    MetAt(rows, event, world, tries, m);
    HighWaterIsMax(tries[m - 1].table, event.Key());
  }

  lemma {:induction false} RetriesClimb(rows: Rows, event: Event, world: World, tries: seq<Try>, i: nat, j: nat)
    requires Met(rows, event, world, tries) && i < j < |tries| && Sighted(world, j)
    ensures tries[i].no < tries[j].no
  {
    RetryIsHigher(rows, event, world, tries, j);
    if i < j - 1 {
      RetriesClimb(rows, event, world, tries, i, j - 1);
    }
  }

  lemma LoopEnds(rows: Rows, a: Account, world: World)
    requires Met(rows, a.event, world, a.tries) && |a.tries| <= SEQ_CONFLICT_RETRIES + 1
    requires Persisted(a, world) || world.faults(|a.tries| - 1) || |a.tries| == SEQ_CONFLICT_RETRIES + 1
    ensures Tells(a, rows, world) && a.tries[0].no == a.event.no
    ensures Sighted(world, |a.tries| - 1) ==> Climbing(a.tries)
  {
    MetAt(rows, a.event, world, a.tries, 0);
    if Sighted(world, |a.tries| - 1) {
      forall i, j | 0 <= i < j < |a.tries|
        ensures a.tries[i].no < a.tries[j].no
      {
        RetriesClimb(rows, a.event, world, a.tries, i, j);
      }
    }
  }

  /** Whoever occupies a slot above the high-water of before came with the rivals. */
  lemma TakenByARival(was: Rows, now: Rows, rivals: seq<Event>, e: Event)
    requires Grew(was, now, rivals) && Taken(now, e) && e.no > HighWater(was, e.Key())
    ensures exists x :: x in rivals && x.Key() == e.Key() && x.no == e.no
  {
    GrewAdds(was, now, rivals);
    var x :| Stores(now, x) && x.Key() == e.Key() && x.no == e.no;
    var i :| 0 <= i < |now| && now[i].event == x;
    if i < |was| {
      NotAbove(was, i);
      assert false;
    }
    assert now[i].event in rivals;
  }

  /** A later attempt that could read the high-water conflicts only because a rival took
      its very seq just before it. */
  lemma ConflictIsARival(rows: Rows, event: Event, world: World, tries: seq<Try>, m: nat)
    requires Met(rows, event, world, tries) && 0 < m < |tries|
    requires !world.blind(m) && Conflict(event, world, tries, m)
    ensures exists x :: x in world.rivals(m) && x.Key() == event.Key() && x.no == tries[m].no
  {
    MetAt(rows, event, world, tries, m);
    assert Before(rows, tries[..m]) == tries[m - 1].table;
    TakenByARival(tries[m - 1].table, tries[m].table, world.rivals(m), event.(no := tries[m].no));
  }

  /** Nothing and nobody gets in the way. */
  ghost predicate Quiet(world: World) {
    forall m :: !world.faults(m) && !world.blind(m) && world.rivals(m) == []
  }

  /** Undisturbed, a loop needs at most a second attempt, and stores the event. */
  lemma QuietLoop(rows: Rows, a: Account, world: World)
    requires Tells(a, rows, world)
    ensures Quiet(world) ==> |a.tries| <= 2 && Persisted(a, world)
  {
    if Quiet(world) {
      if |a.tries| > 2 {
        MetAt(rows, a.event, world, a.tries, 2);
      }
      if |a.tries| >= 2 && Conflict(a.event, world, a.tries, 1) {
        assert !world.blind(1) && world.rivals(1) == [];
        ConflictIsARival(rows, a.event, world, a.tries, 1);
      }
      assert !world.faults(|a.tries| - 1);
    }
  }

  /** Other replicas append theirs, as far as the slots are free. */
  method Interfere(store: SqliteStore, rivals: seq<Event>)
    requires store.Valid()
    modifies store
    ensures store.Valid() && Grew(old(store.rows), store.rows, rivals) && old(store.rows) <= store.rows
  {
    for i := 0 to |rivals|
      invariant store.Valid() && Grew(old(store.rows), store.rows, rivals[..i]) && old(store.rows) <= store.rows
    {
      ghost var was := store.rows;
      var r := store.Append(rivals[i], false);
      assert Offered(was, store.rows, rivals[i]);
      assert rivals[..i + 1][..i] == rivals[..i];
    }
    assert rivals[..|rivals|] == rivals;
  }

  /** One attempt: the rivals come first, then the append meets the table they left.
      `rows` and `tries` are where the loop started and what it did so far. */
  method Attempt(store: SqliteStore, e: Event, world: World, n: nat, ghost rows: Rows, ghost event: Event, ghost tries: seq<Try>)
    returns (r: Appended, ghost a: Account)
    requires store.Valid() && rows <= store.rows && store.rows == Before(rows, tries) && n == |tries|
    requires MayTry(rows, event, world, tries, e.no) && e == event.(no := e.no)
    modifies store
    ensures store.Valid() && rows <= store.rows
    ensures a.event == event && |a.tries| == n + 1 && Met(rows, event, world, a.tries) && a.Final() == e
    ensures r == Refused <==> world.faults(n)
    ensures r == Stored <==> Persisted(a, world)
    ensures r == SeqConflict ==> Conflict(event, world, a.tries, n)
    ensures if r == Stored then Appends(a.Last(), store.rows, e) else store.rows == a.Last()
  {
    Interfere(store, world.rivals(n));
    AttemptMade(rows, event, world, tries, e.no, store.rows);
    a := Account(event, tries + [Try(e.no, store.rows)]);
    r := store.Append(e, world.faults(n));
  }

  lemma SetAgain(seqs: map<string, nat>, key: string, no: nat, again: nat)
    ensures seqs[key := no][key := again] == seqs[key := again]
  {
  }

  class EventEmitter {
    const store: SqliteStore
    var seqs: map<string, nat>
    var appended: nat
    var failed: nat

    constructor (store: SqliteStore)
      ensures this.store == store && seqs == map[] && appended == failed == 0
    {
      this.store, seqs, appended, failed := store, map[], 0, 0;
    }

    /** The first lock section: bump a counter that is already there. */
    method TakeCached(key: string) returns (no: Option<nat>)
      modifies this`seqs
      ensures no == if key in old(seqs) then Some(old(seqs)[key] + 1) else None
      ensures seqs == if key in old(seqs) then old(seqs)[key := old(seqs)[key] + 1] else old(seqs)
    {
      if key !in seqs {
        return None;
      }
      no := Some(seqs[key] + 1);
      seqs := seqs[key := seqs[key] + 1];
    }

    /** The second lock section: another task may have seeded the counter since, and
        then what was read is ignored. */
    method TakeSeeded(key: string, seeded: nat) returns (no: nat)
      modifies this`seqs
      ensures no == 1 + if key in old(seqs) then old(seqs)[key] else seeded
      ensures seqs == old(seqs)[key := no]
    {
      no := if key in seqs then seqs[key] + 1 else seeded + 1;
      seqs := seqs[key := no];
    }

    /** The cached counter's successor, or the durable high-water's on a stream's
        first event; a failed read counts as an empty stream. */
    method NextSeq(key: string, fault: bool) returns (no: nat)
      modifies this`seqs
      ensures no == 1 + if key in old(seqs) then old(seqs)[key] else if fault then 0 else HighWater(store.rows, key)
      ensures seqs == old(seqs)[key := no]
    {
      var cached := TakeCached(key);
      if cached.Some? {
        return cached.value;
      }
      no := TakeSeeded(key, if fault then 0 else HighWater(store.rows, key));
    }

    /** `reseed_seq`: forget the counter, so that the next seq comes from the log. */
    method ReseedSeq(key: string)
      modifies this`seqs
      ensures seqs == old(seqs) - {key}
    {
      seqs := seqs - {key};
    }

    /** A fresh seq after a conflict: past everything the stream has durably, whatever the
        counter said, unless the read fails. */
    method Resequence(key: string, fault: bool) returns (no: nat)
      modifies this`seqs
      ensures no == 1 + if fault then 0 else HighWater(store.rows, key)
      ensures !fault ==> forall i :: 0 <= i < |store.rows| && store.rows[i].event.Key() == key ==> store.rows[i].event.no < no
      ensures seqs == old(seqs)[key := no]
    {
      ReseedSeq(key);
      no := NextSeq(key, fault);
      forall i | 0 <= i < |store.rows| && store.rows[i].event.Key() == key
        ensures store.rows[i].event.no <= HighWater(store.rows, key)
      {
        NotAbove(store.rows, i);
      }
    }

    /** The seq of the attempt after a conflict. */
    method NextAttempt(event: Event, world: World, n: nat, ghost rows: Rows, ghost tries: seq<Try>) returns (no: nat)
      requires 0 < |tries| == n && store.rows == Before(rows, tries)
      requires Met(rows, event, world, tries) && Conflict(event, world, tries, n - 1)
      modifies this`seqs
      ensures MayTry(rows, event, world, tries, no)
      ensures seqs == old(seqs)[event.Key() := no]
    {
      no := Resequence(event.Key(), world.blind(n));
    }

    /** Append, moving to a fresh seq each time another replica took this one: at
        most nine attempts, each strictly above the last unless a high-water read failed.
        It succeeds exactly when the last attempt is let through and finds its slot free;
        only a refusal makes it give up before the ninth conflict. */
    method AppendWithSeqRetry(event: Event, world: World) returns (final: Event, ok: bool, ghost a: Account)
      requires store.Valid()
      modifies this`seqs, store
      ensures store.Valid() && old(store.rows) <= store.rows
      ensures a.event == event && Tells(a, old(store.rows), world) && final == a.Final() && a.tries[0].no == event.no
      ensures Sighted(world, |a.tries| - 1) ==> Climbing(a.tries)
      ensures ok <==> Persisted(a, world)
      ensures if ok then Appends(a.Last(), store.rows, final) else store.rows == a.Last()
      ensures |a.tries| == 1 ==> seqs == old(seqs)
      ensures |a.tries| > 1 ==> seqs == old(seqs)[event.Key() := final.no]
    {
      var key := event.Key();
      final, a := event, Account(event, []);
      var attempts := 0;
      while true
        invariant store.Valid() && old(store.rows) <= store.rows
        invariant a.event == event && |a.tries| == attempts <= SEQ_CONFLICT_RETRIES
        invariant MayTry(old(store.rows), event, world, a.tries, final.no) && final == event.(no := final.no)
        invariant store.rows == Before(old(store.rows), a.tries)
        invariant attempts == 0 ==> seqs == old(seqs)
        invariant attempts > 0 ==> seqs == old(seqs)[key := final.no]
        decreases SEQ_CONFLICT_RETRIES - attempts
      {
        var r;
        r, a := Attempt(store, final, world, attempts, old(store.rows), event, a.tries);
        if r == Stored {
          ok := true;
          break;
        }
        if r == Refused || attempts >= SEQ_CONFLICT_RETRIES {
          ok := false;
          break;
        }
        attempts := attempts + 1;
        var no := NextAttempt(event, world, attempts, old(store.rows), a.tries);
        SetAgain(old(seqs), key, final.no, no);
        final := final.(no := no);
      }
      LoopEnds(old(store.rows), a, world);
    }

    /** The first half of an emission: the next seq of the stream, the append loop, and the
        counter that its outcome moves. */
    method Record(repo: string, agent: string, kind: EventKind, ts: string, world: World)
      returns (event: Event, ok: bool, ghost a: Account)
      requires store.Valid()
      modifies this, store
      ensures store.Valid() && old(store.rows) <= store.rows
      ensures a.event == Event(a.event.no, ts, repo, agent, kind)
      ensures a.event.no ==
              1 + if a.event.Key() in old(seqs) then old(seqs)[a.event.Key()]
                  else if world.blind(0) then 0 else HighWater(old(store.rows), a.event.Key())
      ensures Tells(a, old(store.rows), world) && event == a.Final()
      ensures ok <==> Persisted(a, world)
      ensures appended == old(appended) + (if ok then 1 else 0) && failed == old(failed) + (if ok then 0 else 1)
      ensures if ok then Appends(a.Last(), store.rows, event) else store.rows == a.Last()
      ensures seqs == old(seqs)[a.event.Key() := event.no]
    {
      var no := NextSeq(StreamKeyFor(repo, agent), world.blind(0));
      event, ok, a := AppendWithSeqRetry(Event(no, ts, repo, agent, kind), world);
      assert a.event.Key() == StreamKeyFor(repo, agent);
      if ok {
        appended := appended + 1;
      } else {
        failed := failed + 1;
      }
    }

    /** Sequence, persist and publish one event.  Every call publishes the event at its
        final seq.  Exactly when its append loop could not persist it, the call goes on to
        the marker naming the lost seq, sequenced right behind it, and publishes that too
        whether or not it could be persisted.  Each loop adds one to one counter. */
    method Emit(repo: string, agent: string, kind: EventKind, ts: string, own: World, marker: World)
      returns (published: seq<Event>, ghost o: Account, ghost g: Account)
      requires store.Valid()
      modifies this, store
      ensures store.Valid() && old(store.rows) <= store.rows
      ensures o.event == Event(o.event.no, ts, repo, agent, kind)
      ensures o.event.no ==
              1 + if o.event.Key() in old(seqs) then old(seqs)[o.event.Key()]
                  else if own.blind(0) then 0 else HighWater(old(store.rows), o.event.Key())
      ensures Tells(o, old(store.rows), own)
      ensures 1 <= |published| <= 2 && published[0] == o.Final()
      ensures |published| == 1 <==> Persisted(o, own)
      ensures |published| == 1 ==>
                && appended == old(appended) + 1 && failed == old(failed)
                && Appends(o.Last(), store.rows, published[0])
      ensures |published| == 2 ==>
                && g.event == Event(published[0].no + 1, ts, repo, agent, StorePersistFailed(published[0].no))
                && Tells(g, o.Last(), marker)
                && published[1] == g.Final()
      ensures |published| == 2 && Persisted(g, marker) ==>
                && appended == old(appended) + 1 && failed == old(failed) + 1
                && Appends(g.Last(), store.rows, published[1])
      ensures |published| == 2 && !Persisted(g, marker) ==>
                && appended == old(appended) && failed == old(failed) + 2
                && store.rows == g.Last()
      ensures seqs == old(seqs)[o.event.Key() := published[|published| - 1].no]
      ensures Quiet(own) ==> |published| == 1
    {
      var event, ok;
      event, ok, o := Record(repo, agent, kind, ts, own);
      g := o;
      QuietLoop(old(store.rows), o, own);
      published := [event];
      if ok {
        return;
      }
      var gap, saved;
      gap, saved, g := Record(repo, agent, StorePersistFailed(event.no), ts, marker);
      published := published + [gap];
    }
  }
}
