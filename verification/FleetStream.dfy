/** The fleet-wide stream: bounded reads of the log after a cursor, repeated whenever
    the bus rings.  The bus only decides when to read, so a run is the list of reads
    it made: each the log as found, or a failure. */
module FleetStream {
  import opened Common
  import opened EventLog

  /** Events one store read may return. */
  const FLEET_BATCH: nat := 256

  datatype Tail = Tail(cursor: nat, out: Rows)

  /** What a read yields; a failed one counts as empty. */
  function Batch(read: Option<Rows>, cursor: nat): Rows {
    match read
    case None => []
    case Some(rows) => ReplayFleet(rows, cursor, FLEET_BATCH)
  }

  function Read(t: Tail, read: Option<Rows>): Tail {
    var batch := Batch(read, t.cursor);
    if batch == [] then t else Tail(batch[|batch| - 1].ordinal, t.out + batch)
  }

  function Reads(t: Tail, looks: seq<Option<Rows>>): Tail {
    if looks == [] then t else Read(Reads(t, looks[..|looks| - 1]), looks[|looks| - 1])
  }

  lemma ReadsStep(t: Tail, looks: seq<Option<Rows>>, i: nat)
    requires i < |looks|
    ensures Reads(t, looks[..i + 1]) == Read(Reads(t, looks[..i]), looks[i])
  {
    assert looks[..i + 1][..i] == looks[..i];
  }

  /** The innermost loop: every entry moves the cursor and is yielded. */
  method YieldBatch(batch: Rows, cursor: nat, out: Rows) returns (cursor': nat, out': Rows)
    ensures out' == out + batch
    ensures cursor' == if batch == [] then cursor else batch[|batch| - 1].ordinal
  {
    cursor', out' := cursor, out;
    for j := 0 to |batch|
      invariant out' == out + batch[..j]
      invariant cursor' == if j == 0 then cursor else batch[j - 1].ordinal
    {
      cursor' := batch[j].ordinal;
      out' := out' + [batch[j]];
    }
    assert batch[..|batch|] == batch;
  }

  /** The inner loop: read until a read comes back empty, or the bus closes. */
  method Drain(ghost start: Tail, t: Tail, looks: seq<Option<Rows>>, from: nat) returns (t': Tail, i: nat)
    requires from < |looks| && t == Reads(start, looks[..from])
    ensures from < i <= |looks| && t' == Reads(start, looks[..i])
  {
    t', i := t, from;
    var draining := true;
    while draining && i < |looks|
      invariant from <= i <= |looks| && (!draining ==> from < i)
      invariant t' == Reads(start, looks[..i])
      decreases |looks| - i, draining
    {
      ReadsStep(start, looks, i);
      var batch := Batch(looks[i], t'.cursor);
      if batch == [] {
        draining := false;
      } else {
        var cursor, out := YieldBatch(batch, t'.cursor, t'.out);
        t' := Tail(cursor, out);
      }
      i := i + 1;
    }
  }

  /** The stream's nested loops: drain until a read comes back empty, then wait for
      the bus; the bus closes when no reads are left. */
  method Follow(start: nat, looks: seq<Option<Rows>>) returns (cursor: nat, out: Rows)
    ensures Tail(cursor, out) == Reads(Tail(start, []), looks)
  {
    var t, i := Tail(start, []), 0;
    while i < |looks|
      invariant 0 <= i <= |looks| && t == Reads(Tail(start, []), looks[..i])
    {
      t, i := Drain(Tail(start, []), t, looks, i);
    }
    assert looks[..|looks|] == looks;
    cursor, out := t.cursor, t.out;
  }

  // ------------------------------------------------ against one ordered read

  /** The log entries with a cursor in (from, to]. */
  function Between(rows: Rows, from: nat, to: nat): Rows {
    if rows == [] then []
    else
      var rest := Between(rows[..|rows| - 1], from, to);
      var row := rows[|rows| - 1];
      if from < row.ordinal <= to then rest + [row] else rest
  }

  /** How many rows a cursor has passed. */
  function Passed(rows: Rows, cursor: nat): (n: nat)
    ensures n <= |rows|
  {
    if rows == [] then 0
    else Passed(rows[..|rows| - 1], cursor) + if rows[|rows| - 1].ordinal <= cursor then 1 else 0
  }

  lemma {:induction false} AllPassed(rows: Rows, cursor: nat)
    requires Ordered(rows) && (rows == [] || rows[|rows| - 1].ordinal <= cursor)
    ensures Passed(rows, cursor) == |rows|
  {
    if rows != [] {
      AllPassed(rows[..|rows| - 1], cursor);
    }
  }

  lemma {:induction false} PassedIsPrefix(rows: Rows, cursor: nat)
    requires Ordered(rows)
    ensures forall i :: 0 <= i < |rows| ==> (rows[i].ordinal <= cursor <==> i < Passed(rows, cursor))
  {
    if rows != [] {
      var init := rows[..|rows| - 1];
      PassedIsPrefix(init, cursor);
      assert forall i :: 0 <= i < |init| ==> rows[i] == init[i];
      if rows[|rows| - 1].ordinal <= cursor {
        AllPassed(init, cursor);
      }
    }
  }

  lemma BetweenOneMore(init: Rows, row: Row, from: nat, to: nat)
    ensures Between(init + [row], from, to) == Between(init, from, to) + if from < row.ordinal <= to then [row] else []
  {
    assert (init + [row])[..|init|] == init;
  }

  lemma PassedOneMore(init: Rows, row: Row, cursor: nat)
    ensures Passed(init + [row], cursor) == Passed(init, cursor) + if row.ordinal <= cursor then 1 else 0
  {
    assert (init + [row])[..|init|] == init;
  }

  lemma LastPassed(init: Rows, row: Row, cursor: nat)
    requires Ordered(init + [row])
    ensures row.ordinal <= cursor ==> Passed(init, cursor) == |init|
  {
    var rows := init + [row];
    assert rows[|init|] == row && forall i :: 0 <= i < |init| ==> rows[i] == init[i];
    if row.ordinal <= cursor {
      AllPassed(init, cursor);
    }
  }

  lemma AfterOneMore(init: Rows, row: Row, after: nat)
    ensures AfterCursor(init + [row], after) == AfterCursor(init, after) + if row.ordinal > after then [row] else []
  {
    assert (init + [row])[..|init|] == init;
  }

  lemma SuffixOneMore(init: Rows, row: Row, n: nat)
    requires n <= |init|
    ensures (init + [row])[n..] == init[n..] + [row]
    ensures n == |init| ==> (init + [row])[n + 1..] == init[n..] + []
  {
  }

  lemma SuffixStep(init: Rows, row: Row, after: nat)
    requires row.ordinal <= after ==> Passed(init, after) == |init|
    requires AfterCursor(init, after) == init[Passed(init, after)..]
    ensures var rows := init + [row]; AfterCursor(rows, after) == rows[Passed(rows, after)..]
  {
    AfterOneMore(init, row, after);
    PassedOneMore(init, row, after);
    SuffixOneMore(init, row, Passed(init, after));
  }

  lemma {:induction false} AfterIsSuffix(rows: Rows, after: nat)
    requires Ordered(rows)
    ensures AfterCursor(rows, after) == rows[Passed(rows, after)..]
  {
    if rows != [] {
      var init, row := rows[..|rows| - 1], rows[|rows| - 1];
      assert rows == init + [row];
      AfterIsSuffix(init, after);
      LastPassed(init, row, after);
      SuffixStep(init, row, after);
    }
  }

  lemma SliceOneMore(init: Rows, row: Row, a: nat, b: nat)
    requires a <= b <= |init|
    ensures (init + [row])[a..b] == init[a..b] + []
    ensures b == |init| ==> (init + [row])[a..b + 1] == init[a..b] + [row]
    ensures a == b == |init| ==> (init + [row])[a + 1..b + 1] == init[a..b] + []
  {
  }

  lemma SliceStep(init: Rows, row: Row, from: nat, to: nat)
    requires from <= to && Passed(init, from) <= Passed(init, to)
    requires row.ordinal <= from ==> Passed(init, from) == |init|
    requires row.ordinal <= to ==> Passed(init, to) == |init|
    requires Between(init, from, to) == init[Passed(init, from)..Passed(init, to)]
    ensures
      var rows := init + [row];
      && Passed(rows, from) <= Passed(rows, to)
      && Between(rows, from, to) == rows[Passed(rows, from)..Passed(rows, to)]
  {
    BetweenOneMore(init, row, from, to);
    PassedOneMore(init, row, from);
    PassedOneMore(init, row, to);
    SliceOneMore(init, row, Passed(init, from), Passed(init, to));
  }

  lemma {:induction false} BetweenIsSlice(rows: Rows, from: nat, to: nat)
    requires Ordered(rows) && from <= to
    ensures Passed(rows, from) <= Passed(rows, to)
    ensures Between(rows, from, to) == rows[Passed(rows, from)..Passed(rows, to)]
  {
    if rows != [] {
      var init, row := rows[..|rows| - 1], rows[|rows| - 1];
      assert rows == init + [row];
      BetweenIsSlice(init, from, to);
      LastPassed(init, row, from);
      LastPassed(init, row, to);
      SliceStep(init, row, from, to);
    }
  }

  /** Every successful read found an initial part of the log: entries are only added,
      at the end, and their ordinals were committed in order. */
  ghost predicate ReadsOf(looks: seq<Option<Rows>>, log: Rows) {
    && Ordered(log)
    && forall i :: 0 <= i < |looks| && looks[i].Some? ==> looks[i].value <= log
  }

  lemma PassedInPart(rows: Rows, log: Rows, cursor: nat)
    requires Ordered(log) && rows <= log
    ensures Ordered(rows) && Passed(rows, cursor) == if Passed(log, cursor) < |rows| then Passed(log, cursor) else |rows|
  {
    assert forall i :: 0 <= i < |rows| ==> rows[i] == log[i];
    PassedIsPrefix(log, cursor);
    PassedIsPrefix(rows, cursor);
    var n := Passed(rows, cursor);
    if n < |rows| { assert log[n] == rows[n]; }
    if n > 0 { assert log[n - 1] == rows[n - 1]; }
  }

  lemma PassedOwn(log: Rows, last: nat)
    requires Ordered(log) && last < |log|
    ensures Passed(log, log[last].ordinal) == last + 1
  {
    PassedIsPrefix(log, log[last].ordinal);
    if last + 1 < |log| { assert log[last].ordinal < log[last + 1].ordinal; }
  }

  /** A batch is the next stretch of what was read. */
  lemma BatchIsStretch(rows: Rows, cursor: nat)
    requires Ordered(rows)
    ensures
      var batch := Batch(Some(rows), cursor);
      var n := Passed(rows, cursor);
      n + |batch| <= |rows| && batch == rows[n..n + |batch|] && (batch == [] <==> n == |rows|)
  {
    AfterIsSuffix(rows, cursor);
  }

  /** A read returns all that is left after the cursor, up to 256 entries. */
  lemma BatchSize(rows: Rows, cursor: nat)
    requires Ordered(rows)
    ensures
      var left := |rows| - Passed(rows, cursor);
      |Batch(Some(rows), cursor)| == if left < 256 then left else 256
  {
    AfterIsSuffix(rows, cursor);
  }

  lemma BatchIsNext(rows: Rows, log: Rows, cursor: nat)
    requires Ordered(log) && rows <= log
    ensures
      var batch := Batch(Some(rows), cursor);
      var n := Passed(log, cursor);
      && (batch == [] <==> |rows| <= n)
      && (batch != [] ==> batch[|batch| - 1].ordinal > cursor
                          && n + |batch| == Passed(log, batch[|batch| - 1].ordinal)
                          && batch == log[n..n + |batch|])
  {
    PassedInPart(rows, log, cursor);
    BatchIsStretch(rows, cursor);
    var batch := Batch(Some(rows), cursor);
    if batch != [] {
      var n := Passed(log, cursor);
      var last := n + |batch| - 1;
      assert rows[n..n + |batch|] == log[n..n + |batch|];
      assert batch[|batch| - 1] == log[last];
      PassedOwn(log, last);
      PassedIsPrefix(log, cursor);
    }
  }

  lemma Stretches(log: Rows, a: nat, b: nat, c: nat)
    requires a <= b <= c <= |log|
    ensures log[a..b] + log[b..c] == log[a..c]
  {
  }

  lemma ReadKeepsSlice(t: Tail, rows: Rows, log: Rows, start: nat)
    requires Ordered(log) && rows <= log && start <= t.cursor
    requires t.out == Between(log, start, t.cursor)
    ensures
      var t' := Read(t, Some(rows));
      start <= t'.cursor && t'.out == Between(log, start, t'.cursor)
  {
    var batch := Batch(Some(rows), t.cursor);
    BatchIsNext(rows, log, t.cursor);
    if batch != [] {
      var cursor := batch[|batch| - 1].ordinal;
      BetweenIsSlice(log, start, t.cursor);
      BetweenIsSlice(log, start, cursor);
      Stretches(log, Passed(log, start), Passed(log, t.cursor), Passed(log, cursor));
    }
  }

  /** The fleet stream refines one ordered read: at every moment, across batch
      boundaries, failed reads and missed bells, what a client has received is exactly
      the log's entries with a cursor in (start, cursor], once each and in order. */
  lemma {:induction false} FollowIsOneRead(start: nat, looks: seq<Option<Rows>>, log: Rows)
    requires ReadsOf(looks, log)
    ensures
      var t := Reads(Tail(start, []), looks);
      start <= t.cursor && t.out == Between(log, start, t.cursor)
  {
    if looks == [] {
      BetweenIsSlice(log, start, start);
    } else {
      var init, look := looks[..|looks| - 1], looks[|looks| - 1];
      FollowIsOneRead(start, init, log);
      if look.Some? {
        ReadKeepsSlice(Reads(Tail(start, []), init), look.value, log, start);
      }
    }
  }

  lemma ReadsOneMore(t: Tail, looks: seq<Option<Rows>>, look: Option<Rows>)
    ensures Reads(t, looks + [look]) == Read(Reads(t, looks), look)
  {
    assert (looks + [look])[..|looks|] == looks;
  }

  /** A drain that ends in a successful empty read has left nothing behind: the
      client has every entry of that log after its start. */
  lemma DrainIsComplete(start: nat, looks: seq<Option<Rows>>, log: Rows)
    requires ReadsOf(looks, log)
    requires Batch(Some(log), Reads(Tail(start, []), looks).cursor) == []
    ensures Reads(Tail(start, []), looks + [Some(log)]).out == AfterCursor(log, start)
  {
    var t := Reads(Tail(start, []), looks);
    ReadsOneMore(Tail(start, []), looks, Some(log));
    FollowIsOneRead(start, looks, log);
    BatchIsNext(log, log, t.cursor);
    BetweenIsSlice(log, start, t.cursor);
    AfterIsSuffix(log, start);
    assert Passed(log, t.cursor) == |log|;
  }

  lemma StretchHolds(look: Rows, n: nat, batch: Rows, cursor: nat, row: Row)
    requires Ordered(look) && batch != [] && n + |batch| <= |look| && batch == look[n..n + |batch|]
    requires forall i :: 0 <= i < |look| ==> (look[i].ordinal <= cursor <==> i < n)
    ensures
      && Ordered(batch)
      && (row in batch ==> cursor < row.ordinal <= batch[|batch| - 1].ordinal)
      && (row in look && cursor < row.ordinal <= batch[|batch| - 1].ordinal ==> row in batch)
      && batch[|batch| - 1].ordinal <= look[|look| - 1].ordinal
  {
    assert forall i :: 0 <= i < |batch| ==> batch[i] == look[n + i];
    if row in look && cursor < row.ordinal <= batch[|batch| - 1].ordinal {
      var k :| 0 <= k < |look| && look[k] == row;
      assert n <= k < n + |batch|;
      assert batch[k - n] == row;
    }
  }

  /** A batch is a stretch of the read, past the old cursor and up to the new one. */
  lemma BatchHolds(look: Rows, cursor: nat, row: Row)
    requires Ordered(look) && Batch(Some(look), cursor) != []
    ensures var batch := Batch(Some(look), cursor);
      && Ordered(batch)
      && (row in batch ==> cursor < row.ordinal <= batch[|batch| - 1].ordinal)
      && (row in look && cursor < row.ordinal <= batch[|batch| - 1].ordinal ==> row in batch)
      && batch[|batch| - 1].ordinal <= look[|look| - 1].ordinal
  {
    var n := Passed(look, cursor);
    BatchIsStretch(look, cursor);
    PassedIsPrefix(look, cursor);
    StretchHolds(look, n, Batch(Some(look), cursor), cursor, row);
  }

  /** Cursors only move forward, and everything a read adds lies past the cursor. */
  lemma ReadMovesForward(t: Tail, look: Option<Rows>)
    requires look.Some? ==> Ordered(look.value)
    ensures t.cursor <= Read(t, look).cursor
    ensures forall row :: row in Read(t, look).out ==> row in t.out || row.ordinal > t.cursor
  {
    if look.Some? && Batch(look, t.cursor) != [] {
      BatchIsNext(look.value, look.value, t.cursor);
      forall row | row in Batch(look, t.cursor) ensures row.ordinal > t.cursor {
        BatchHolds(look.value, t.cursor, row);
      }
    }
  }

  /** Why ordinals must commit in order: an entry that appears with an ordinal the
      client's cursor has already passed is never delivered by any later read. */
  lemma {:induction false} LateOrdinalIsMissed(t: Tail, looks: seq<Option<Rows>>, row: Row)
    requires row !in t.out && row.ordinal <= t.cursor
    requires forall i :: 0 <= i < |looks| && looks[i].Some? ==> Ordered(looks[i].value)
    ensures t.cursor <= Reads(t, looks).cursor && row !in Reads(t, looks).out
  {
    if looks != [] {
      LateOrdinalIsMissed(t, looks[..|looks| - 1], row);
      ReadMovesForward(Reads(t, looks[..|looks| - 1]), looks[|looks| - 1]);
    }
  }

  // ---------------------------------------------- when rows are pruned meanwhile

  ghost predicate AllOrdered(looks: seq<Option<Rows>>) {
    forall i :: 0 <= i < |looks| && looks[i].Some? ==> Ordered(looks[i].value)
  }

  /** A read that has got as far as `row` shows it: `row` was committed in order and is
      not pruned. */
  ghost predicate ShownBy(look: Option<Rows>, row: Row) {
    look.Some? && look.value != [] && row.ordinal <= look.value[|look.value| - 1].ordinal ==> row in look.value
  }

  ghost predicate Shown(looks: seq<Option<Rows>>, row: Row) {
    forall i :: 0 <= i < |looks| ==> ShownBy(looks[i], row)
  }

  lemma OrderedJoin(a: Rows, b: Rows, cursor: nat)
    requires Ordered(a) && Ordered(b)
    requires (forall row :: row in a ==> row.ordinal <= cursor) && (forall row :: row in b ==> cursor < row.ordinal)
    ensures Ordered(a + b)
  {
    forall i, j | 0 <= i < j < |a + b|
      ensures (a + b)[i].ordinal < (a + b)[j].ordinal
    {
      if i < |a| <= j {
        assert a[i] in a && b[j - |a|] in b;
      }
    }
  }

  /** However rows are pruned between reads, what a client has received is in order, once
      each, and within (start, cursor]. */
  lemma {:induction false} DeliveredInOrder(start: nat, looks: seq<Option<Rows>>)
    requires AllOrdered(looks)
    ensures
      var t := Reads(Tail(start, []), looks);
      Ordered(t.out) && start <= t.cursor && forall row :: row in t.out ==> start < row.ordinal <= t.cursor
  {
    if looks != [] {
      var init, look := looks[..|looks| - 1], looks[|looks| - 1];
      DeliveredInOrder(start, init);
      var t := Reads(Tail(start, []), init);
      var batch := Batch(look, t.cursor);
      if batch != [] {
        forall row ensures row in batch ==> t.cursor < row.ordinal <= batch[|batch| - 1].ordinal {
          BatchHolds(look.value, t.cursor, row);
        }
        BatchHolds(look.value, t.cursor, batch[|batch| - 1]);
        OrderedJoin(t.out, batch, t.cursor);
      }
    }
  }

  /** And an entry that is not pruned has been received exactly when the cursor is past it. */
  lemma {:induction false} SurvivorsAreDelivered(start: nat, looks: seq<Option<Rows>>, row: Row)
    requires AllOrdered(looks) && Shown(looks, row)
    ensures
      var t := Reads(Tail(start, []), looks);
      row in t.out <==> start < row.ordinal <= t.cursor
  {
    DeliveredInOrder(start, looks);
    if looks != [] {
      var init, look := looks[..|looks| - 1], looks[|looks| - 1];
      SurvivorsAreDelivered(start, init, row);
      var t := Reads(Tail(start, []), init);
      if Batch(look, t.cursor) != [] {
        assert ShownBy(look, row);
        BatchHolds(look.value, t.cursor, row);
      }
    }
  }

  /** After a drain that ends on a successful empty read, every entry of that read that was
      not missing from an earlier one has been received. */
  lemma DrainedToTheEnd(start: nat, looks: seq<Option<Rows>>, last: Rows, row: Row)
    requires AllOrdered(looks) && Shown(looks, row) && Ordered(last)
    requires Batch(Some(last), Reads(Tail(start, []), looks).cursor) == [] && row in last && start < row.ordinal
    ensures row in Reads(Tail(start, []), looks).out
  {
    var t := Reads(Tail(start, []), looks);
    SurvivorsAreDelivered(start, looks, row);
    BatchIsNext(last, last, t.cursor);
    PassedIsPrefix(last, t.cursor);
    var k :| 0 <= k < |last| && last[k] == row;
    assert last[k].ordinal <= t.cursor;
  }
}
