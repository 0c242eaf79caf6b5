/** The clustered `Ownership`: a replica's in-memory mirror over the shared lease
    table.  `fault` stands for the database refusing the statement. */
module LeasedOwnership {
  import opened Common
  import opened Leases
  import SingleWriter
  import LeaseHazards

  class LeaseTable {
    var now: real
    var rows: Rows

    constructor ()
      ensures now == 0.0 && rows == map[]
    {
      now := 0.0;
      rows := map[];
    }
  }

  datatype Lease = Lease(key: Key, epoch: nat)

  class Ownership {
    const table: LeaseTable
    const id: Replica
    const ttl: real
    var held: map<Key, nat>

    constructor (table: LeaseTable, id: Replica, ttl: real)
      ensures this.table == table && this.id == id && this.ttl == ttl && held == map[]
    {
      this.table, this.id, this.ttl, held := table, id, ttl, map[];
    }

    /** Claim a free, expired or own key; the mirror follows the table. */
    method TryAcquire(k: Key, fault: bool) returns (lease: Option<Lease>)
      modifies this`held, table`rows
      ensures lease.Some? <==> !fault && Claimable(old(table.rows), id, k, table.now)
      ensures lease.Some? <==>
                && !fault
                && (k in old(table.rows) ==> old(table.rows)[k].expires < table.now || old(table.rows)[k].owner == id)
      ensures lease.Some? ==> table.rows == old(table.rows)[k := Row(id, lease.value.epoch, table.now + ttl)]
      ensures lease.Some? ==>
                && (k !in old(table.rows) ==> lease.value.epoch == 1)
                && (k in old(table.rows) && old(table.rows)[k].owner == id ==> lease.value.epoch == old(table.rows)[k].epoch)
                && (k in old(table.rows) && old(table.rows)[k].owner != id ==> lease.value.epoch == old(table.rows)[k].epoch + 1)
      ensures lease.Some? ==>
                && lease.value == Lease(k, ClaimedRow(old(table.rows), id, k, ttl, table.now).epoch)
                && held == old(held)[k := lease.value.epoch]
                && Renewable(table.rows, id, k, lease.value.epoch)
      ensures table.rows == if fault then old(table.rows) else ClaimRows(old(table.rows), id, k, ttl, table.now)
      ensures lease.None? ==> held == old(held) && table.rows == old(table.rows)
    {
      if fault || !Claimable(table.rows, id, k, table.now) {
        return None;
      }
      var row := ClaimedRow(table.rows, id, k, ttl, table.now);
      table.rows := table.rows[k := row];
      held := held[k := row.epoch];
      lease := Some(Lease(k, row.epoch));
    }

    /** Extend a lease still held at the same epoch; otherwise report it lost. */
    method Renew(lease: Lease, fault: bool) returns (ok: bool)
      modifies table`rows
      ensures ok <==> !fault && Renewable(old(table.rows), id, lease.key, lease.epoch)
      ensures ok <==>
                && !fault && lease.key in old(table.rows)
                && old(table.rows)[lease.key].owner == id && old(table.rows)[lease.key].epoch == lease.epoch
      ensures table.rows ==
                if ok then old(table.rows)[lease.key := Row(id, lease.epoch, table.now + ttl)] else old(table.rows)
      ensures table.rows ==
                if fault then old(table.rows)
                else RenewRows(old(table.rows), id, lease.key, lease.epoch, ttl, table.now)
    {
      if fault || !Renewable(table.rows, id, lease.key, lease.epoch) {
        return false;
      }
      table.rows := table.rows[lease.key := table.rows[lease.key].(expires := table.now + ttl)];
      ok := true;
    }

    /** Give the key up: the mirror forgets it even when the delete fails. */
    method Release(k: Key, fault: bool)
      modifies this`held, table`rows
      ensures held == old(held) - {k}
      ensures table.rows == if fault then old(table.rows) else ReleaseRows(old(table.rows), id, k)
      ensures table.rows ==
                if !fault && k in old(table.rows) && old(table.rows)[k].owner == id then old(table.rows) - {k} else old(table.rows)
    {
      held := held - {k};
      if !fault && k in table.rows && table.rows[k].owner == id {
        table.rows := table.rows - {k};
      }
    }

    /** Renew every held lease and drop the ones whose renewal fails, in whatever order
        the leases come; `faults` are the keys on which the database fails. */
    method Heartbeat(faults: set<Key>)
      modifies this`held, table`rows
      ensures table.rows == Renewed(old(table.rows), id, old(held), old(held).Keys, faults, ttl, table.now)
      ensures held == Kept(old(table.rows), id, old(held), old(held).Keys, faults)
      ensures table.rows.Keys == old(table.rows).Keys
      ensures forall k :: k in held <==>
                && k in old(held) && k !in faults && k in old(table.rows)
                && old(table.rows)[k].owner == id && old(table.rows)[k].epoch == old(held)[k]
      ensures forall k :: k in held ==>
                held[k] == old(held)[k] && table.rows[k] == Row(id, held[k], table.now + ttl)
      ensures forall k :: k in table.rows && k !in held ==> table.rows[k] == old(table.rows)[k]
    {
      var leases := held;
      var done: set<Key> := {};
      ghost var rows := table.rows;
      assert Renewed(rows, id, leases, done, faults, ttl, table.now) == rows;
      assert Kept(rows, id, leases, done, faults) == leases;
      while leases.Keys - done != {}
        invariant done <= leases.Keys
        invariant table.rows == Renewed(rows, id, leases, done, faults, ttl, table.now)
        invariant held == Kept(rows, id, leases, done, faults)
        decreases leases.Keys - done
      {
        var k :| k in leases.Keys - done;
        RenewOneMore(rows, id, leases, done, faults, k, ttl, table.now);
        var ok := Renew(Lease(k, leases[k]), k in faults);
        if !ok {
          held := held - {k};
        }
        done := done + {k};
      }
      assert done == leases.Keys;
    }
  }

  /** The table after the leases in `done` have been renewed. */
  function Renewed(rows: Rows, id: Replica, leases: map<Key, nat>, done: set<Key>, faults: set<Key>, ttl: real, now: real): Rows {
    map k | k in rows ::
      if k in done && k !in faults && k in leases && Renewable(rows, id, k, leases[k]) then rows[k].(expires := now + ttl) else rows[k]
  }

  /** The mirror after the lost ones among `done` have been dropped. */
  function Kept(rows: Rows, id: Replica, leases: map<Key, nat>, done: set<Key>, faults: set<Key>): map<Key, nat> {
    map k | k in leases && (k in done ==> k !in faults && Renewable(rows, id, k, leases[k])) :: leases[k]
  }

  lemma RenewOneMore(rows: Rows, id: Replica, leases: map<Key, nat>, done: set<Key>, faults: set<Key>, k: Key, ttl: real, now: real)
    requires k in leases && k !in done
    ensures
      var before := Renewed(rows, id, leases, done, faults, ttl, now);
      && (Renewable(before, id, k, leases[k]) <==> Renewable(rows, id, k, leases[k]))
      && Renewed(rows, id, leases, done + {k}, faults, ttl, now)
           == (if k in faults then before else RenewRows(before, id, k, leases[k], ttl, now))
      && Kept(rows, id, leases, done + {k}, faults) ==
           (if k !in faults && Renewable(rows, id, k, leases[k]) then Kept(rows, id, leases, done, faults)
            else Kept(rows, id, leases, done, faults) - {k})
  {
    var before := Renewed(rows, id, leases, done, faults, ttl, now);
    if k in faults {
      assert Renewed(rows, id, leases, done + {k}, faults, ttl, now) == before;
    } else {
      assert Renewed(rows, id, leases, done + {k}, faults, ttl, now) == RenewRows(before, id, k, leases[k], ttl, now);
      assert Renewable(rows, id, k, leases[k]) ==>
        Kept(rows, id, leases, done + {k}, faults) == Kept(rows, id, leases, done, faults);
    }
  }

  // --------------------------------- one pass as steps of the cluster machine

  function HeldAfter(rows: Rows, held: map<(Replica, Key), nat>, r: Replica, done: set<Key>, faults: set<Key>): map<(Replica, Key), nat> {
    map p | p in held && (p.0 == r && p.1 in done ==> p.1 !in faults && Renewable(rows, r, p.1, held[p])) :: held[p]
  }

  lemma HeldOneMore(rows: Rows, held: map<(Replica, Key), nat>, r: Replica, done: set<Key>, faults: set<Key>, k: Key)
    requires (r, k) in held
    ensures HeldAfter(rows, held, r, done + {k}, faults) ==
      if k !in faults && Renewable(rows, r, k, held[(r, k)]) then HeldAfter(rows, held, r, done, faults)
      else HeldAfter(rows, held, r, done, faults) - {(r, k)}
  {
  }

  lemma TodoOneMore(mine: map<Key, nat>, done: set<Key>, k: Key)
    ensures mine - done - {k} == mine - (done + {k})
  {
  }

  /** The cluster after the keys `done` of a heartbeat's snapshot were dealt with, the
      database failing on `faults`, and nothing else happened. */
  function AfterPass(c: SingleWriter.Config, s: SingleWriter.Cluster, r: Replica, done: set<Key>, faults: set<Key>): SingleWriter.Cluster {
    var mine := SingleWriter.Mine(s.held, r);
    s.(rows := Renewed(s.rows, r, mine, done, faults, c.ttl(r), s.now),
       held := HeldAfter(s.rows, s.held, r, done, faults),
       beats := s.beats[r := SingleWriter.Beat(mine - done, None)])
  }

  lemma PassStarts(c: SingleWriter.Config, s: SingleWriter.Cluster, r: Replica, faults: set<Key>)
    ensures AfterPass(c, s, r, {}, faults) == SingleWriter.SnapshotStep(s, r)
  {
    var mine := SingleWriter.Mine(s.held, r);
    assert Renewed(s.rows, r, mine, {}, faults, c.ttl(r), s.now) == s.rows;
    assert mine - {} == mine;
  }

  lemma BeatAgain(beats: map<Replica, SingleWriter.Beat>, r: Replica, b: SingleWriter.Beat, b': SingleWriter.Beat)
    ensures beats[r := b][r := b'] == beats[r := b']
  {
  }

  lemma RenewalDone(c: SingleWriter.Config, s: SingleWriter.Cluster, r: Replica, k: Key)
    requires r in s.beats && k in s.beats[r].todo && s.beats[r].lost.None? && Renewable(s.rows, r, k, s.beats[r].todo[k])
    ensures SingleWriter.RenewalStep(c, s, r, k, false) ==
      s.(rows := RenewRows(s.rows, r, k, s.beats[r].todo[k], c.ttl(r), s.now),
         beats := s.beats[r := SingleWriter.Beat(s.beats[r].todo - {k}, None)])
  {
  }

  lemma RenewalLost(c: SingleWriter.Config, s: SingleWriter.Cluster, r: Replica, k: Key, fault: bool)
    requires r in s.beats && k in s.beats[r].todo && s.beats[r].lost.None?
    requires fault || !Renewable(s.rows, r, k, s.beats[r].todo[k])
    ensures
      var failed := SingleWriter.RenewalStep(c, s, r, k, fault);
      && failed.beats[r].lost == Some(k)
      && SingleWriter.DropStep(failed, r) ==
           s.(held := s.held - {(r, k)}, beats := s.beats[r := SingleWriter.Beat(s.beats[r].todo - {k}, None)])
  {
  }

  /** A renewal that succeeds. */
  lemma PassRenews(c: SingleWriter.Config, s: SingleWriter.Cluster, r: Replica, done: set<Key>, faults: set<Key>, k: Key)
    requires k in SingleWriter.Mine(s.held, r) && k !in done && k !in faults && Renewable(s.rows, r, k, s.held[(r, k)])
    ensures SingleWriter.RenewalStep(c, AfterPass(c, s, r, done, faults), r, k, false) == AfterPass(c, s, r, done + {k}, faults)
  {
    var mine := SingleWriter.Mine(s.held, r);
    RenewOneMore(s.rows, r, mine, done, faults, k, c.ttl(r), s.now);
    TodoOneMore(mine, done, k);
    HeldOneMore(s.rows, s.held, r, done, faults, k);
    BeatAgain(s.beats, r, SingleWriter.Beat(mine - done, None), SingleWriter.Beat(mine - (done + {k}), None));
    RenewalDone(c, AfterPass(c, s, r, done, faults), r, k);
  }

  lemma LostOneMore(rows: Rows, r: Replica, mine: map<Key, nat>, done: set<Key>, faults: set<Key>, k: Key, ttl: real, now: real)
    requires k in mine && (k in faults || !Renewable(rows, r, k, mine[k]))
    ensures Renewed(rows, r, mine, done + {k}, faults, ttl, now) == Renewed(rows, r, mine, done, faults, ttl, now)
    ensures k in faults || !Renewable(Renewed(rows, r, mine, done, faults, ttl, now), r, k, mine[k])
  {
  }

  /** A renewal that fails, for either reason, and the drop that follows. */
  lemma PassDrops(c: SingleWriter.Config, s: SingleWriter.Cluster, r: Replica, done: set<Key>, faults: set<Key>, k: Key)
    requires k in SingleWriter.Mine(s.held, r) && k !in done && (k in faults || !Renewable(s.rows, r, k, s.held[(r, k)]))
    ensures
      var failed := SingleWriter.RenewalStep(c, AfterPass(c, s, r, done, faults), r, k, k in faults);
      failed.beats[r].lost == Some(k) && SingleWriter.DropStep(failed, r) == AfterPass(c, s, r, done + {k}, faults)
  {
    var mine := SingleWriter.Mine(s.held, r);
    LostOneMore(s.rows, r, mine, done, faults, k, c.ttl(r), s.now);
    TodoOneMore(mine, done, k);
    HeldOneMore(s.rows, s.held, r, done, faults, k);
    BeatAgain(s.beats, r, SingleWriter.Beat(mine - done, None), SingleWriter.Beat(mine - (done + {k}), None));
    RenewalLost(c, AfterPass(c, s, r, done, faults), r, k, k in faults);
  }

  function SetOf(keys: seq<Key>): set<Key> {
    set i | 0 <= i < |keys| :: keys[i]
  }

  lemma SetOfMore(keys: seq<Key>)
    requires keys != []
    ensures SetOf(keys) == SetOf(keys[..|keys| - 1]) + {keys[|keys| - 1]}
  {
    var init := keys[..|keys| - 1];
    forall k ensures k in SetOf(keys) <==> k in SetOf(init) + {keys[|keys| - 1]} {
      if k in SetOf(init) {
        var i :| 0 <= i < |init| && init[i] == k;
        assert keys[i] == k;
      }
      if k in SetOf(keys) && k != keys[|keys| - 1] {
        var i :| 0 <= i < |keys| && keys[i] == k;
        assert init[i] == k;
      }
    }
  }

  lemma PassStep(c: SingleWriter.Config, s: SingleWriter.Cluster, r: Replica, done: set<Key>, faults: set<Key>, k: Key, ops: seq<SingleWriter.Op>)
    returns (ops': seq<SingleWriter.Op>)
    requires LeaseHazards.Leads(c, s, ops, LeaseHazards.Dropping, AfterPass(c, s, r, done, faults))
    requires k in SingleWriter.Mine(s.held, r) && k !in done
    ensures LeaseHazards.Leads(c, s, ops', LeaseHazards.Dropping, AfterPass(c, s, r, done + {k}, faults))
  {
    var at := AfterPass(c, s, r, done, faults);
    assert at.beats[r] == SingleWriter.Beat(SingleWriter.Mine(s.held, r) - done, None) && k in at.beats[r].todo;
    LeaseHazards.Extend(c, s, ops, LeaseHazards.Dropping, at, SingleWriter.Renewal(r, k, k in faults));
    ops' := ops + [SingleWriter.Renewal(r, k, k in faults)];
    if k !in faults && Renewable(s.rows, r, k, s.held[(r, k)]) {
      PassRenews(c, s, r, done, faults, k);
    } else {
      PassDrops(c, s, r, done, faults, k);
      LeaseHazards.Extend(c, s, ops', LeaseHazards.Dropping, SingleWriter.RenewalStep(c, at, r, k, k in faults), SingleWriter.Drop(r));
      ops' := ops' + [SingleWriter.Drop(r)];
    }
  }

  /** An uninterrupted pass over a snapshot's keys, in any order and with any database
      failures, is a run of the cluster machine, step by step, to the state the heartbeat
      method leaves. */
  lemma {:induction false} PassIsItsSteps(c: SingleWriter.Config, s: SingleWriter.Cluster, r: Replica, keys: seq<Key>, faults: set<Key>)
    returns (ops: seq<SingleWriter.Op>)
    requires r in c.members && SingleWriter.Resting(s, r)
    requires forall i :: 0 <= i < |keys| ==> keys[i] in SingleWriter.Mine(s.held, r)
    requires forall i, j :: 0 <= i < j < |keys| ==> keys[i] != keys[j]
    ensures LeaseHazards.Leads(c, s, ops, LeaseHazards.Dropping, AfterPass(c, s, r, SetOf(keys), faults))
  {
    if keys == [] {
      assert LeaseHazards.Leads(c, s, [], LeaseHazards.Dropping, s);
      LeaseHazards.Extend(c, s, [], LeaseHazards.Dropping, s, SingleWriter.Snapshot(r));
      ops := [] + [SingleWriter.Snapshot(r)];
      assert SetOf(keys) == {};
      PassStarts(c, s, r, faults);
    } else {
      var init, k := keys[..|keys| - 1], keys[|keys| - 1];
      ops := PassIsItsSteps(c, s, r, init, faults);
      SetOfMore(keys);
      var done := SetOf(init);
      assert k !in done;
      ops := PassStep(c, s, r, done, faults, k, ops);
    }
  }

  /** That state is the one the method's contract gives: the renewed table, and in the
      replica's mirror what was kept. */
  lemma PassIsTheHeartbeat(c: SingleWriter.Config, s: SingleWriter.Cluster, r: Replica, faults: set<Key>)
    ensures
      var mine := SingleWriter.Mine(s.held, r);
      var end := AfterPass(c, s, r, mine.Keys, faults);
      && end.rows == Renewed(s.rows, r, mine, mine.Keys, faults, c.ttl(r), s.now)
      && SingleWriter.Mine(end.held, r) == Kept(s.rows, r, mine, mine.Keys, faults)
  {
    var mine := SingleWriter.Mine(s.held, r);
    var end := AfterPass(c, s, r, mine.Keys, faults);
    forall k
      ensures k in SingleWriter.Mine(end.held, r) <==> k in Kept(s.rows, r, mine, mine.Keys, faults)
    {
      assert k in mine <==> (r, k) in s.held;
      assert k in SingleWriter.Mine(end.held, r) <==> (r, k) in end.held;
    }
  }
}
