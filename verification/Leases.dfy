/** The lease table: one row per stream, and the three SQL statements that touch
    it.  Time is the database clock, in seconds, so every replica sees the same one.
 */
module Leases {
  type Key = string
  type Replica = string

  datatype Row = Row(owner: Replica, epoch: nat, expires: real)

  type Rows = map<Key, Row>

  /** Whether `INSERT .. ON CONFLICT DO UPDATE .. WHERE` touches a row: the key is
      free, its lease has run out, or it is already ours. */
  predicate Claimable(rows: Rows, r: Replica, k: Key, now: real) {
    k !in rows || rows[k].expires < now || rows[k].owner == r
  }

  /** The row a successful claim leaves behind. */
  function ClaimedRow(rows: Rows, r: Replica, k: Key, ttl: real, now: real): Row {
    var epoch :=
      if k !in rows then 1
      else if rows[k].owner == r then rows[k].epoch
      else rows[k].epoch + 1;
    Row(r, epoch, now + ttl)
  }

  function ClaimRows(rows: Rows, r: Replica, k: Key, ttl: real, now: real): Rows {
    if Claimable(rows, r, k, now) then rows[k := ClaimedRow(rows, r, k, ttl, now)] else rows
  }

  /** `UPDATE .. WHERE stream_key AND owner AND epoch`: whether it affects a row. */
  predicate Renewable(rows: Rows, r: Replica, k: Key, epoch: nat) {
    k in rows && rows[k].owner == r && rows[k].epoch == epoch
  }

  function RenewRows(rows: Rows, r: Replica, k: Key, epoch: nat, ttl: real, now: real): Rows {
    if Renewable(rows, r, k, epoch) then rows[k := rows[k].(expires := now + ttl)] else rows
  }

  /** `DELETE .. WHERE stream_key AND owner`. */
  function ReleaseRows(rows: Rows, r: Replica, k: Key): Rows {
    if k in rows && rows[k].owner == r then rows - {k} else rows
  }

  // ------------------------------------------------------------------ runs

  datatype Table = Table(now: real, rows: Rows)

  /** One statement by one replica, or the passing of time. */
  datatype Op =
    | Acquire(r: Replica, k: Key)
    | Renew(r: Replica, k: Key, epoch: nat)
    | Release(r: Replica, k: Key)
    | Advance(dt: real)

  function Apply(t: Table, op: Op, ttl: Replica -> real): Table {
    match op
    case Acquire(r, k) => t.(rows := ClaimRows(t.rows, r, k, ttl(r), t.now))
    case Renew(r, k, e) => t.(rows := RenewRows(t.rows, r, k, e, ttl(r), t.now))
    case Release(r, k) => t.(rows := ReleaseRows(t.rows, r, k))
    case Advance(dt) => t.(now := t.now + dt)
  }

  /** Whether the statement reports success to the replica that issued it. */
  predicate Succeeds(t: Table, op: Op) {
    match op
    case Acquire(r, k) => Claimable(t.rows, r, k, t.now)
    case Renew(r, k, e) => Renewable(t.rows, r, k, e)
    case _ => true
  }

  /** The table just before statement `n` of a run. */
  function At(t: Table, ops: seq<Op>, n: nat, ttl: Replica -> real): Table
    requires n <= |ops|
  {
    if n == 0 then t else Apply(At(t, ops, n - 1, ttl), ops[n - 1], ttl)
  }

  /** The clock never runs backwards. */
  predicate Forward(ops: seq<Op>) {
    forall i :: 0 <= i < |ops| && ops[i].Advance? ==> ops[i].dt >= 0.0
  }

  /** `op` grants or extends `r`'s lease on `k`. */
  predicate Grants(op: Op, r: Replica, k: Key) {
    op == Acquire(r, k) || (op.Renew? && op.r == r && op.k == k)
  }

  ghost predicate NotReleasedBy(ops: seq<Op>, from: nat, to: nat, r: Replica, k: Key)
    requires to <= |ops|
  {
    forall m :: from <= m < to ==> ops[m] != Release(r, k)
  }

  /** `r` still has a lease good until at least `until`, or `until` has passed. */
  ghost predicate HeldOrExpired(t: Table, r: Replica, k: Key, until: real) {
    (k in t.rows && t.rows[k].owner == r && t.rows[k].expires >= until) || t.now > until
  }

  lemma {:induction false} LeaseLasts(t: Table, ops: seq<Op>, i: nat, m: nat, r: Replica, k: Key, ttl: Replica -> real)
    requires i < m <= |ops| && Forward(ops)
    requires Grants(ops[i], r, k) && Succeeds(At(t, ops, i, ttl), ops[i])
    requires NotReleasedBy(ops, i, m, r, k)
    ensures At(t, ops, m, ttl).now >= At(t, ops, i, ttl).now
    ensures HeldOrExpired(At(t, ops, m, ttl), r, k, At(t, ops, i, ttl).now + ttl(r))
  {
    if m > i + 1 {
      LeaseLasts(t, ops, i, m - 1, r, k, ttl);
      assert ops[m - 1] != Release(r, k);
    }
  }

  /** Exclusion, over every run of any number of replicas: once `r` has been granted
      `k`, another replica's claim of `k` can only succeed after `r` released it or
      the clock passed that grant plus `r`'s own time to live.  `i` is any grant in
      the run, in particular the last before `j`. */
  lemma LeaseExclusion(t: Table, ops: seq<Op>, i: nat, j: nat, r: Replica, other: Replica, k: Key, ttl: Replica -> real)
    requires i < j < |ops| && Forward(ops) && r != other
    requires Grants(ops[i], r, k) && Succeeds(At(t, ops, i, ttl), ops[i])
    requires ops[j] == Acquire(other, k) && Succeeds(At(t, ops, j, ttl), ops[j])
    requires NotReleasedBy(ops, i, j, r, k)
    ensures At(t, ops, j, ttl).now > At(t, ops, i, ttl).now + ttl(r)
  {
    LeaseLasts(t, ops, i, j, r, k, ttl);
  }

  // ------------------------------------------------- the row, read off the run

  /** Statement `i` successfully acquired or renewed `k`, for whoever issued it. */
  ghost predicate Granted(t: Table, ops: seq<Op>, i: nat, k: Key, ttl: Replica -> real)
    requires i < |ops|
  {
    (ops[i].Acquire? || ops[i].Renew?) && ops[i].k == k && Succeeds(At(t, ops, i, ttl), ops[i])
  }

  /** Before statement `m`, the latest grant of `k` is statement `i`, and the replica it
      went to has not released it since. */
  ghost predicate Standing(t: Table, ops: seq<Op>, i: nat, m: nat, k: Key, ttl: Replica -> real)
    requires m <= |ops|
  {
    && i < m && Granted(t, ops, i, k, ttl)
    && forall n :: i < n < m ==> !Granted(t, ops, n, k, ttl) && ops[n] != Release(ops[i].r, k)
  }

  /** The instant a grant runs out: its own clock plus its replica's time to live. */
  function RunsOut(t: Table, ops: seq<Op>, i: nat, ttl: Replica -> real): real
    requires i < |ops| && !ops[i].Advance?
  {
    At(t, ops, i, ttl).now + ttl(ops[i].r)
  }

  /** The standing grant is the row: its replica owns it, and it expires exactly when
      the grant runs out, neither earlier nor later. */
  lemma {:induction false} StandingIsTheRow(t: Table, ops: seq<Op>, i: nat, m: nat, k: Key, ttl: Replica -> real)
    requires m <= |ops| && Standing(t, ops, i, m, k, ttl)
    ensures
      var rows := At(t, ops, m, ttl).rows;
      k in rows && rows[k].owner == ops[i].r && rows[k].expires == RunsOut(t, ops, i, ttl)
  {
    if i < m - 1 {
      StandingIsTheRow(t, ops, i, m - 1, k, ttl);
      assert !Granted(t, ops, m - 1, k, ttl) && ops[m - 1] != Release(ops[i].r, k);
    }
  }

  /** And over a run from an empty table every row is somebody's standing grant. */
  lemma {:induction false} RowStands(t: Table, ops: seq<Op>, m: nat, k: Key, ttl: Replica -> real) returns (i: nat)
    requires m <= |ops| && t.rows == map[] && k in At(t, ops, m, ttl).rows
    ensures Standing(t, ops, i, m, k, ttl)
  {
    if Granted(t, ops, m - 1, k, ttl) {
      i := m - 1;
    } else {
      i := RowStands(t, ops, m - 1, k, ttl);
      StandingIsTheRow(t, ops, i, m - 1, k, ttl);
    }
  }

  /** A claim of `k` succeeds exactly when no other replica's grant stands that has yet
      to run out: exclusion and failover in one.  In particular, once the clock is past
      the instant the last grant runs out, every replica's claim succeeds. */
  lemma ClaimSucceedsIff(t: Table, ops: seq<Op>, m: nat, q: Replica, k: Key, ttl: Replica -> real)
    requires m <= |ops| && t.rows == map[]
    ensures Succeeds(At(t, ops, m, ttl), Acquire(q, k)) <==>
            forall i :: 0 <= i < m && Standing(t, ops, i, m, k, ttl) ==>
              ops[i].r == q || RunsOut(t, ops, i, ttl) < At(t, ops, m, ttl).now
  {
    forall i | 0 <= i < m && Standing(t, ops, i, m, k, ttl)
      ensures
        var rows := At(t, ops, m, ttl).rows;
        k in rows && rows[k].owner == ops[i].r && rows[k].expires == RunsOut(t, ops, i, ttl)
    {
      StandingIsTheRow(t, ops, i, m, k, ttl);
    }
    if k in At(t, ops, m, ttl).rows {
      var i := RowStands(t, ops, m, k, ttl);
    }
  }

  /** The lease an acquisition hands out stays renewable at its epoch until its replica
      gives it up or another replica's claim succeeds; claiming it again changes nothing
      about that. */
  lemma {:induction false} LeaseStaysRenewable(t: Table, ops: seq<Op>, i: nat, m: nat, r: Replica, k: Key, ttl: Replica -> real)
    requires i < m <= |ops| && ops[i] == Acquire(r, k) && Succeeds(At(t, ops, i, ttl), ops[i])
    requires NotReleasedBy(ops, i, m, r, k)
    requires forall n :: i < n < m && Granted(t, ops, n, k, ttl) ==> ops[n].r == r
    ensures k in At(t, ops, i + 1, ttl).rows
    ensures Succeeds(At(t, ops, m, ttl), Renew(r, k, At(t, ops, i + 1, ttl).rows[k].epoch))
  {
    if i < m - 1 {
      LeaseStaysRenewable(t, ops, i, m - 1, r, k, ttl);
      assert ops[m - 1] != Release(r, k);
      assert Granted(t, ops, m - 1, k, ttl) ==> ops[m - 1].r == r;
    }
  }

  // --------------------------------------------------------------- fencing

  ghost predicate NeverReleased(ops: seq<Op>, from: nat, to: nat, k: Key)
    requires to <= |ops|
  {
    forall m :: from <= m < to ==> !(ops[m].Release? && ops[m].k == k)
  }

  /** `later` is the same lease as `earlier`, or a strictly higher-numbered one. */
  ghost predicate Fences(earlier: Row, later: Row) {
    later.epoch > earlier.epoch || (later.epoch == earlier.epoch && later.owner == earlier.owner)
  }

  lemma {:induction false} EpochsOnlyGrow(t: Table, ops: seq<Op>, i: nat, m: nat, k: Key, ttl: Replica -> real)
    requires i <= m <= |ops|
    requires k in At(t, ops, i, ttl).rows && NeverReleased(ops, i, m, k)
    ensures k in At(t, ops, m, ttl).rows
    ensures Fences(At(t, ops, i, ttl).rows[k], At(t, ops, m, ttl).rows[k])
  {
    if m > i {
      EpochsOnlyGrow(t, ops, i, m - 1, k, ttl);
      assert !(ops[m - 1].Release? && ops[m - 1].k == k);
    }
  }

  /** A takeover at `j` strictly raises the epoch, and from then on every attempt of
      the displaced replica to renew the lease it had fails, for as long as nobody
      releases the key. */
  lemma TakeoverFences(t: Table, ops: seq<Op>, j: nat, m: nat, r: Replica, other: Replica, k: Key, ttl: Replica -> real)
    requires j < m <= |ops| && r != other
    requires k in At(t, ops, j, ttl).rows && At(t, ops, j, ttl).rows[k].owner == r
    requires ops[j] == Acquire(other, k) && Succeeds(At(t, ops, j, ttl), ops[j])
    requires NeverReleased(ops, j + 1, m, k)
    ensures At(t, ops, j + 1, ttl).rows[k].owner == other
    ensures At(t, ops, j + 1, ttl).rows[k].epoch == At(t, ops, j, ttl).rows[k].epoch + 1
    ensures !Succeeds(At(t, ops, m, ttl), Renew(r, k, At(t, ops, j, ttl).rows[k].epoch))
  {
    EpochsOnlyGrow(t, ops, j + 1, m, k, ttl);
  }

  /** `release` deletes the row, so the epoch restarts at 1.  After a hand-off that
      goes through a release, a lease displaced long ago renews again: the fence
      above needs its no-release condition. */
  lemma ReleaseResetsTheFence(a: Replica, b: Replica, k: Key, ttl: Replica -> real)
    requires a != b && ttl(a) == 1.0
    ensures
      var ops := [Acquire(a, k), Advance(2.0), Acquire(b, k), Release(b, k), Acquire(a, k), Renew(a, k, 1)];
      var t := Table(0.0, map[]);
      && Succeeds(At(t, ops, 2, ttl), ops[2])
      && !Succeeds(At(t, ops, 3, ttl), Renew(a, k, 1))
      && Succeeds(At(t, ops, 5, ttl), ops[5])
  {
    var ops := [Acquire(a, k), Advance(2.0), Acquire(b, k), Release(b, k), Acquire(a, k), Renew(a, k, 1)];
    var t := Table(0.0, map[]);
    assert At(t, ops, 0, ttl) == t;
    assert At(t, ops, 1, ttl).rows[k] == Row(a, 1, 1.0);
    assert At(t, ops, 2, ttl).now == 2.0;
    assert At(t, ops, 3, ttl).rows[k].owner == b;
    assert k !in At(t, ops, 4, ttl).rows;
    assert At(t, ops, 5, ttl).rows[k].epoch == 1;
  }

  /** Statement `x` deletes the row of `k`. */
  ghost predicate Deletes(t: Table, ops: seq<Op>, x: nat, k: Key, ttl: Replica -> real)
    requires x < |ops|
  {
    ops[x].Release? && ops[x].k == k && k in At(t, ops, x, ttl).rows && k !in At(t, ops, x + 1, ttl).rows
  }

  /** A row is fenced by whatever stands there later, or it was deleted in between. */
  lemma {:induction false} FencedOrDeleted(t: Table, ops: seq<Op>, i: nat, m: nat, k: Key, ttl: Replica -> real) returns (x: nat)
    requires i <= m <= |ops| && k in At(t, ops, i, ttl).rows
    ensures (i <= x < m && Deletes(t, ops, x, k, ttl)) ||
            (k in At(t, ops, m, ttl).rows && Fences(At(t, ops, i, ttl).rows[k], At(t, ops, m, ttl).rows[k]))
  {
    x := i;
    if i < m {
      x := FencedOrDeleted(t, ops, i, m - 1, k, ttl);
      if !(i <= x < m - 1 && Deletes(t, ops, x, k, ttl)) && k !in At(t, ops, m, ttl).rows {
        x := m - 1;
      }
    }
  }

  /** A replica that owns a row which was not there before has claimed it since. */
  lemma {:induction false} ClaimedSince(t: Table, ops: seq<Op>, i: nat, m: nat, r: Replica, k: Key, ttl: Replica -> real) returns (y: nat)
    requires i <= m <= |ops| && k !in At(t, ops, i, ttl).rows
    requires k in At(t, ops, m, ttl).rows && At(t, ops, m, ttl).rows[k].owner == r
    ensures i <= y < m && ops[y] == Acquire(r, k) && Succeeds(At(t, ops, y, ttl), ops[y])
  {
    var before := At(t, ops, m - 1, ttl);
    if k in before.rows && before.rows[k].owner == r {
      y := ClaimedSince(t, ops, i, m - 1, r, k, ttl);
    } else {
      y := m - 1;
    }
  }

  /** A displaced lease renews again only after the key was released and its old owner
      claimed it anew, in that order. */
  lemma DisplacedRenewsOnlyAfter(t: Table, ops: seq<Op>, j: nat, m: nat, r: Replica, other: Replica, k: Key, ttl: Replica -> real)
    returns (x: nat, y: nat)
    requires j < m <= |ops| && r != other
    requires k in At(t, ops, j, ttl).rows && At(t, ops, j, ttl).rows[k].owner == r
    requires ops[j] == Acquire(other, k) && Succeeds(At(t, ops, j, ttl), ops[j])
    requires Succeeds(At(t, ops, m, ttl), Renew(r, k, At(t, ops, j, ttl).rows[k].epoch))
    ensures j < x < y < m && Deletes(t, ops, x, k, ttl)
    ensures ops[y] == Acquire(r, k) && Succeeds(At(t, ops, y, ttl), ops[y])
  {
    x := FencedOrDeleted(t, ops, j + 1, m, k, ttl);
    y := ClaimedSince(t, ops, x + 1, m, r, k, ttl);
  }
}
