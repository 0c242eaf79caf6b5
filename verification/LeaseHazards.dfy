/** Why each guard of the single-writer result is needed, and what the timing has to be. */
module LeaseHazards {
  import opened Common
  import Leases
  import opened SingleWriter

  type Key = Leases.Key
  type Replica = Leases.Replica

  datatype Kind = Nothing | Forgetting | Deleting | Dropping

  predicate IsKind(op: Op, kind: Kind) {
    match kind
    case Nothing => false
    case Forgetting => op.Forget?
    case Deleting => op.Delete?
    case Dropping => op.Drop?
  }

  /** A run in which every step passes its guard, except steps of one kind. */
  ghost predicate GuardedBut(c: Config, s: Cluster, ops: seq<Op>, kind: Kind)
    requires Allowed(c, s, ops)
    decreases |ops|
  {
    ops == [] ||
    ((IsKind(ops[0], kind) || Guard(c, s, ops[0])) && GuardedBut(c, Apply(c, s, ops[0]), ops[1..], kind))
  }

  /** The run `ops` leads from `from` to `s`. */
  ghost predicate Leads(c: Config, from: Cluster, ops: seq<Op>, kind: Kind, s: Cluster) {
    Allowed(c, from, ops) && GuardedBut(c, from, ops, kind) && Run(c, from, ops) == s
  }

  lemma {:induction false} Extend(c: Config, from: Cluster, ops: seq<Op>, kind: Kind, s: Cluster, op: Op)
    requires Leads(c, from, ops, kind, s) && Enabled(c, s, op) && (IsKind(op, kind) || Guard(c, s, op))
    ensures Leads(c, from, ops + [op], kind, Apply(c, s, op))
    decreases |ops|
  {
    if ops == [] {
      assert ops + [op] == [op];
    } else {
      Extend(c, Apply(c, from, ops[0]), ops[1..], kind, s, op);
      assert (ops + [op])[1..] == ops[1..] + [op];
    }
  }

  /** The effect of an uninterrupted attach (check, claim, mirror, register) that succeeds. */
  function Attached(c: Config, s: Cluster, t: TaskId, r: Replica, k: Key): Cluster {
    var row := Leases.ClaimedRow(s.rows, r, k, c.ttl(r), s.now);
    s.(rows := s.rows[k := row], held := s.held[(r, k) := row.epoch],
       attached := s.attached + {(r, k)}, tasks := s.tasks[t := Task(r, k, Running)])
  }

  /** The effect of the first half: the claim has just been granted. */
  function JustGranted(c: Config, s: Cluster, t: TaskId, r: Replica, k: Key): Cluster {
    var row := Leases.ClaimedRow(s.rows, r, k, c.ttl(r), s.now);
    s.(rows := s.rows[k := row], tasks := s.tasks[t := Task(r, k, Granted(row.epoch))])
  }

  lemma ClaimLeads(c: Config, from: Cluster, ops: seq<Op>, kind: Kind, s: Cluster, t: TaskId, r: Replica, k: Key)
    requires Leads(c, from, ops, kind, s)
    requires Enabled(c, s, Begin(t, r, k)) && Leases.Claimable(s.rows, r, k, s.now)
    ensures Leads(c, from, ops + [Begin(t, r, k)] + [Claim(t)], kind, JustGranted(c, s, t, r, k))
  {
    var s1 := s.(tasks := s.tasks[t := Task(r, k, Checked)]);
    Extend(c, from, ops, kind, s, Begin(t, r, k));
    Extend(c, from, ops + [Begin(t, r, k)], kind, s1, Claim(t));
    assert ClaimStep(c, s1, t) == JustGranted(c, s, t, r, k);
  }

  lemma AttachLeads(c: Config, from: Cluster, ops: seq<Op>, kind: Kind, s: Cluster, t: TaskId, r: Replica, k: Key)
    requires Leads(c, from, ops, kind, s)
    requires Enabled(c, s, Begin(t, r, k)) && Leases.Claimable(s.rows, r, k, s.now)
    ensures Leads(c, from, ops + [Begin(t, r, k)] + [Claim(t)] + [Mirror(t)] + [Register(t)], kind, Attached(c, s, t, r, k))
  {
    ClaimLeads(c, from, ops, kind, s, t, r, k);
    var s2 := JustGranted(c, s, t, r, k);
    Extend(c, from, ops + [Begin(t, r, k)] + [Claim(t)], kind, s2, Mirror(t));
    var s3 := MirrorStep(s2, t);
    Extend(c, from, ops + [Begin(t, r, k)] + [Claim(t)] + [Mirror(t)], kind, s3, Register(t));
    assert RegisterStep(s3, t) == Attached(c, s, t, r, k);
  }

  lemma TwoWriters(s: Cluster, t: TaskId, u: TaskId)
    requires At(s, t, Running) && At(s, u, Running) && t != u && s.tasks[t].k == s.tasks[u].k
    ensures !OneWriter(s)
  {
  }

  /** Some run that is guarded but for steps of one kind ends with two writers. */
  ghost predicate Breaks(c: Config, kind: Kind) {
    exists ops, s :: Leads(c, Initial, ops, kind, s) && !OneWriter(s)
  }

  /** Task 1 runs on `a`. */
  lemma OneRuns(c: Config, kind: Kind, a: Replica, k: Key) returns (ops: seq<Op>, s: Cluster)
    requires a in c.members
    ensures Leads(c, Initial, ops, kind, s)
    ensures s == Cluster(0.0, map[k := Leases.Row(a, 1, c.ttl(a))], map[(a, k) := 1], {(a, k)}, map[1 := Task(a, k, Running)], map[])
  {
    AttachLeads(c, Initial, [], kind, Initial, 1, a, k);
    ops := [] + [Begin(1, a, k)] + [Claim(1)] + [Mirror(1)] + [Register(1)];
    s := Attached(c, Initial, 1, a, k);
  }

  /** It ends, as far as leaving the registry. */
  lemma OneEnds(c: Config, kind: Kind, a: Replica, k: Key) returns (ops: seq<Op>, s: Cluster)
    requires a in c.members
    ensures Leads(c, Initial, ops, kind, s)
    ensures s == Cluster(0.0, map[k := Leases.Row(a, 1, c.ttl(a))], map[(a, k) := 1], {}, map[1 := Task(a, k, Removed)], map[])
  {
    ops, s := OneRuns(c, kind, a, k);
    Extend(c, Initial, ops, kind, s, Remove(1));
    ops := ops + [Remove(1)];
    s := Apply(c, s, Remove(1));
  }

  /** Time passes with nothing in a mirror, and a peer takes over what still runs. */
  lemma PeerTakesOver(c: Config, kind: Kind, ops: seq<Op>, s: Cluster, t: TaskId, b: Replica, k: Key)
    requires Leads(c, Initial, ops, kind, s) && b in c.members && k in s.rows && s.held == map[]
    requires At(s, t, Running) && s.tasks[t].k == k && 3 !in s.tasks && (b, k) !in s.attached
    requires forall u :: u in s.tasks ==> !s.tasks[u].pc.Granted?
    ensures Breaks(c, kind)
  {
    var wait := if s.rows[k].expires < s.now then 0.0 else s.rows[k].expires - s.now + 1.0;
    Extend(c, Initial, ops, kind, s, Elapse(wait));
    var s1 := Apply(c, s, Elapse(wait));
    AttachLeads(c, Initial, ops + [Elapse(wait)], kind, s1, 3, b, k);
    TwoWriters(Attached(c, s1, 3, b, k), t, 3);
  }

  /** Task 1 ends; task 2 attaches on the same (idempotent) lease; task 1 forgets the
      lease under it.  Nothing renews it, and a peer takes over. */
  lemma LateForgetBreaks(c: Config, a: Replica, b: Replica, k: Key)
    requires a in c.members && b in c.members && a != b
    ensures Breaks(c, Forgetting)
  {
    var ops, s := OneEnds(c, Forgetting, a, k);
    AttachLeads(c, Initial, ops, Forgetting, s, 2, a, k);
    var o2 := ops + [Begin(2, a, k)] + [Claim(2)] + [Mirror(2)] + [Register(2)];
    var s2 := Attached(c, s, 2, a, k);
    Extend(c, Initial, o2, Forgetting, s2, Forget(1));
    PeerTakesOver(c, Forgetting, o2 + [Forget(1)], Apply(c, s2, Forget(1)), 2, b, k);
  }

  /** It has forgotten the lease too. */
  lemma OneForgets(c: Config, a: Replica, k: Key) returns (ops: seq<Op>, s: Cluster)
    requires a in c.members
    ensures Leads(c, Initial, ops, Deleting, s)
    ensures s == Cluster(0.0, map[k := Leases.Row(a, 1, c.ttl(a))], map[], {}, map[1 := Task(a, k, Forgotten)], map[])
  {
    ops, s := OneEnds(c, Deleting, a, k);
    Extend(c, Initial, ops, Deleting, s, Forget(1));
    ops, s := ops + [Forget(1)], Apply(c, s, Forget(1));
  }

  /** Task 1 has forgotten the lease and task 2 has it again. */
  lemma TwoOnOneLease(c: Config, a: Replica, k: Key) returns (ops: seq<Op>, s: Cluster)
    requires a in c.members
    ensures Leads(c, Initial, ops, Deleting, s)
    ensures s == Cluster(0.0, map[k := Leases.Row(a, 1, c.ttl(a))], map[(a, k) := 1], {},
                         map[1 := Task(a, k, Forgotten), 2 := Task(a, k, Claimed)], map[])
  {
    ops, s := OneForgets(c, a, k);
    ClaimLeads(c, Initial, ops, Deleting, s, 2, a, k);
    ops, s := ops + [Begin(2, a, k)] + [Claim(2)], JustGranted(c, s, 2, a, k);
    Extend(c, Initial, ops, Deleting, s, Mirror(2));
    ops, s := ops + [Mirror(2)], Apply(c, s, Mirror(2));
  }

  /** Task 1 ends and forgets the lease; task 2 attaches on the row that is still
      there; task 1 deletes it, and task 2 runs without a row. */
  lemma LateDeleteBreaks(c: Config, a: Replica, k: Key)
    requires a in c.members
    ensures Breaks(c, Deleting)
  {
    var ops, s := TwoOnOneLease(c, a, k);
    Extend(c, Initial, ops, Deleting, s, Register(2));
    var o1, s1 := ops + [Register(2)], Apply(c, s, Register(2));
    Extend(c, Initial, o1, Deleting, s1, Delete(1));
    assert At(Apply(c, s1, Delete(1)), 2, Running);
  }

  /** Task 2 has claimed and mirrored the lease but not registered; task 1, on the same
      lease, ends and deletes it; task 2 then registers without a row. */
  lemma LateRegisterBreaks(c: Config, a: Replica, k: Key)
    requires a in c.members
    ensures Breaks(c, Deleting)
  {
    var ops, s := TwoOnOneLease(c, a, k);
    Extend(c, Initial, ops, Deleting, s, Delete(1));
    var o1, s1 := ops + [Delete(1)], Apply(c, s, Delete(1));
    Extend(c, Initial, o1, Deleting, s1, Register(2));
    assert At(Apply(c, s1, Register(2)), 2, Running);
  }

  /** A heartbeat takes its snapshot. */
  lemma SnapshotTaken(c: Config, a: Replica, k: Key) returns (ops: seq<Op>, s: Cluster)
    requires a in c.members
    ensures Leads(c, Initial, ops, Dropping, s)
    ensures s == Cluster(0.0, map[k := Leases.Row(a, 1, c.ttl(a))], map[(a, k) := 1], {},
                         map[1 := Task(a, k, Removed)], map[a := Beat(map[k := 1], None)])
  {
    ops, s := OneEnds(c, Dropping, a, k);
    assert Mine(s.held, a) == map[k := 1];
    Extend(c, Initial, ops, Dropping, s, Snapshot(a));
    ops, s := ops + [Snapshot(a)], Apply(c, s, Snapshot(a));
  }

  /** Task 1 gives the lease back meanwhile. */
  lemma GivenBackMeanwhile(c: Config, a: Replica, k: Key) returns (ops: seq<Op>, s: Cluster)
    requires a in c.members
    ensures Leads(c, Initial, ops, Dropping, s)
    ensures s == Cluster(0.0, map[], map[], {}, map[], map[a := Beat(map[k := 1], None)])
  {
    ops, s := SnapshotTaken(c, a, k);
    Extend(c, Initial, ops, Dropping, s, Forget(1));
    ops, s := ops + [Forget(1)], Apply(c, s, Forget(1));
    Extend(c, Initial, ops, Dropping, s, Delete(1));
    ops, s := ops + [Delete(1)], Apply(c, s, Delete(1));
  }

  /** The renewal then finds no row. */
  lemma RenewalFails(c: Config, a: Replica, k: Key) returns (ops: seq<Op>, s: Cluster)
    requires a in c.members
    ensures Leads(c, Initial, ops, Dropping, s)
    ensures s == Cluster(0.0, map[], map[], {}, map[], map[a := Beat(map[], Some(k))])
  {
    ops, s := GivenBackMeanwhile(c, a, k);
    Extend(c, Initial, ops, Dropping, s, Renewal(a, k, false));
    ops, s := ops + [Renewal(a, k, false)], Apply(c, s, Renewal(a, k, false));
    assert s.beats[a].todo == map[];
  }

  /** Between a heartbeat's snapshot and its renewal task 1 gives the lease back, so the
      renewal fails; task 2 attaches anew; only then does the heartbeat drop the lease
      from the mirror.  Nothing renews it, and a peer takes over. */
  lemma StaleDropBreaks(c: Config, a: Replica, b: Replica, k: Key)
    requires a in c.members && b in c.members && a != b
    ensures Breaks(c, Dropping)
  {
    var ops, s := RenewalFails(c, a, k);
    AttachLeads(c, Initial, ops, Dropping, s, 2, a, k);
    var o1 := ops + [Begin(2, a, k)] + [Claim(2)] + [Mirror(2)] + [Register(2)];
    var s1 := Attached(c, s, 2, a, k);
    Extend(c, Initial, o1, Dropping, s1, Drop(a));
    PeerTakesOver(c, Dropping, o1 + [Drop(a)], Apply(c, s1, Drop(a)), 2, b, k);
  }

  /** The snapshot is taken under a running task, and the database fails on the renewal. */
  lemma RenewalFaults(c: Config, a: Replica, k: Key) returns (ops: seq<Op>, s: Cluster)
    requires a in c.members
    ensures Leads(c, Initial, ops, Dropping, s)
    ensures s == Cluster(0.0, map[k := Leases.Row(a, 1, c.ttl(a))], map[(a, k) := 1], {(a, k)},
                         map[1 := Task(a, k, Running)], map[a := Beat(map[], Some(k))])
  {
    ops, s := OneRuns(c, Dropping, a, k);
    assert Mine(s.held, a) == map[k := 1];
    Extend(c, Initial, ops, Dropping, s, Snapshot(a));
    ops, s := ops + [Snapshot(a)], Apply(c, s, Snapshot(a));
    Extend(c, Initial, ops, Dropping, s, Renewal(a, k, true));
    ops, s := ops + [Renewal(a, k, true)], Apply(c, s, Renewal(a, k, true));
    assert s.beats[a].todo == map[];
  }

  /** One failed statement is enough, though nothing overlaps: the heartbeat takes any
      error for a lost lease and drops it under the task that is running on it.  Nothing
      renews it from then on, and a peer takes over. */
  lemma FaultyRenewalBreaks(c: Config, a: Replica, b: Replica, k: Key)
    requires a in c.members && b in c.members && a != b
    ensures Breaks(c, Dropping)
  {
    var ops, s := RenewalFaults(c, a, k);
    Extend(c, Initial, ops, Dropping, s, Drop(a));
    PeerTakesOver(c, Dropping, ops + [Drop(a)], Apply(c, s, Drop(a)), 1, b, k);
  }

  /** None of the three guards can be left out, whatever the flags. */
  lemma EachGuardIsNeeded(c: Config, a: Replica, b: Replica, kind: Kind)
    requires a in c.members && b in c.members && a != b && kind != Nothing
    ensures Breaks(c, kind)
  {
    match kind
    case Forgetting => LateForgetBreaks(c, a, b, "agent");
    case Deleting => LateDeleteBreaks(c, a, "agent");
    case Dropping => StaleDropBreaks(c, a, b, "agent");
  }

  ghost predicate GuardedRunsSafe(c: Config) {
    forall ops :: Allowed(c, Initial, ops) && Guarded(c, Initial, ops) ==> OneWriter(Run(c, Initial, ops))
  }

  lemma {:induction false} GuardedButNothing(c: Config, s: Cluster, ops: seq<Op>)
    requires Allowed(c, s, ops) && GuardedBut(c, s, ops, Nothing)
    ensures Guarded(c, s, ops)
    decreases |ops|
  {
    if ops != [] {
      GuardedButNothing(c, Apply(c, s, ops[0]), ops[1..]);
    }
  }

  /** With a heartbeat interval longer than the time to live, a lease runs out between
      two on-time heartbeats and a peer takes the stream over. */
  lemma SlowHeartbeatBreaks(c: Config, a: Replica, b: Replica, k: Key)
    requires a in c.members && b in c.members && a != b
    requires 0.0 < c.interval(a) && c.ttl(a) < c.interval(a)
    ensures Breaks(c, Nothing)
  {
    var ops, s := OneRuns(c, Nothing, a, k);
    Extend(c, Initial, ops, Nothing, s, Elapse(c.interval(a)));
    var s1 := Apply(c, s, Elapse(c.interval(a)));
    AttachLeads(c, Initial, ops + [Elapse(c.interval(a))], Nothing, s1, 2, b, k);
    TwoWriters(Attached(c, s1, 2, b, k), 1, 2);
  }

  lemma UnguardedByNothing(c: Config)
    requires Breaks(c, Nothing)
    ensures !GuardedRunsSafe(c)
  {
    var ops, s :| Leads(c, Initial, ops, Nothing, s) && !OneWriter(s);
    GuardedButNothing(c, Initial, ops);
  }

  /** The exact timing, for a cluster of two or more: guarded runs keep one writer per
      stream if and only if no interval exceeds its replica's lease time to live. */
  lemma SingleWriterIff(c: Config, a: Replica, b: Replica)
    requires a in c.members && b in c.members && a != b
    requires forall r :: r in c.members ==> 0.0 < c.interval(r)
    ensures GuardedRunsSafe(c) <==> forall r :: r in c.members ==> c.interval(r) <= c.ttl(r)
  {
    if forall r :: r in c.members ==> c.interval(r) <= c.ttl(r) {
      forall ops | Allowed(c, Initial, ops) && Guarded(c, Initial, ops) ensures OneWriter(Run(c, Initial, ops)) {
        SingleWriterSafety(c, ops);
      }
    } else {
      var r :| r in c.members && c.ttl(r) < c.interval(r);
      SlowHeartbeatBreaks(c, r, if r == a then b else a, "agent");
      UnguardedByNothing(c);
    }
  }

  // ------------------------------------------------- the heartbeat's period

  /** `heartbeat_interval`, in seconds. */
  function HeartbeatInterval(explicitMs: Option<nat>, ttl: real): (secs: real)
    ensures 0.0 < secs
  {
    match explicitMs
    case Some(ms) => (if ms < 1 then 1 else ms) as real / 1000.0
    case None => if ttl / 3.0 < 1.0 then 1.0 else ttl / 3.0
  }

  /** A third of the lease but at least a second, or what was asked for in milliseconds but
      at least one. */
  lemma HeartbeatIs(explicitMs: Option<nat>, ttl: real)
    ensures explicitMs.None? && ttl >= 3.0 ==> 3.0 * HeartbeatInterval(explicitMs, ttl) == ttl
    ensures explicitMs.None? && ttl < 3.0 ==> HeartbeatInterval(explicitMs, ttl) == 1.0
    ensures explicitMs.Some? && explicitMs.value > 0 ==> 1000.0 * HeartbeatInterval(explicitMs, ttl) == explicitMs.value as real
    ensures explicitMs == Some(0) ==> 1000.0 * HeartbeatInterval(explicitMs, ttl) == 1.0
  {
  }

  /** The default period fits the lease exactly when the lease lasts a second or more;
      an explicit one exactly when it is no longer than the lease, 0 counting as 1. */
  lemma HeartbeatFitsIff(explicitMs: Option<nat>, ttl: real)
    ensures explicitMs.None? ==> (HeartbeatInterval(explicitMs, ttl) <= ttl <==> ttl >= 1.0)
    ensures explicitMs.Some? ==>
              (HeartbeatInterval(explicitMs, ttl) <= ttl <==> 1.0 <= 1000.0 * ttl && explicitMs.value as real <= 1000.0 * ttl)
  {
  }

  /** What the daemon's own flags give: with the default heartbeat every guarded run is
      safe if and only if every lease lasts a second or more. */
  lemma DefaultHeartbeatIff(c: Config, a: Replica, b: Replica)
    requires a in c.members && b in c.members && a != b
    requires forall r :: r in c.members ==> c.interval(r) == HeartbeatInterval(None, c.ttl(r))
    ensures GuardedRunsSafe(c) <==> forall r :: r in c.members ==> c.ttl(r) >= 1.0
  {
    SingleWriterIff(c, a, b);
    forall r | r in c.members ensures c.interval(r) <= c.ttl(r) <==> c.ttl(r) >= 1.0 {
      HeartbeatFitsIff(None, c.ttl(r));
    }
  }
}
