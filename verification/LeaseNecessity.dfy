/** What one step past a guard leads to: two writers, by steps that all pass theirs. */
module LeaseNecessity {
  import Leases
  import opened SingleWriter
  import opened LeaseHazards

  type Key = Leases.Key
  type Replica = Leases.Replica

  /** Two tasks drive the same stream. */
  ghost predicate TwoRun(s: Cluster) {
    exists t, u :: t != u && At(s, t, Running) && At(s, u, Running) && s.tasks[t].k == s.tasks[u].k
  }

  /** From `s`, with every further step guarded and every heartbeat on time, two tasks can
      come to drive the same stream. */
  ghost predicate CanDouble(c: Config, s: Cluster) {
    exists ops, e :: Leads(c, s, ops, Nothing, e) && TwoRun(e)
  }

  // ---------------------------------------------------- the registry's own order

  ghost predicate HasRunner(s: Cluster, r: Replica, k: Key) {
    exists t :: At(s, t, Running) && On(s.tasks[t], r, k)
  }

  /** Only members hold leases or run tasks, and what is registered is being driven. */
  ghost predicate Orderly(c: Config, s: Cluster) {
    && (forall p :: p in s.held ==> p.0 in c.members)
    && (forall t :: t in s.tasks ==> s.tasks[t].r in c.members)
    && (forall p :: p in s.attached ==> HasRunner(s, p.0, p.1))
  }

  /** The runners `s` has on `(r, k)` are still there. */
  lemma RunnerStays(s: Cluster, s': Cluster, r: Replica, k: Key)
    requires HasRunner(s, r, k)
    requires forall t :: At(s, t, Running) && On(s.tasks[t], r, k) ==> t in s'.tasks && s'.tasks[t] == s.tasks[t]
    ensures HasRunner(s', r, k)
  {
    var t :| At(s, t, Running) && On(s.tasks[t], r, k);
    assert At(s', t, Running);
  }

  lemma RegisterOrderly(c: Config, s: Cluster, t: TaskId)
    requires Orderly(c, s) && At(s, t, Claimed)
    ensures Orderly(c, RegisterStep(s, t))
  {
    var s' := RegisterStep(s, t);
    forall p | p in s'.attached ensures HasRunner(s', p.0, p.1) {
      if p in s.attached {
        RunnerStays(s, s', p.0, p.1);
      } else {
        assert At(s', t, Running) && On(s'.tasks[t], p.0, p.1);
      }
    }
  }

  lemma RemoveOrderly(c: Config, s: Cluster, t: TaskId)
    requires Orderly(c, s) && At(s, t, Running)
    ensures Orderly(c, RemoveStep(s, t))
  {
    var s' := RemoveStep(s, t);
    forall p | p in s'.attached ensures HasRunner(s', p.0, p.1) {
      RunnerStays(s, s', p.0, p.1);
    }
  }

  lemma CrashOrderly(c: Config, s: Cluster, r: Replica)
    requires Orderly(c, s)
    ensures Orderly(c, CrashStep(s, r))
  {
    var s' := CrashStep(s, r);
    forall p | p in s'.attached ensures HasRunner(s', p.0, p.1) {
      RunnerStays(s, s', p.0, p.1);
    }
  }

  /** A step that leaves the registry and the running tasks alone. */
  lemma QuietOrderly(c: Config, s: Cluster, s': Cluster)
    requires Orderly(c, s) && s'.attached == s.attached
    requires forall p :: p in s'.held ==> p.0 in c.members
    requires forall t :: t in s'.tasks ==> s'.tasks[t].r in c.members
    requires forall t :: At(s, t, Running) ==> t in s'.tasks && s'.tasks[t] == s.tasks[t]
    ensures Orderly(c, s')
  {
    forall p | p in s'.attached ensures HasRunner(s', p.0, p.1) {
      RunnerStays(s, s', p.0, p.1);
    }
  }

  predicate OfTask(op: Op) {
    op.Begin? || op.Claim? || op.Mirror? || op.Forget? || op.Delete?
  }

  lemma TaskOrderly(c: Config, s: Cluster, op: Op)
    requires Orderly(c, s) && Enabled(c, s, op) && OfTask(op)
    ensures Orderly(c, Apply(c, s, op))
  {
    match op
    case Begin(t, r, k) => QuietOrderly(c, s, s.(tasks := s.tasks[t := Task(r, k, Checked)]));
    case Claim(t) => QuietOrderly(c, s, ClaimStep(c, s, t));
    case Mirror(t) => QuietOrderly(c, s, MirrorStep(s, t));
    case Forget(t) => QuietOrderly(c, s, ForgetStep(s, t));
    case Delete(t) => QuietOrderly(c, s, DeleteStep(s, t));
  }

  lemma StepOrderly(c: Config, s: Cluster, op: Op)
    requires Orderly(c, s) && Enabled(c, s, op)
    ensures Orderly(c, Apply(c, s, op))
  {
    match op
    case Register(t) => RegisterOrderly(c, s, t);
    case Remove(t) => RemoveOrderly(c, s, t);
    case Crash(r) => CrashOrderly(c, s, r);
    case Lifecycle(r, k) => QuietOrderly(c, s, LifecycleStep(c, s, r, k));
    case Snapshot(r) => QuietOrderly(c, s, SnapshotStep(s, r));
    case Renewal(r, k, fault) => QuietOrderly(c, s, RenewalStep(c, s, r, k, fault));
    case Drop(r) => QuietOrderly(c, s, DropStep(s, r));
    case Elapse(dt) => QuietOrderly(c, s, s.(now := s.now + dt));
    case _ => TaskOrderly(c, s, op);
  }

  lemma {:induction false} RunOrderly(c: Config, s: Cluster, ops: seq<Op>)
    requires Orderly(c, s) && Allowed(c, s, ops)
    ensures Orderly(c, Run(c, s, ops))
    decreases |ops|
  {
    if ops != [] {
      StepOrderly(c, s, ops[0]);
      RunOrderly(c, Apply(c, s, ops[0]), ops[1..]);
    }
  }

  // ------------------------------------------------------------ a peer comes in

  lemma {:induction false} FreshId(ids: set<TaskId>) returns (t: TaskId)
    ensures forall u :: u in ids ==> u < t
    decreases ids
  {
    t := 0;
    if ids != {} {
      var u :| u in ids;
      var rest := ids - {u};
      t := FreshId(rest);
      t := if u < t then t else u + 1;
      assert ids == rest + {u};
    }
  }

  /** A peer that can claim the stream of a running task becomes its second writer. */
  lemma PeerAttaches(c: Config, from: Cluster, ops: seq<Op>, s: Cluster, w: TaskId, q: Replica)
    requires Leads(c, from, ops, Nothing, s) && At(s, w, Running) && q in c.members && s.tasks[w].r != q
    requires Leases.Claimable(s.rows, q, s.tasks[w].k, s.now)
    ensures CanDouble(c, from)
  {
    var k := s.tasks[w].k;
    Extend(c, from, ops, Nothing, s, Crash(q));
    var s1 := CrashStep(s, q);
    var t := FreshId(s1.tasks.Keys);
    AttachLeads(c, from, ops + [Crash(q)], Nothing, s1, t, q, k);
    var e := Attached(c, s1, t, q, k);
    assert w != t && At(e, w, Running) && At(e, t, Running) && e.tasks[w].k == e.tasks[t].k;
  }

  /** What an attempt that goes on to run changes. */
  ghost predicate Ran(s: Cluster, s': Cluster, u: TaskId) {
    && s'.rows == s.rows && s'.now == s.now
    && u in s.tasks && s'.tasks.Keys == s.tasks.Keys
    && (forall v :: v in s.tasks ==> On(s'.tasks[v], s.tasks[v].r, s.tasks[v].k))
    && (forall v :: v in s.tasks && s'.tasks[v].pc.Granted? ==> s.tasks[v].pc.Granted?)
    && (!s.tasks[u].pc.Granted? ==> s'.held == s.held)
  }

  lemma RegistersNext(c: Config, from: Cluster, ops: seq<Op>, s: Cluster, u: TaskId)
    requires Leads(c, from, ops, Nothing, s) && At(s, u, Claimed) && (s.tasks[u].r, s.tasks[u].k) !in s.attached
    ensures Leads(c, from, ops + [Register(u)], Nothing, RegisterStep(s, u)) && Ran(s, RegisterStep(s, u), u)
    ensures At(RegisterStep(s, u), u, Running) && On(RegisterStep(s, u).tasks[u], s.tasks[u].r, s.tasks[u].k)
  {
    Extend(c, from, ops, Nothing, s, Register(u));
  }

  lemma MirrorsNext(c: Config, from: Cluster, ops: seq<Op>, s: Cluster, u: TaskId)
    requires Leads(c, from, ops, Nothing, s) && u in s.tasks && s.tasks[u].pc.Granted?
    ensures Leads(c, from, ops + [Mirror(u)], Nothing, MirrorStep(s, u)) && Ran(s, MirrorStep(s, u), u)
  {
    Extend(c, from, ops, Nothing, s, Mirror(u));
  }

  /** An attempt that has been granted a lease goes on to run, unless another of the same
      replica on the same agent is running already. */
  lemma GoesOn(c: Config, from: Cluster, ops: seq<Op>, s: Cluster, u: TaskId)
    returns (ops': seq<Op>, s': Cluster, w: TaskId)
    requires Leads(c, from, ops, Nothing, s) && Orderly(c, s) && u in s.tasks && NeedsRow(s.tasks[u])
    ensures Leads(c, from, ops', Nothing, s') && Ran(s, s', u)
    ensures At(s', w, Running) && On(s'.tasks[w], s.tasks[u].r, s.tasks[u].k)
  {
    ops', s', w := ops, s, u;
    if s.tasks[u].pc != Running {
      if (s.tasks[u].r, s.tasks[u].k) in s.attached {
        assert HasRunner(s, s.tasks[u].r, s.tasks[u].k);
        w :| At(s, w, Running) && On(s.tasks[w], s.tasks[u].r, s.tasks[u].k);
      } else {
        if s.tasks[u].pc.Granted? {
          MirrorsNext(c, from, ops, s, u);
          ops', s' := ops + [Mirror(u)], MirrorStep(s, u);
        }
        RegistersNext(c, from, ops', s', u);
        ops', s' := ops' + [Register(u)], RegisterStep(s', u);
      }
    }
  }

  // ------------------------------------------- every other lease is kept renewed

  function Alive(s: Cluster, dead: set<Replica>): Cluster {
    s.(held := map p | p in s.held && p.0 !in dead :: s.held[p],
       attached := (set p | p in s.attached && p.0 !in dead),
       tasks := map t | t in s.tasks && s.tasks[t].r !in dead :: s.tasks[t],
       beats := s.beats - dead)
  }

  lemma OneMoreDead(s: Cluster, dead: set<Replica>, r: Replica)
    ensures CrashStep(Alive(s, dead), r) == Alive(s, dead + {r})
  {
    assert CrashStep(Alive(s, dead), r).held == Alive(s, dead + {r}).held;
    assert CrashStep(Alive(s, dead), r).attached == Alive(s, dead + {r}).attached;
    assert CrashStep(Alive(s, dead), r).tasks == Alive(s, dead + {r}).tasks;
    assert CrashStep(Alive(s, dead), r).beats == Alive(s, dead + {r}).beats;
  }

  lemma NoneDead(s: Cluster)
    ensures Alive(s, {}) == s
  {
    assert Alive(s, {}).held == s.held;
    assert Alive(s, {}).attached == s.attached;
    assert Alive(s, {}).tasks == s.tasks;
    assert Alive(s, {}).beats == s.beats;
  }

  lemma {:induction false} CrashAll(c: Config, from: Cluster, ops: seq<Op>, s: Cluster, dead: set<Replica>) returns (ops': seq<Op>)
    requires Leads(c, from, ops, Nothing, s) && dead <= c.members
    ensures Leads(c, from, ops', Nothing, Alive(s, dead))
    decreases dead
  {
    if dead == {} {
      NoneDead(s);
      ops' := ops;
    } else {
      var r :| r in dead;
      ops' := CrashAll(c, from, ops, s, dead - {r});
      Extend(c, from, ops', Nothing, Alive(s, dead - {r}), Crash(r));
      OneMoreDead(s, dead - {r}, r);
      assert dead - {r} + {r} == dead;
      ops' := ops' + [Crash(r)];
    }
  }

  /** Only `r` is up; `w` runs on its lease of `k`, which is neither in the mirror nor about
      to be, so that nothing renews it. */
  ghost predicate Unwatched(s: Cluster, r: Replica, k: Key, w: TaskId) {
    && At(s, w, Running) && On(s.tasks[w], r, k)
    && (forall p :: p in s.held ==> p.0 == r && p.1 != k)
    && (forall t :: t in s.tasks ==> s.tasks[t].r == r && !GrantedOn(s.tasks[t], r, k))
  }

  /** The leases in `keys` have been renewed now, and nothing else has changed. */
  ghost predicate Refreshed(c: Config, s: Cluster, s': Cluster, r: Replica, keys: set<Key>) {
    && s'.now == s.now && s'.tasks == s.tasks
    && (forall p :: p in s'.held ==> p in s.held || (p.0 == r && p.1 in keys))
    && s'.rows.Keys == s.rows.Keys
    && (forall k :: k in s.rows && k !in keys ==> s'.rows[k] == s.rows[k])
    && (forall k :: k in s.rows && k in keys ==> s'.rows[k].owner == s.rows[k].owner && s'.rows[k].expires == s.now + c.ttl(r))
  }

  /** A lifecycle claim renews a lease of one's own. */
  lemma {:induction false} RefreshAll(c: Config, from: Cluster, ops: seq<Op>, s: Cluster, r: Replica, keys: set<Key>)
    returns (ops': seq<Op>, s': Cluster)
    requires Leads(c, from, ops, Nothing, s) && r in c.members
    requires forall k :: k in keys ==> k in s.rows && s.rows[k].owner == r
    ensures Leads(c, from, ops', Nothing, s') && Refreshed(c, s, s', r, keys)
    decreases keys
  {
    ops', s' := ops, s;
    if keys != {} {
      var k :| k in keys;
      ops', s' := RefreshAll(c, from, ops, s, r, keys - {k});
      Extend(c, from, ops', Nothing, s', Lifecycle(r, k));
      ops', s' := ops' + [Lifecycle(r, k)], LifecycleStep(c, s', r, k);
    }
  }

  /** The leases of `r` other than the one on `k`. */
  function OwnButFor(s: Cluster, r: Replica, k: Key): set<Key> {
    set key | key in s.rows && s.rows[key].owner == r && key != k
  }

  /** A heartbeat interval passes: every other lease has been renewed, so it may. */
  lemma OneInterval(c: Config, from: Cluster, ops: seq<Op>, s: Cluster, r: Replica, k: Key, w: TaskId)
    returns (ops': seq<Op>, s': Cluster)
    requires Prompt(c) && Leads(c, from, ops, Nothing, s) && r in c.members && k in s.rows && Unwatched(s, r, k, w)
    ensures Leads(c, from, ops', Nothing, s') && Unwatched(s', r, k, w)
    ensures k in s'.rows && s'.rows[k] == s.rows[k] && s'.now == s.now + c.interval(r)
  {
    ops', s' := RefreshAll(c, from, ops, s, r, OwnButFor(s, r, k));
    Extend(c, from, ops', Nothing, s', Elapse(c.interval(r)));
    ops', s' := ops' + [Elapse(c.interval(r))], s'.(now := s'.now + c.interval(r));
  }

  lemma {:induction false} Intervals(c: Config, from: Cluster, ops: seq<Op>, s: Cluster, r: Replica, k: Key, w: TaskId, n: nat)
    returns (ops': seq<Op>, s': Cluster)
    requires Prompt(c) && Leads(c, from, ops, Nothing, s) && r in c.members && k in s.rows && Unwatched(s, r, k, w)
    ensures Leads(c, from, ops', Nothing, s') && Unwatched(s', r, k, w)
    ensures k in s'.rows && s'.rows[k] == s.rows[k] && s'.now == s.now + n as real * c.interval(r)
  {
    ops', s' := ops, s;
    if n > 0 {
      ops', s' := Intervals(c, from, ops, s, r, k, w, n - 1);
      ops', s' := OneInterval(c, from, ops', s', r, k, w);
    }
  }

  /** Enough intervals outlast any time. */
  lemma Enough(span: real, interval: real) returns (n: nat)
    requires interval > 0.0
    ensures n as real * interval > span
  {
    n := if span < 0.0 then 1 else (span / interval).Floor + 1;
    assert n as real > span / interval;
    assert span / interval * interval == span;
    assert (n as real - span / interval) * interval > 0.0;
  }

  /** A lease that nothing renews runs out, and a peer takes the stream over. */
  lemma RunsOut(c: Config, from: Cluster, ops: seq<Op>, s: Cluster, r: Replica, k: Key, w: TaskId, q: Replica)
    requires Prompt(c) && Leads(c, from, ops, Nothing, s) && Unwatched(s, r, k, w)
    requires r in c.members && q in c.members && q != r && k in s.rows
    ensures CanDouble(c, from)
  {
    var n := Enough(s.rows[k].expires - s.now, c.interval(r));
    var ops', s' := Intervals(c, from, ops, s, r, k, w, n);
    PeerAttaches(c, from, ops', s', w, q);
  }

  // -------------------------------------------------------------- the exact guard

  /** Some task relies on `r`'s lease of `k`, which the mirror has lost for good. */
  lemma UnlistedDoubles(c: Config, s: Cluster, r: Replica, k: Key, u: TaskId, q: Replica)
    requires Prompt(c) && Orderly(c, s) && u in s.tasks && On(s.tasks[u], r, k) && NeedsMirror(s.tasks[u])
    requires (r, k) !in s.held && !Pending(s, r, k) && k in s.rows && q in c.members && q != r
    ensures CanDouble(c, s)
  {
    assert Leads(c, s, [], Nothing, s);
    var ops, s1, w := GoesOn(c, s, [], s, u);
    var dead := c.members - {r};
    var ops2 := CrashAll(c, s, ops, s1, dead);
    var s2 := Alive(s1, dead);
    assert Unwatched(s2, r, k, w);
    RunsOut(c, s, ops2, s2, r, k, w, q);
  }

  /** Some task relies on `r`'s lease of `k`, whose row is gone. */
  lemma RowlessDoubles(c: Config, s: Cluster, r: Replica, k: Key, u: TaskId, q: Replica)
    requires Orderly(c, s) && u in s.tasks && On(s.tasks[u], r, k) && NeedsRow(s.tasks[u])
    requires k !in s.rows && q in c.members && q != r
    ensures CanDouble(c, s)
  {
    assert Leads(c, s, [], Nothing, s);
    var ops, s1, w := GoesOn(c, s, [], s, u);
    PeerAttaches(c, s, ops, s1, w, q);
  }

  lemma ForgetDoubles(c: Config, s: Cluster, t: TaskId, q: Replica)
    requires Prompt(c) && Inv(c, s) && Orderly(c, s) && At(s, t, Removed) && !MayForget(s, s.tasks[t].r, s.tasks[t].k)
    requires q in c.members && q != s.tasks[t].r
    ensures CanDouble(c, ForgetStep(s, t))
  {
    var r, k, s' := s.tasks[t].r, s.tasks[t].k, ForgetStep(s, t);
    var u :| u in s.tasks && On(s.tasks[u], r, k) && NeedsMirror(s.tasks[u]);
    assert Sound(c, s, s.tasks[u]);
    QuietOrderly(c, s, s');
    assert forall v :: v in s'.tasks && GrantedOn(s'.tasks[v], r, k) ==> GrantedOn(s.tasks[v], r, k);
    UnlistedDoubles(c, s', r, k, u, q);
  }

  lemma DropDoubles(c: Config, s: Cluster, r: Replica, q: Replica)
    requires Prompt(c) && Inv(c, s) && Orderly(c, s) && r in s.beats && s.beats[r].lost.Some?
    requires !MayForget(s, r, s.beats[r].lost.value) && q in c.members && q != r
    ensures CanDouble(c, DropStep(s, r))
  {
    var k, s' := s.beats[r].lost.value, DropStep(s, r);
    var u :| u in s.tasks && On(s.tasks[u], r, k) && NeedsMirror(s.tasks[u]);
    assert Sound(c, s, s.tasks[u]);
    QuietOrderly(c, s, s');
    assert forall v :: v in s'.tasks && GrantedOn(s'.tasks[v], r, k) ==> GrantedOn(s.tasks[v], r, k);
    UnlistedDoubles(c, s', r, k, u, q);
  }

  lemma DeleteDoubles(c: Config, s: Cluster, t: TaskId, q: Replica)
    requires Inv(c, s) && Orderly(c, s) && At(s, t, Forgotten) && !RowFree(s, s.tasks[t].r, s.tasks[t].k)
    requires q in c.members && q != s.tasks[t].r
    ensures CanDouble(c, DeleteStep(s, t))
  {
    var r, k, s' := s.tasks[t].r, s.tasks[t].k, DeleteStep(s, t);
    var u :| u in s.tasks && On(s.tasks[u], r, k) && NeedsRow(s.tasks[u]);
    assert Sound(c, s, s.tasks[u]);
    QuietOrderly(c, s, s');
    RowlessDoubles(c, s', r, k, u, q);
  }

  lemma UnguardedDoubles(c: Config, s: Cluster, op: Op, a: Replica, b: Replica)
    requires Prompt(c) && a in c.members && b in c.members && a != b
    requires Inv(c, s) && Orderly(c, s) && Enabled(c, s, op) && !Guard(c, s, op)
    ensures CanDouble(c, Apply(c, s, op))
  {
    match op
    case Forget(t) => ForgetDoubles(c, s, t, if s.tasks[t].r == a then b else a);
    case Delete(t) => DeleteDoubles(c, s, t, if s.tasks[t].r == a then b else a);
    case Drop(r) => DropDoubles(c, s, r, if r == a then b else a);
    case _ =>
  }

  lemma GuardedNeverDoubles(c: Config, s: Cluster)
    requires Prompt(c) && Inv(c, s)
    ensures !CanDouble(c, s)
  {
    forall ops, e | Leads(c, s, ops, Nothing, e) ensures !TwoRun(e) {
      GuardedButNothing(c, s, ops);
      GuardedRunKeepsInv(c, s, ops);
      InvMeansOneWriter(c, e);
    }
  }

  /** The guards are exact about what they are for.  In a cluster of two or more, take any
      guarded run and one more step: from there two tasks can come to drive the same
      stream, by guarded steps with heartbeats on time, if and only if that step did not
      pass its guard. */
  lemma TwoWritersIff(c: Config, ops: seq<Op>, op: Op, a: Replica, b: Replica)
    requires Prompt(c) && a in c.members && b in c.members && a != b
    requires Allowed(c, Initial, ops) && Guarded(c, Initial, ops) && Enabled(c, Run(c, Initial, ops), op)
    ensures CanDouble(c, Apply(c, Run(c, Initial, ops), op)) <==> !Guard(c, Run(c, Initial, ops), op)
  {
    var s := Run(c, Initial, ops);
    GuardedRunKeepsInv(c, Initial, ops);
    RunOrderly(c, Initial, ops);
    if Guard(c, s, op) {
      StepExact(c, s, op);
      GuardedNeverDoubles(c, Apply(c, s, op));
    } else {
      UnguardedDoubles(c, s, op, a, b);
    }
  }
}
