/** How a lease passes on: what comes of an attempt that ends, one that loses, a replica
    that crashes, and a workspace's own lease. */
module LeaseHandoff {
  import opened Common
  import Leases
  import opened SingleWriter

  type Key = Leases.Key
  type Replica = Leases.Replica

  /** The three steps of a task that ends. */
  function Ended(s: Cluster, t: TaskId): Cluster
    requires t in s.tasks
  {
    DeleteStep(ForgetStep(RemoveStep(s, t), t), t)
  }

  /** A driver that ends hands its stream on at once: its row is gone, so every replica's
      claim succeeds, and registry, mirror and task list no longer have it.  Nothing else
      changes. */
  lemma EndHandsOn(c: Config, s: Cluster, t: TaskId, q: Replica)
    requires At(s, t, Running) && s.tasks[t].k in s.rows && s.rows[s.tasks[t].k].owner == s.tasks[t].r
    ensures
      var r, k := s.tasks[t].r, s.tasks[t].k;
      && Enabled(c, s, Remove(t)) && Enabled(c, RemoveStep(s, t), Forget(t)) && Enabled(c, ForgetStep(RemoveStep(s, t), t), Delete(t))
      && Ended(s, t) == Apply(c, Apply(c, Apply(c, s, Remove(t)), Forget(t)), Delete(t))
      && Leases.Claimable(Ended(s, t).rows, q, k, s.now)
      && Ended(s, t) == s.(rows := s.rows - {k}, held := s.held - {(r, k)}, attached := s.attached - {(r, k)}, tasks := s.tasks - {t})
  {
    var s1 := RemoveStep(s, t);
    var s2 := ForgetStep(s1, t);
    assert s1.tasks[t] == s.tasks[t].(pc := Removed) && s2.tasks[t] == s.tasks[t].(pc := Forgotten);
    assert s2.tasks - {t} == s.tasks - {t};
  }

  /** An attempt that finds the stream driven already ends there: it leaves row, mirror and
      registry to the task that drives it. */
  lemma LoserLeavesAll(c: Config, s: Cluster, t: TaskId)
    requires At(s, t, Claimed) && (s.tasks[t].r, s.tasks[t].k) in s.attached
    ensures Apply(c, s, Register(t)) == s.(tasks := s.tasks - {t})
  {
  }

  /** And one whose claim is refused leaves everything as it was. */
  lemma RefusedLeavesAll(c: Config, s: Cluster, t: TaskId)
    requires At(s, t, Checked) && !Leases.Claimable(s.rows, s.tasks[t].r, s.tasks[t].k, s.now)
    ensures Apply(c, s, Claim(t)) == s.(tasks := s.tasks - {t})
  {
  }

  /** A crash gives no lease up: the rows stay, and another replica's claim succeeds
      exactly when they run out.  Of the replica itself nothing is left. */
  lemma CrashKeepsLeases(c: Config, s: Cluster, r: Replica, q: Replica, k: Key, dt: real)
    requires r in c.members && q != r && k in s.rows && s.rows[k].owner == r && dt >= 0.0
    requires Enabled(c, Apply(c, s, Crash(r)), Elapse(dt))
    ensures
      var later := Apply(c, Apply(c, s, Crash(r)), Elapse(dt));
      && (Leases.Claimable(later.rows, q, k, later.now) <==> s.rows[k].expires < s.now + dt)
      && (forall p :: p in later.held ==> p.0 != r) && (forall p :: p in later.attached ==> p.0 != r)
      && (forall t :: t in later.tasks ==> later.tasks[t].r != r) && r !in later.beats
      && (forall p :: p in s.held && p.0 != r ==> p in later.held && later.held[p] == s.held[p])
      && (forall p :: p in s.attached && p.0 != r ==> p in later.attached)
      && (forall t :: t in s.tasks && s.tasks[t].r != r ==> t in later.tasks && later.tasks[t] == s.tasks[t])
  {
  }

  /** A workspace's own lease is kept like an agent's: the claim lists it in the mirror, the
      next heartbeat finds it there, and its renewal extends the row from then on. */
  lemma LifecycleIsRenewed(c: Config, s: Cluster, r: Replica, k: Key, dt: real)
    requires r in c.members && Resting(s, r) && Leases.Claimable(s.rows, r, k, s.now)
    requires Enabled(c, Apply(c, s, Lifecycle(r, k)), Elapse(dt))
    ensures
      var claimed := Apply(c, s, Lifecycle(r, k));
      var later := Apply(c, claimed, Elapse(dt));
      && Enabled(c, later, Snapshot(r))
      && var beat := Apply(c, later, Snapshot(r));
      && Enabled(c, beat, Renewal(r, k, false))
      && var renewed := Apply(c, beat, Renewal(r, k, false));
      && renewed.held == claimed.held && (r, k) in renewed.held
      && renewed.rows == claimed.rows[k := Leases.Row(r, claimed.held[(r, k)], s.now + dt + c.ttl(r))]
  {
    var claimed := Apply(c, s, Lifecycle(r, k));
    var later := Apply(c, claimed, Elapse(dt));
    assert claimed.held[(r, k)] == claimed.rows[k].epoch && claimed.rows[k].owner == r;
    var beat := Apply(c, later, Snapshot(r));
    assert (r, k) in later.held && k in Mine(later.held, r);
    assert beat.beats[r].todo[k] == claimed.held[(r, k)];
  }

  /** While another replica has the workspace, claiming it changes nothing. */
  lemma LifecycleRefused(c: Config, s: Cluster, r: Replica, k: Key)
    requires r in c.members && !Leases.Claimable(s.rows, r, k, s.now)
    ensures Apply(c, s, Lifecycle(r, k)) == s
  {
  }

  /** A renewal that fails marks the lease, and the step that follows drops it from the
      mirror; the row is not touched by either. */
  lemma LostIsDropped(c: Config, s: Cluster, r: Replica, k: Key, fault: bool)
    requires Enabled(c, s, Renewal(r, k, fault)) && (fault || !Leases.Renewable(s.rows, r, k, s.beats[r].todo[k]))
    ensures
      var failed := Apply(c, s, Renewal(r, k, fault));
      && failed.rows == s.rows && failed.held == s.held && Enabled(c, failed, Drop(r))
      && var dropped := Apply(c, failed, Drop(r));
      && dropped.held == s.held - {(r, k)} && dropped.rows == s.rows
      && dropped.beats[r] == Beat(s.beats[r].todo - {k}, None)
  {
  }
}
