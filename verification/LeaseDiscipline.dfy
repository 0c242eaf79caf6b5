/** Two disciplines under which every run passes the guards of the single-writer result:
    activities that are not interrupted, and attach attempts that do not overlap. */
module LeaseDiscipline {
  import Leases
  import opened SingleWriter

  type Key = Leases.Key
  type Replica = Leases.Replica

  // ------------------------------------------- activities taken as one step

  /** Between its claim and its registration, or between leaving the registry and the
      end of its release. */
  predicate Halfway(task: Task) {
    task.pc.Granted? || task.pc == Claimed || task.pc == Removed || task.pc == Forgotten
  }

  predicate IsOf(op: Op, t: TaskId) {
    match op
    case Claim(u) => u == t
    case Mirror(u) => u == t
    case Register(u) => u == t
    case Remove(u) => u == t
    case Forget(u) => u == t
    case Delete(u) => u == t
    case _ => false
  }

  /** Nothing else is halfway: claim-and-register, remove-and-release and a heartbeat are
      each carried through before anything else is begun, though time may pass and
      replicas may crash meanwhile.  Two attempts may still both have seen the agent
      unattached.  The database does not fail on renewing a lease that is relied on. */
  ghost predicate Alone(s: Cluster, op: Op) {
    op.Crash? || op.Elapse? ||
    (&& (forall t :: t in s.tasks && Halfway(s.tasks[t]) ==> IsOf(op, t))
     && (forall r :: !Resting(s, r) ==> op == Drop(r) || (op.Renewal? && op.r == r))
     && (op.Renewal? && op.fault ==> MirrorFree(s, op.r, op.k)))
  }

  ghost predicate Uninterrupted(c: Config, s: Cluster, ops: seq<Op>)
    requires Allowed(c, s, ops)
    decreases |ops|
  {
    ops == [] || (Alone(s, ops[0]) && Uninterrupted(c, Apply(c, s, ops[0]), ops[1..]))
  }

  /** Being wound up: out of the registry, the release not finished. */
  predicate WindingUp(task: Task) {
    task.pc == Removed || task.pc == Forgotten
  }

  /** A task that is being wound up leaves no other running, and a heartbeat in progress
      still has what its snapshot had. */
  ghost predicate WoundUpAlone(s: Cluster) {
    forall t, u :: t in s.tasks && WindingUp(s.tasks[t]) && At(s, u, Running) ==>
      !On(s.tasks[u], s.tasks[t].r, s.tasks[t].k)
  }

  ghost predicate BeatCurrent(s: Cluster, r: Replica) {
    r in s.beats ==>
      && (forall k :: k in s.beats[r].todo ==> (r, k) in s.held && s.held[(r, k)] == s.beats[r].todo[k])
      && (s.beats[r].lost.Some? ==> MirrorFree(s, r, s.beats[r].lost.value) && s.beats[r].lost.value !in s.beats[r].todo)
  }

  ghost predicate Tidy(s: Cluster) {
    WoundUpAlone(s) && forall r :: BeatCurrent(s, r)
  }

  lemma ForgetGuard(s: Cluster, t: TaskId)
    requires Tidy(s) && t in s.tasks && WindingUp(s.tasks[t])
    requires forall u :: u in s.tasks && u != t ==> !Halfway(s.tasks[u])
    ensures RowFree(s, s.tasks[t].r, s.tasks[t].k) && MirrorFree(s, s.tasks[t].r, s.tasks[t].k)
  {
    forall u | u in s.tasks && On(s.tasks[u], s.tasks[t].r, s.tasks[t].k)
      ensures !NeedsRow(s.tasks[u])
    {
      assert !At(s, u, Running);
    }
  }

  lemma AloneIsGuarded(c: Config, s: Cluster, op: Op)
    requires Tidy(s) && Enabled(c, s, op) && Alone(s, op)
    ensures Guard(c, s, op)
  {
    match op
    case Forget(t) => ForgetGuard(s, t);
    case Delete(t) => ForgetGuard(s, t);
    case Drop(r) => assert BeatCurrent(s, r);
    case _ =>
  }

  /** Outside a heartbeat, every beat is at rest and says nothing. */
  lemma RestingIsCurrent(s: Cluster)
    requires forall r :: Resting(s, r)
    ensures forall r :: BeatCurrent(s, r)
  {
    forall r ensures BeatCurrent(s, r) {
      assert Resting(s, r);
    }
  }

  predicate IsBeat(op: Op) {
    op.Snapshot? || op.Renewal? || op.Drop?
  }

  /** One task comes, goes or moves, and is neither running nor being wound up after it. */
  lemma OneMoves(s: Cluster, s': Cluster, t: TaskId)
    requires WoundUpAlone(s) && forall u :: u in s'.tasks && u != t ==> u in s.tasks && s'.tasks[u] == s.tasks[u]
    requires t in s'.tasks ==> !WindingUp(s'.tasks[t]) && s'.tasks[t].pc != Running
    ensures WoundUpAlone(s')
  {
    forall v, u | v in s'.tasks && WindingUp(s'.tasks[v]) && At(s', u, Running)
      ensures !On(s'.tasks[u], s'.tasks[v].r, s'.tasks[v].k)
    {
      assert v in s.tasks && WindingUp(s.tasks[v]) && At(s, u, Running);
    }
  }

  lemma RegisterAlone(s: Cluster, t: TaskId)
    requires WoundUpAlone(s) && At(s, t, Claimed) && forall u :: u in s.tasks && u != t ==> !Halfway(s.tasks[u])
    ensures WoundUpAlone(RegisterStep(s, t))
  {
    var s' := RegisterStep(s, t);
    forall v | v in s'.tasks ensures !WindingUp(s'.tasks[v]) {
      assert v != t ==> !Halfway(s.tasks[v]);
    }
  }

  lemma RemoveAlone(s: Cluster, t: TaskId)
    requires WoundUpAlone(s) && OneRunner(s) && At(s, t, Running)
    ensures WoundUpAlone(RemoveStep(s, t))
  {
    var s' := RemoveStep(s, t);
    forall v, u | v in s'.tasks && WindingUp(s'.tasks[v]) && At(s', u, Running)
      ensures !On(s'.tasks[u], s'.tasks[v].r, s'.tasks[v].k)
    {
      assert At(s, u, Running) && u != t;
      if v == t {
        assert At(s, t, Running);
      } else {
        assert WindingUp(s.tasks[v]);
      }
    }
  }

  lemma ForgetAlone(s: Cluster, t: TaskId)
    requires WoundUpAlone(s) && At(s, t, Removed)
    ensures WoundUpAlone(ForgetStep(s, t))
  {
    var s' := ForgetStep(s, t);
    forall v, u | v in s'.tasks && WindingUp(s'.tasks[v]) && At(s', u, Running)
      ensures !On(s'.tasks[u], s'.tasks[v].r, s'.tasks[v].k)
    {
      assert WindingUp(s.tasks[v]) && At(s, u, Running);
    }
  }

  lemma CrashTidy(s: Cluster, r: Replica)
    requires Tidy(s)
    ensures Tidy(CrashStep(s, r))
  {
    var s' := CrashStep(s, r);
    forall v, u | v in s'.tasks && WindingUp(s'.tasks[v]) && At(s', u, Running)
      ensures !On(s'.tasks[u], s'.tasks[v].r, s'.tasks[v].k)
    {
      assert WindingUp(s.tasks[v]) && At(s, u, Running);
    }
    forall q ensures BeatCurrent(s', q) {
      assert BeatCurrent(s, q);
    }
  }

  lemma ElapseTidy(s: Cluster, dt: real)
    requires Tidy(s)
    ensures Tidy(s.(now := s.now + dt))
  {
    var s' := s.(now := s.now + dt);
    forall v, u | v in s'.tasks && WindingUp(s'.tasks[v]) && At(s', u, Running)
      ensures !On(s'.tasks[u], s'.tasks[v].r, s'.tasks[v].k)
    {
      assert WindingUp(s.tasks[v]) && At(s, u, Running);
    }
    forall q ensures BeatCurrent(s', q) {
      assert BeatCurrent(s, q);
    }
  }

  /** The steps of attach and release. */
  lemma TaskStepAlone(c: Config, s: Cluster, op: Op)
    requires OneRunner(s) && WoundUpAlone(s) && Enabled(c, s, op) && Alone(s, op)
    requires !IsBeat(op) && !op.Crash? && !op.Elapse?
    ensures WoundUpAlone(Apply(c, s, op))
  {
    match op
    case Begin(t, _, _) => OneMoves(s, Apply(c, s, op), t);
    case Claim(t) => OneMoves(s, ClaimStep(c, s, t), t);
    case Mirror(t) => OneMoves(s, MirrorStep(s, t), t);
    case Register(t) => RegisterAlone(s, t);
    case Remove(t) => RemoveAlone(s, t);
    case Forget(t) => ForgetAlone(s, t);
    case Delete(t) => OneMoves(s, DeleteStep(s, t), t);
    case Lifecycle(r, k) =>
  }

  lemma TaskStepTidy(c: Config, s: Cluster, op: Op)
    requires Inv(c, s) && Tidy(s) && Enabled(c, s, op) && Alone(s, op)
    requires !IsBeat(op) && !op.Crash? && !op.Elapse?
    ensures Tidy(Apply(c, s, op))
  {
    var s' := Apply(c, s, op);
    assert s'.beats == s.beats;
    forall r ensures Resting(s', r) {
      assert Resting(s, r);
    }
    RestingIsCurrent(s');
    TaskStepAlone(c, s, op);
  }

  lemma SnapshotTidy(s: Cluster, r: Replica)
    requires Tidy(s)
    ensures Tidy(SnapshotStep(s, r))
  {
    var s' := SnapshotStep(s, r);
    forall q ensures BeatCurrent(s', q) {
      assert BeatCurrent(s, q);
    }
  }

  /** A renewal of a lease that some task relies on does not fail. */
  lemma RenewalTidy(c: Config, s: Cluster, r: Replica, k: Key, fault: bool)
    requires Inv(c, s) && Tidy(s) && Enabled(c, s, Renewal(r, k, fault)) && Alone(s, Renewal(r, k, fault))
    ensures Tidy(RenewalStep(c, s, r, k, fault))
  {
    var s' := RenewalStep(c, s, r, k, fault);
    assert BeatCurrent(s, r);
    if !fault && !Leases.Renewable(s.rows, r, k, s.beats[r].todo[k]) {
      forall u | u in s.tasks && On(s.tasks[u], r, k) ensures !NeedsMirror(s.tasks[u]) {
        assert Sound(c, s, s.tasks[u]);
      }
    }
    forall q ensures BeatCurrent(s', q) {
      assert BeatCurrent(s, q);
    }
  }

  lemma DropTidy(s: Cluster, r: Replica)
    requires Tidy(s) && r in s.beats && s.beats[r].lost.Some?
    ensures Tidy(DropStep(s, r))
  {
    var s' := DropStep(s, r);
    assert BeatCurrent(s, r);
    forall q ensures BeatCurrent(s', q) {
      assert BeatCurrent(s, q);
    }
  }

  lemma StepTidy(c: Config, s: Cluster, op: Op)
    requires Inv(c, s) && Tidy(s) && Enabled(c, s, op) && Alone(s, op)
    ensures Tidy(Apply(c, s, op))
  {
    match op
    case Snapshot(r) => SnapshotTidy(s, r);
    case Renewal(r, k, fault) => RenewalTidy(c, s, r, k, fault);
    case Drop(r) => DropTidy(s, r);
    case Crash(r) => CrashTidy(s, r);
    case Elapse(dt) => ElapseTidy(s, dt);
    case _ => TaskStepTidy(c, s, op);
  }

  lemma {:induction false} UninterruptedIsGuarded(c: Config, s: Cluster, ops: seq<Op>)
    requires Prompt(c) && Inv(c, s) && Tidy(s) && Allowed(c, s, ops) && Uninterrupted(c, s, ops)
    ensures Guarded(c, s, ops)
    decreases |ops|
  {
    if ops != [] {
      AloneIsGuarded(c, s, ops[0]);
      StepExact(c, s, ops[0]);
      StepTidy(c, s, ops[0]);
      UninterruptedIsGuarded(c, Apply(c, s, ops[0]), ops[1..]);
    }
  }

  /** With claim-and-register, remove-and-release and each heartbeat taken as one step,
      there is one writer, however many attempts passed the first check together. */
  lemma AtomicStepsAreSafe(c: Config, ops: seq<Op>)
    requires Prompt(c) && Allowed(c, Initial, ops) && Uninterrupted(c, Initial, ops)
    ensures OneWriter(Run(c, Initial, ops))
  {
    UninterruptedIsGuarded(c, Initial, ops);
    SingleWriterSafety(c, ops);
  }

  // ------------------------------------------------- one attempt at a time

  ghost predicate Idle(s: Cluster, r: Replica, k: Key) {
    forall t :: t in s.tasks ==> !On(s.tasks[t], r, k)
  }

  /** An attempt begins only when the replica has none for the agent, and a lease whose
      renewal failed is dropped before it is claimed again. */
  ghost predicate OneAtATime(c: Config, s: Cluster, ops: seq<Op>)
    requires Allowed(c, s, ops)
    decreases |ops|
  {
    if ops == [] then true
    else
      && (ops[0].Begin? ==> Idle(s, ops[0].r, ops[0].k))
      && (ops[0].Drop? ==> Guard(c, s, ops[0]))
      && OneAtATime(c, Apply(c, s, ops[0]), ops[1..])
  }

  ghost predicate OneLane(s: Cluster) {
    forall t, u :: t in s.tasks && u in s.tasks && On(s.tasks[u], s.tasks[t].r, s.tasks[t].k) ==> t == u
  }

  /** Tasks keep their replica and agent, and a new one comes only where there is none. */
  lemma LaneStays(s: Cluster, s': Cluster)
    requires OneLane(s)
    requires forall t :: t in s'.tasks && t in s.tasks ==> On(s'.tasks[t], s.tasks[t].r, s.tasks[t].k)
    requires forall t :: t in s'.tasks && t !in s.tasks ==> Idle(s, s'.tasks[t].r, s'.tasks[t].k)
    requires forall t, u :: t in s'.tasks && u in s'.tasks && t !in s.tasks && u !in s.tasks ==> t == u
    ensures OneLane(s')
  {
    forall t, u | t in s'.tasks && u in s'.tasks && On(s'.tasks[u], s'.tasks[t].r, s'.tasks[t].k)
      ensures t == u
    {
      if t in s.tasks && u in s.tasks {
        assert On(s.tasks[u], s.tasks[t].r, s.tasks[t].k);
      }
    }
  }

  lemma StepKeepsLane(c: Config, s: Cluster, op: Op)
    requires OneLane(s) && Enabled(c, s, op) && (op.Begin? ==> Idle(s, op.r, op.k))
    ensures OneLane(Apply(c, s, op))
  {
    LaneStays(s, Apply(c, s, op));
  }

  lemma {:induction false} OneAtATimeIsGuarded(c: Config, s: Cluster, ops: seq<Op>)
    requires OneLane(s) && Allowed(c, s, ops) && OneAtATime(c, s, ops)
    ensures Guarded(c, s, ops)
    decreases |ops|
  {
    if ops != [] {
      StepKeepsLane(c, s, ops[0]);
      OneAtATimeIsGuarded(c, Apply(c, s, ops[0]), ops[1..]);
    }
  }

  /** Attempts that do not overlap need only the heartbeat's guard. */
  lemma SeparateAttemptsAreSafe(c: Config, ops: seq<Op>)
    requires Prompt(c) && Allowed(c, Initial, ops) && OneAtATime(c, Initial, ops)
    ensures OneWriter(Run(c, Initial, ops))
  {
    OneAtATimeIsGuarded(c, Initial, ops);
    SingleWriterSafety(c, ops);
  }
}
