/** Who drives an agent's stream: the lease table, each replica's mirror of the leases
    it holds, its heartbeat, and the attach tasks that rely on them, stepped at every
    statement and lock section between which the daemon may be interleaved.
 */
module SingleWriter {
  import opened Common
  import opened Leases

  /** Where one `start_attach` call stands: it has seen the agent unattached; the claim
      statement has granted it the lease; the mirror has it too; it is driving the
      stream; it has ended and left the registry; the mirror has forgotten the lease
      but the row is not deleted yet. */
  datatype Pc = Checked | Granted(epoch: nat) | Claimed | Running | Removed | Forgotten

  datatype Task = Task(r: Replica, k: Key, pc: Pc)

  type TaskId = nat

  /** A replica's heartbeat: the leases of its snapshot still to be renewed, and the
      one whose renewal has just failed and is to be dropped from the mirror. */
  datatype Beat = Beat(todo: map<Key, nat>, lost: Option<Key>)

  datatype Cluster = Cluster(
    now: real,
    rows: Rows,
    held: map<(Replica, Key), nat>,
    attached: set<(Replica, Key)>,
    tasks: map<TaskId, Task>,
    beats: map<Replica, Beat>)

  /** `ttl` and `interval` are what the daemons were started with. */
  datatype Config = Config(members: set<Replica>, ttl: Replica -> real, interval: Replica -> real)

  datatype Op =
    | Begin(t: TaskId, r: Replica, k: Key)
    | Claim(t: TaskId)
    | Mirror(t: TaskId)
    | Register(t: TaskId)
    | Remove(t: TaskId)
    | Forget(t: TaskId)
    | Delete(t: TaskId)
    | Lifecycle(r: Replica, k: Key)
    | Snapshot(r: Replica)
    | Renewal(r: Replica, k: Key, fault: bool)
    | Drop(r: Replica)
    | Crash(r: Replica)
    | Elapse(dt: real)

  const Initial := Cluster(0.0, map[], map[], {}, map[], map[])

  predicate At(s: Cluster, t: TaskId, pc: Pc) {
    t in s.tasks && s.tasks[t].pc == pc
  }

  predicate Resting(s: Cluster, r: Replica) {
    r in s.beats ==> s.beats[r].todo == map[] && s.beats[r].lost.None?
  }

  /** At time `now` the lease `r` has on `k`, if it has one, was granted or renewed no
      longer than a heartbeat interval ago. */
  predicate Recent(c: Config, rows: Rows, r: Replica, k: Key, now: real) {
    k in rows && rows[k].owner == r ==> now <= rows[k].expires - c.ttl(r) + c.interval(r)
  }

  /** Heartbeats are on time: no lease that a mirror lists, or that a claim has just
      been granted, goes longer than the interval without being renewed. */
  predicate OnTime(c: Config, s: Cluster, now: real) {
    && (forall p :: p in s.held ==> Recent(c, s.rows, p.0, p.1, now))
    && (forall t :: t in s.tasks && s.tasks[t].pc.Granted? ==> Recent(c, s.rows, s.tasks[t].r, s.tasks[t].k, now))
  }

  predicate Enabled(c: Config, s: Cluster, op: Op) {
    match op
    case Begin(t, r, k) => t !in s.tasks && r in c.members && (r, k) !in s.attached
    case Claim(t) => At(s, t, Checked)
    case Mirror(t) => t in s.tasks && s.tasks[t].pc.Granted?
    case Register(t) => At(s, t, Claimed)
    case Remove(t) => At(s, t, Running)
    case Forget(t) => At(s, t, Removed)
    case Delete(t) => At(s, t, Forgotten)
    case Lifecycle(r, k) => r in c.members
    case Snapshot(r) => r in c.members && Resting(s, r)
    case Renewal(r, k, _) => r in s.beats && k in s.beats[r].todo && s.beats[r].lost.None?
    case Drop(r) => r in s.beats && s.beats[r].lost.Some?
    case Crash(r) => r in c.members
    case Elapse(dt) => dt >= 0.0 && OnTime(c, s, s.now + dt)
  }

  function SetPc(s: Cluster, t: TaskId, pc: Pc): Cluster
    requires t in s.tasks
  {
    s.(tasks := s.tasks[t := s.tasks[t].(pc := pc)])
  }

  function Gone(s: Cluster, t: TaskId): Cluster {
    s.(tasks := s.tasks - {t})
  }

  function ClaimStep(c: Config, s: Cluster, t: TaskId): Cluster
    requires t in s.tasks
  {
    var task := s.tasks[t];
    if Claimable(s.rows, task.r, task.k, s.now) then
      var row := ClaimedRow(s.rows, task.r, task.k, c.ttl(task.r), s.now);
      SetPc(s.(rows := s.rows[task.k := row]), t, Granted(row.epoch))
    else Gone(s, t)
  }

  function MirrorStep(s: Cluster, t: TaskId): Cluster
    requires t in s.tasks && s.tasks[t].pc.Granted?
  {
    SetPc(s.(held := s.held[(s.tasks[t].r, s.tasks[t].k) := s.tasks[t].pc.epoch]), t, Claimed)
  }

  function RegisterStep(s: Cluster, t: TaskId): Cluster
    requires t in s.tasks
  {
    var p := (s.tasks[t].r, s.tasks[t].k);
    if p in s.attached then Gone(s, t) else SetPc(s.(attached := s.attached + {p}), t, Running)
  }

  function RemoveStep(s: Cluster, t: TaskId): Cluster
    requires t in s.tasks
  {
    SetPc(s.(attached := s.attached - {(s.tasks[t].r, s.tasks[t].k)}), t, Removed)
  }

  function ForgetStep(s: Cluster, t: TaskId): Cluster
    requires t in s.tasks
  {
    SetPc(s.(held := s.held - {(s.tasks[t].r, s.tasks[t].k)}), t, Forgotten)
  }

  function DeleteStep(s: Cluster, t: TaskId): Cluster
    requires t in s.tasks
  {
    Gone(s.(rows := ReleaseRows(s.rows, s.tasks[t].r, s.tasks[t].k)), t)
  }

  /** `try_acquire` for a workspace's own stream: the statement and the mirror. */
  function LifecycleStep(c: Config, s: Cluster, r: Replica, k: Key): Cluster {
    if Claimable(s.rows, r, k, s.now) then
      var row := ClaimedRow(s.rows, r, k, c.ttl(r), s.now);
      s.(rows := s.rows[k := row], held := s.held[(r, k) := row.epoch])
    else s
  }

  /** The leases in `r`'s own mirror. */
  function Mine(held: map<(Replica, Key), nat>, r: Replica): map<Key, nat> {
    map k | k in (set p | p in held && p.0 == r :: p.1) :: held[(r, k)]
  }

  function SnapshotStep(s: Cluster, r: Replica): Cluster {
    s.(beats := s.beats[r := Beat(Mine(s.held, r), None)])
  }

  /** The renewal of one lease of the snapshot; it fails when the row is not `r`'s at that
      epoch any more, and also when the database does (`fault`). */
  function RenewalStep(c: Config, s: Cluster, r: Replica, k: Key, fault: bool): Cluster
    requires r in s.beats && k in s.beats[r].todo
  {
    var b := s.beats[r].(todo := s.beats[r].todo - {k});
    if !fault && Renewable(s.rows, r, k, s.beats[r].todo[k])
    then s.(rows := RenewRows(s.rows, r, k, s.beats[r].todo[k], c.ttl(r), s.now), beats := s.beats[r := b])
    else s.(beats := s.beats[r := b.(lost := Some(k))])
  }

  function DropStep(s: Cluster, r: Replica): Cluster
    requires r in s.beats && s.beats[r].lost.Some?
  {
    s.(held := s.held - {(r, s.beats[r].lost.value)}, beats := s.beats[r := s.beats[r].(lost := None)])
  }

  function CrashStep(s: Cluster, r: Replica): Cluster {
    s.(held := map p | p in s.held && p.0 != r :: s.held[p],
       attached := (set p | p in s.attached && p.0 != r),
       tasks := map t | t in s.tasks && s.tasks[t].r != r :: s.tasks[t],
       beats := s.beats - {r})
  }

  function Apply(c: Config, s: Cluster, op: Op): Cluster
    requires Enabled(c, s, op)
  {
    match op
    case Begin(t, r, k) => s.(tasks := s.tasks[t := Task(r, k, Checked)])
    case Claim(t) => ClaimStep(c, s, t)
    case Mirror(t) => MirrorStep(s, t)
    case Register(t) => RegisterStep(s, t)
    case Remove(t) => RemoveStep(s, t)
    case Forget(t) => ForgetStep(s, t)
    case Delete(t) => DeleteStep(s, t)
    case Lifecycle(r, k) => LifecycleStep(c, s, r, k)
    case Snapshot(r) => SnapshotStep(s, r)
    case Renewal(r, k, fault) => RenewalStep(c, s, r, k, fault)
    case Drop(r) => DropStep(s, r)
    case Crash(r) => CrashStep(s, r)
    case Elapse(dt) => s.(now := s.now + dt)
  }

  predicate Allowed(c: Config, s: Cluster, ops: seq<Op>)
    decreases |ops|
  {
    ops == [] || (Enabled(c, s, ops[0]) && Allowed(c, Apply(c, s, ops[0]), ops[1..]))
  }

  function Run(c: Config, s: Cluster, ops: seq<Op>): Cluster
    requires Allowed(c, s, ops)
    decreases |ops|
  {
    if ops == [] then s else Run(c, Apply(c, s, ops[0]), ops[1..])
  }

  /** One writer per stream in the whole cluster, and it owns an unexpired row. */
  ghost predicate OneWriter(s: Cluster) {
    && (forall t, u :: At(s, t, Running) && At(s, u, Running) && s.tasks[t].k == s.tasks[u].k ==> t == u)
    && (forall t :: At(s, t, Running) ==>
          var k := s.tasks[t].k;
          k in s.rows && s.rows[k].owner == s.tasks[t].r && s.now <= s.rows[k].expires)
  }

  // ------------------------------------------------------------- the guards

  /** These rely on the lease being in the mirror, where the heartbeat finds it. */
  predicate NeedsMirror(task: Task) {
    task.pc == Claimed || task.pc == Running
  }

  predicate NeedsRow(task: Task) {
    task.pc.Granted? || NeedsMirror(task)
  }

  predicate On(task: Task, r: Replica, k: Key) {
    task.r == r && task.k == k
  }

  /** No task relies on `r`'s mirror listing `k`. */
  ghost predicate MirrorFree(s: Cluster, r: Replica, k: Key) {
    forall u :: u in s.tasks && On(s.tasks[u], r, k) ==> !NeedsMirror(s.tasks[u])
  }

  /** No task relies on `r` owning the row of `k`. */
  ghost predicate RowFree(s: Cluster, r: Replica, k: Key) {
    forall u :: u in s.tasks && On(s.tasks[u], r, k) ==> !NeedsRow(s.tasks[u])
  }

  predicate GrantedOn(task: Task, r: Replica, k: Key) {
    task.pc.Granted? && On(task, r, k)
  }

  /** An attempt of `r` has been granted `k` and will list it in the mirror next. */
  ghost predicate Pending(s: Cluster, r: Replica, k: Key) {
    exists v :: v in s.tasks && GrantedOn(s.tasks[v], r, k)
  }

  /** The lease can leave the mirror: no task relies on it, or an attempt that has been
      granted it will list it again. */
  ghost predicate MayForget(s: Cluster, r: Replica, k: Key) {
    MirrorFree(s, r, k) || Pending(s, r, k)
  }

  /** The three steps that take a lease away look first whether another attempt of the
      same replica for the same agent relies on it: forgetting it and deleting its row
      when a task ends, and dropping it after a renewal that failed. */
  ghost predicate Guard(c: Config, s: Cluster, op: Op)
    requires Enabled(c, s, op)
  {
    match op
    case Forget(t) => MayForget(s, s.tasks[t].r, s.tasks[t].k)
    case Delete(t) => RowFree(s, s.tasks[t].r, s.tasks[t].k)
    case Drop(r) => MayForget(s, r, s.beats[r].lost.value)
    case _ => true
  }

  ghost predicate Guarded(c: Config, s: Cluster, ops: seq<Op>)
    requires Allowed(c, s, ops)
    decreases |ops|
  {
    ops == [] || (Guard(c, s, ops[0]) && Guarded(c, Apply(c, s, ops[0]), ops[1..]))
  }

  // ------------------------------------------------------------- invariant

  ghost predicate HasRow(c: Config, s: Cluster, r: Replica, k: Key) {
    k in s.rows && s.rows[k].owner == r && Recent(c, s.rows, r, k, s.now)
  }

  /** The mirror has `r`'s lease on `k` at the epoch of the row. */
  predicate InMirror(s: Cluster, r: Replica, k: Key) {
    (r, k) in s.held && k in s.rows && s.held[(r, k)] == s.rows[k].epoch
  }

  ghost predicate Mirrored(s: Cluster, r: Replica, k: Key) {
    InMirror(s, r, k) || Pending(s, r, k)
  }

  ghost predicate Sound(c: Config, s: Cluster, task: Task) {
    && task.r in c.members
    && (NeedsRow(task) ==> HasRow(c, s, task.r, task.k))
    && (task.pc.Granted? ==> s.rows[task.k].epoch == task.pc.epoch)
    && (NeedsMirror(task) ==> Mirrored(s, task.r, task.k))
    && (task.pc == Running ==> (task.r, task.k) in s.attached)
  }

  ghost predicate AllSound(c: Config, s: Cluster) {
    forall t :: t in s.tasks ==> Sound(c, s, s.tasks[t])
  }

  ghost predicate OneRunner(s: Cluster) {
    forall t, u :: At(s, t, Running) && At(s, u, Running) && On(s.tasks[u], s.tasks[t].r, s.tasks[t].k) ==> t == u
  }

  ghost predicate Inv(c: Config, s: Cluster) {
    AllSound(c, s) && OneRunner(s)
  }

  ghost predicate Prompt(c: Config) {
    forall r :: r in c.members ==> 0.0 < c.interval(r) <= c.ttl(r)
  }

  /** While heartbeats are on time nobody else can claim a lease that is relied on. */
  lemma OnlyOwnerClaims(c: Config, s: Cluster, task: Task, r: Replica)
    requires Prompt(c) && Sound(c, s, task) && NeedsRow(task) && Claimable(s.rows, r, task.k, s.now)
    ensures r == task.r
  {
  }

  lemma MirroredStays(s: Cluster, s': Cluster, r: Replica, k: Key)
    requires Mirrored(s, r, k) && (InMirror(s, r, k) ==> InMirror(s', r, k))
    requires forall v :: v in s.tasks && GrantedOn(s.tasks[v], r, k) ==> v in s'.tasks && GrantedOn(s'.tasks[v], r, k)
    ensures Mirrored(s', r, k)
  {
    if Pending(s, r, k) {
      var v :| v in s.tasks && GrantedOn(s.tasks[v], r, k);
      assert v in s'.tasks;
    }
  }

  /** A claim of `k` by `r`, as other tasks see it. */
  lemma ClaimKeepsSound(c: Config, s: Cluster, r: Replica, k: Key, task: Task)
    requires Prompt(c) && Sound(c, s, task) && r in c.members && Claimable(s.rows, r, k, s.now)
    ensures Sound(c, s.(rows := s.rows[k := ClaimedRow(s.rows, r, k, c.ttl(r), s.now)]), task)
  {
    var s' := s.(rows := s.rows[k := ClaimedRow(s.rows, r, k, c.ttl(r), s.now)]);
    if NeedsRow(task) && task.k == k {
      OnlyOwnerClaims(c, s, task, r);
    }
    if NeedsMirror(task) {
      MirroredStays(s, s', task.r, task.k);
    }
  }

  /** A task is as sound as it was when its row, its registration and what it is mirrored
      by are. */
  lemma SoundStays(c: Config, s: Cluster, s': Cluster, task: Task)
    requires Sound(c, s, task) && s'.now == s.now
    requires task.k in s.rows ==> task.k in s'.rows && s'.rows[task.k] == s.rows[task.k]
    requires task.pc == Running ==> (task.r, task.k) in s'.attached
    requires NeedsMirror(task) && InMirror(s, task.r, task.k) ==> InMirror(s', task.r, task.k)
    requires NeedsMirror(task) ==> forall v :: v in s.tasks && GrantedOn(s.tasks[v], task.r, task.k) ==>
      v in s'.tasks && GrantedOn(s'.tasks[v], task.r, task.k)
    ensures Sound(c, s', task)
  {
    if NeedsMirror(task) {
      MirroredStays(s, s', task.r, task.k);
    }
  }

  lemma GrantKeepsSound(c: Config, s: Cluster, t: TaskId, u: TaskId)
    requires Prompt(c) && AllSound(c, s) && At(s, t, Checked) && u in s.tasks && u != t
    requires Claimable(s.rows, s.tasks[t].r, s.tasks[t].k, s.now)
    ensures Sound(c, ClaimStep(c, s, t), s.tasks[u])
  {
    var s' := ClaimStep(c, s, t);
    assert Sound(c, s, s.tasks[t]);
    ClaimKeepsSound(c, s, s.tasks[t].r, s.tasks[t].k, s.tasks[u]);
    SoundStays(c, s.(rows := s'.rows), s', s.tasks[u]);
  }

  lemma ClaimKeepsInv(c: Config, s: Cluster, t: TaskId)
    requires Prompt(c) && Inv(c, s) && At(s, t, Checked)
    ensures Inv(c, ClaimStep(c, s, t))
  {
    var s' := ClaimStep(c, s, t);
    assert Sound(c, s, s.tasks[t]);
    forall u | u in s'.tasks && u != t ensures Sound(c, s', s'.tasks[u]) {
      if Claimable(s.rows, s.tasks[t].r, s.tasks[t].k, s.now) {
        GrantKeepsSound(c, s, t, u);
      } else {
        SoundStays(c, s, s', s.tasks[u]);
      }
    }
  }

  lemma MirrorKeepsInv(c: Config, s: Cluster, t: TaskId)
    requires Inv(c, s) && t in s.tasks && s.tasks[t].pc.Granted?
    ensures Inv(c, MirrorStep(s, t))
  {
    var s' := MirrorStep(s, t);
    var task := s.tasks[t];
    assert Sound(c, s, task);
    assert InMirror(s', task.r, task.k);
    forall u | u in s'.tasks && u != t ensures Sound(c, s', s'.tasks[u]) {
      if !On(s.tasks[u], task.r, task.k) {
        SoundStays(c, s, s', s.tasks[u]);
      } else {
        assert Sound(c, s, s.tasks[u]);
      }
    }
  }

  lemma RegisterKeepsInv(c: Config, s: Cluster, t: TaskId)
    requires Inv(c, s) && At(s, t, Claimed)
    ensures Inv(c, RegisterStep(s, t))
  {
    var s' := RegisterStep(s, t);
    forall u | u in s'.tasks ensures Sound(c, s', s'.tasks[u]) {
      if u != t {
        SoundStays(c, s, s', s.tasks[u]);
      } else {
        assert Sound(c, s, s.tasks[t]);
        MirroredStays(s, s', s.tasks[t].r, s.tasks[t].k);
      }
    }
  }

  lemma RemoveKeepsInv(c: Config, s: Cluster, t: TaskId)
    requires Inv(c, s) && At(s, t, Running)
    ensures Inv(c, RemoveStep(s, t))
  {
    var s' := RemoveStep(s, t);
    assert Sound(c, s, s.tasks[t]);
    forall u | u in s'.tasks && u != t ensures Sound(c, s', s'.tasks[u]) {
      assert At(s, u, Running) ==> !On(s.tasks[u], s.tasks[t].r, s.tasks[t].k);
      SoundStays(c, s, s', s.tasks[u]);
    }
  }

  /** `s'` is `s` without `r`'s lease on `k` in the mirror; a task may have moved on to its
      delete. */
  ghost predicate Unlisted(s: Cluster, s': Cluster, r: Replica, k: Key) {
    && s'.held == s.held - {(r, k)} && s'.rows == s.rows && s'.now == s.now && s'.attached == s.attached
    && s'.tasks.Keys == s.tasks.Keys
    && forall u :: u in s.tasks ==>
         s'.tasks[u] == s.tasks[u] || (s.tasks[u].pc == Removed && s'.tasks[u] == s.tasks[u].(pc := Forgotten))
  }

  lemma UnlistKeepsSound(c: Config, s: Cluster, s': Cluster, r: Replica, k: Key, u: TaskId)
    requires Unlisted(s, s', r, k) && MayForget(s, r, k) && u in s.tasks && Sound(c, s, s.tasks[u])
    ensures Sound(c, s', s'.tasks[u])
  {
    if NeedsMirror(s.tasks[u]) {
      if On(s.tasks[u], r, k) {
        var v :| v in s.tasks && GrantedOn(s.tasks[v], r, k);
        assert v in s'.tasks;
      } else {
        MirroredStays(s, s', s.tasks[u].r, s.tasks[u].k);
      }
    }
  }

  /** Taking `r`'s lease on `k` out of the mirror is harmless exactly when it may go. */
  lemma UnlistExact(c: Config, s: Cluster, s': Cluster, r: Replica, k: Key)
    requires AllSound(c, s) && Unlisted(s, s', r, k)
    ensures AllSound(c, s') <==> MayForget(s, r, k)
  {
    if MayForget(s, r, k) {
      forall u | u in s'.tasks ensures Sound(c, s', s'.tasks[u]) {
        UnlistKeepsSound(c, s, s', r, k, u);
      }
    } else {
      var u :| u in s.tasks && On(s.tasks[u], r, k) && NeedsMirror(s.tasks[u]);
      assert forall v :: v in s'.tasks && GrantedOn(s'.tasks[v], r, k) ==> v in s.tasks && GrantedOn(s.tasks[v], r, k);
      assert !Sound(c, s', s'.tasks[u]);
    }
  }

  /** Forgetting a lease when a task ends. */
  lemma ForgetExact(c: Config, s: Cluster, t: TaskId)
    requires Inv(c, s) && At(s, t, Removed)
    ensures Inv(c, ForgetStep(s, t)) <==> MayForget(s, s.tasks[t].r, s.tasks[t].k)
  {
    UnlistExact(c, s, ForgetStep(s, t), s.tasks[t].r, s.tasks[t].k);
  }

  /** Deleting the row is harmless exactly when nobody relies on the row. */
  lemma DeleteExact(c: Config, s: Cluster, t: TaskId)
    requires Inv(c, s) && At(s, t, Forgotten)
    ensures Inv(c, DeleteStep(s, t)) <==> RowFree(s, s.tasks[t].r, s.tasks[t].k)
  {
    var s' := DeleteStep(s, t);
    var r, k := s.tasks[t].r, s.tasks[t].k;
    if RowFree(s, r, k) {
      forall u | u in s'.tasks ensures Sound(c, s', s'.tasks[u]) {
        assert Sound(c, s, s.tasks[u]);
        if NeedsRow(s.tasks[u]) {
          assert !On(s.tasks[u], r, k) && s'.rows[s.tasks[u].k] == s.rows[s.tasks[u].k];
        }
        if NeedsMirror(s.tasks[u]) {
          MirroredStays(s, s', s.tasks[u].r, s.tasks[u].k);
        }
      }
    } else {
      var u :| u in s.tasks && On(s.tasks[u], r, k) && NeedsRow(s.tasks[u]);
      assert Sound(c, s, s.tasks[u]);
      assert !Sound(c, s', s'.tasks[u]);
    }
  }

  /** Dropping a lease whose renewal failed. */
  lemma DropExact(c: Config, s: Cluster, r: Replica)
    requires Inv(c, s) && r in s.beats && s.beats[r].lost.Some?
    ensures Inv(c, DropStep(s, r)) <==> MayForget(s, r, s.beats[r].lost.value)
  {
    UnlistExact(c, s, DropStep(s, r), r, s.beats[r].lost.value);
  }

  lemma LifecycleKeepsInv(c: Config, s: Cluster, r: Replica, k: Key)
    requires Prompt(c) && Inv(c, s) && r in c.members
    ensures Inv(c, LifecycleStep(c, s, r, k))
  {
    var s' := LifecycleStep(c, s, r, k);
    if Claimable(s.rows, r, k, s.now) {
      var s1 := s.(rows := s'.rows);
      forall u | u in s'.tasks ensures Sound(c, s', s'.tasks[u]) {
        ClaimKeepsSound(c, s, r, k, s.tasks[u]);
        SoundStays(c, s1, s', s.tasks[u]);
      }
    }
  }

  lemma RenewalKeepsInv(c: Config, s: Cluster, r: Replica, k: Key, fault: bool)
    requires Prompt(c) && Inv(c, s) && r in s.beats && k in s.beats[r].todo
    ensures Inv(c, RenewalStep(c, s, r, k, fault))
  {
    var s' := RenewalStep(c, s, r, k, fault);
    forall u | u in s'.tasks ensures Sound(c, s', s'.tasks[u]) {
      assert Sound(c, s, s.tasks[u]);
      if NeedsMirror(s.tasks[u]) {
        MirroredStays(s, s', s.tasks[u].r, s.tasks[u].k);
      }
    }
  }

  lemma CrashKeepsInv(c: Config, s: Cluster, r: Replica)
    requires Inv(c, s)
    ensures Inv(c, CrashStep(s, r))
  {
    var s' := CrashStep(s, r);
    forall u | u in s'.tasks ensures Sound(c, s', s'.tasks[u]) {
      SoundStays(c, s, s', s.tasks[u]);
    }
  }

  lemma ElapseKeepsInv(c: Config, s: Cluster, dt: real)
    requires Inv(c, s) && OnTime(c, s, s.now + dt)
    ensures Inv(c, s.(now := s.now + dt))
  {
    var s' := s.(now := s.now + dt);
    forall u | u in s'.tasks ensures Sound(c, s', s'.tasks[u]) {
      assert Sound(c, s, s.tasks[u]);
      if NeedsMirror(s.tasks[u]) {
        MirroredStays(s, s', s.tasks[u].r, s.tasks[u].k);
      }
    }
  }

  lemma BeginKeepsInv(c: Config, s: Cluster, t: TaskId, r: Replica, k: Key)
    requires Inv(c, s) && t !in s.tasks && r in c.members
    ensures Inv(c, s.(tasks := s.tasks[t := Task(r, k, Checked)]))
  {
    var s' := s.(tasks := s.tasks[t := Task(r, k, Checked)]);
    forall u | u in s'.tasks && u != t ensures Sound(c, s', s'.tasks[u]) {
      SoundStays(c, s, s', s.tasks[u]);
    }
  }

  lemma SnapshotKeepsInv(c: Config, s: Cluster, r: Replica)
    requires Inv(c, s)
    ensures Inv(c, SnapshotStep(s, r))
  {
    forall u | u in s.tasks ensures Sound(c, SnapshotStep(s, r), s.tasks[u]) {
      SoundStays(c, s, SnapshotStep(s, r), s.tasks[u]);
    }
  }

  /** Every step keeps the invariant exactly when it passes its guard: only the three
      guarded steps can break it, and they do whenever their guard fails. */
  lemma StepExact(c: Config, s: Cluster, op: Op)
    requires Prompt(c) && Inv(c, s) && Enabled(c, s, op)
    ensures Inv(c, Apply(c, s, op)) <==> Guard(c, s, op)
  {
    match op
    case Begin(t, r, k) => BeginKeepsInv(c, s, t, r, k);
    case Claim(t) => ClaimKeepsInv(c, s, t);
    case Mirror(t) => MirrorKeepsInv(c, s, t);
    case Register(t) => RegisterKeepsInv(c, s, t);
    case Remove(t) => RemoveKeepsInv(c, s, t);
    case Forget(t) => ForgetExact(c, s, t);
    case Delete(t) => DeleteExact(c, s, t);
    case Lifecycle(r, k) => LifecycleKeepsInv(c, s, r, k);
    case Snapshot(r) => SnapshotKeepsInv(c, s, r);
    case Renewal(r, k, fault) => RenewalKeepsInv(c, s, r, k, fault);
    case Drop(r) => DropExact(c, s, r);
    case Crash(r) => CrashKeepsInv(c, s, r);
    case Elapse(dt) => ElapseKeepsInv(c, s, dt);
  }

  /** The invariant holds after every step of a run. */
  ghost predicate KeptThroughout(c: Config, s: Cluster, ops: seq<Op>)
    requires Allowed(c, s, ops)
    decreases |ops|
  {
    Inv(c, s) && (ops == [] || KeptThroughout(c, Apply(c, s, ops[0]), ops[1..]))
  }

  /** A run keeps every writer backed throughout if and only if it is guarded. */
  lemma {:induction false} GuardedIff(c: Config, s: Cluster, ops: seq<Op>)
    requires Prompt(c) && Inv(c, s) && Allowed(c, s, ops)
    ensures KeptThroughout(c, s, ops) <==> Guarded(c, s, ops)
    decreases |ops|
  {
    if ops != [] {
      StepExact(c, s, ops[0]);
      if Guard(c, s, ops[0]) {
        GuardedIff(c, Apply(c, s, ops[0]), ops[1..]);
      }
    }
  }

  lemma {:induction false} GuardedRunKeepsInv(c: Config, s: Cluster, ops: seq<Op>)
    requires Prompt(c) && Inv(c, s) && Allowed(c, s, ops) && Guarded(c, s, ops)
    ensures Inv(c, Run(c, s, ops))
    decreases |ops|
  {
    if ops != [] {
      StepExact(c, s, ops[0]);
      GuardedRunKeepsInv(c, Apply(c, s, ops[0]), ops[1..]);
    }
  }

  lemma InvMeansOneWriter(c: Config, s: Cluster)
    requires Inv(c, s) && Prompt(c)
    ensures OneWriter(s)
  {
    forall t | At(s, t, Running)
      ensures s.tasks[t].k in s.rows && s.rows[s.tasks[t].k].owner == s.tasks[t].r && s.now <= s.rows[s.tasks[t].k].expires
    {
      assert Sound(c, s, s.tasks[t]);
    }
  }

  /** Single writer: with heartbeats on time, every guarded run of the cluster (attach
      attempts that overlap in any way, interrupted heartbeats, crashes, takeovers,
      lifecycle leases, in any interleaving) has at most one task driving a stream, and
      that task's replica owns an unexpired lease row. */
  lemma SingleWriterSafety(c: Config, ops: seq<Op>)
    requires Prompt(c) && Allowed(c, Initial, ops) && Guarded(c, Initial, ops)
    ensures OneWriter(Run(c, Initial, ops))
  {
    GuardedRunKeepsInv(c, Initial, ops);
    InvMeansOneWriter(c, Run(c, Initial, ops));
  }
}
