/** An emitter that runs one `emit` at a time while other replicas race it. */
module SerialEmitter {
  import opened EmitterProtocol

  lemma Reseeds(s: State, t: TaskId)
    requires At(s, t, Fast) && !Cached(s, t)
    ensures At(Apply(s, TakeFast(t)), t, ReadHigh)
    ensures Apply(s, TakeFast(t)) == s.(tasks := s.tasks[t := s.tasks[t].(pc := ReadHigh)])
  {
  }

  lemma ReadsHigh(s: State, t: TaskId)
    requires At(s, t, ReadHigh)
    ensures At(Apply(s, TakeHigh(t, false)), t, Seed(TopSeq(s.rows, s.tasks[t].key)))
    ensures Apply(s, TakeHigh(t, false)) == s.(tasks := s.tasks[t := s.tasks[t].(pc := Seed(TopSeq(s.rows, s.tasks[t].key)))])
  {
  }

  lemma SeedsNext(s: State, t: TaskId)
    requires t in s.tasks && s.tasks[t].pc.Seed? && !Cached(s, t)
    ensures
      var e := Apply(s, TakeSeed(t));
      && At(e, t, Append) && e.tasks[t].no == s.tasks[t].pc.seeded + 1
      && e.seqs == s.seqs[(s.tasks[t].rep, s.tasks[t].key) := e.tasks[t].no] && e.rows == s.rows
  {
  }

  /** After a conflict a task that nobody interrupts forgets the counter and tries the
      successor of what the log's high-water is by then. */
  lemma ConflictReseeds(s: State, t: TaskId) returns (s1: State, s2: State, s3: State, e: State)
    requires At(s, t, Forget)
    ensures s1 == Apply(s, DropCounter(t)) && Enabled(s1, TakeFast(t))
    ensures s2 == Apply(s1, TakeFast(t)) && Enabled(s2, TakeHigh(t, false))
    ensures s3 == Apply(s2, TakeHigh(t, false)) && Enabled(s3, TakeSeed(t))
    ensures e == Apply(s3, TakeSeed(t))
    ensures At(e, t, Append) && e.tasks[t].no == TopSeq(s.rows, s.tasks[t].key) + 1 && e.rows == s.rows
    ensures (s.tasks[t].rep, s.tasks[t].key) in e.seqs && e.seqs[(s.tasks[t].rep, s.tasks[t].key)] == e.tasks[t].no
  {
    s1 := Apply(s, DropCounter(t));
    Reseeds(s1, t);
    s2 := Apply(s1, TakeFast(t));
    ReadsHigh(s2, t);
    s3 := Apply(s2, TakeHigh(t, false));
    SeedsNext(s3, t);
    e := Apply(s3, TakeSeed(t));
  }

  ghost predicate Increasing(xs: seq<nat>) {
    forall i, j :: 0 <= i < j < |xs| ==> xs[i] < xs[j]
  }

  /** Replica `rep` starts an emit only after its last one finished and its own
      high-water reads succeed; the others do as they please.  Nothing is pruned. */
  ghost predicate SerialStep(s: State, rep: Replica, op: Op) {
    && !op.Prune?
    && (op.Start? && op.rep == rep ==> forall t :: t in s.tasks && s.tasks[t].rep == rep ==> s.tasks[t].pc.Done?)
    && (op.TakeHigh? && op.t in s.tasks && s.tasks[op.t].rep == rep ==> !op.fault)
  }

  ghost predicate SerialRun(s: State, rep: Replica, ops: seq<Op>)
    requires Allowed(s, ops)
    decreases |ops|
  {
    ops == [] || (SerialStep(s, rep, ops[0]) && SerialRun(Apply(s, ops[0]), rep, ops[1..]))
  }

  /** After a conflict the refused seq is in the log, the counter is gone, and what
      is read next is at least that seq. */
  ghost predicate Climbs(s: State, task: Task) {
    && Increasing(task.tried)
    && (task.pc == Append ==> 0 < |task.tried| && task.tried[|task.tried| - 1] == task.no)
    && (0 < |task.tried| ==>
          var last := task.tried[|task.tried| - 1];
          && (task.pc == Forget ==> (task.key, last) in s.rows)
          && (task.pc == Fast || task.pc == ReadHigh ==> (task.rep, task.key) !in s.seqs && (task.key, last) in s.rows)
          && (task.pc.Seed? ==> (task.rep, task.key) !in s.seqs && last <= task.pc.seeded))
  }

  ghost predicate Serial(s: State, rep: Replica) {
    && (forall t :: t in s.tasks && s.tasks[t].rep == rep ==> Climbs(s, s.tasks[t]))
    && (forall t, u ::
          (t in s.tasks && u in s.tasks && s.tasks[t].rep == s.tasks[u].rep == rep && !s.tasks[t].pc.Done? && !s.tasks[u].pc.Done?)
          ==> t == u)
  }

  /** A step of task `t`: rows only grow, other tasks stand still, and the counters
      of other replicas are left alone. */
  ghost predicate Local(s: State, s': State, t: TaskId) {
    && (forall slot :: slot in s.rows ==> slot in s'.rows)
    && t in s'.tasks && s'.tasks.Keys == s.tasks.Keys + {t}
    && (forall u :: u in s.tasks && u != t ==> s'.tasks[u] == s.tasks[u])
    && (forall p :: p in s'.seqs && p.0 != s'.tasks[t].rep ==> p in s.seqs)
    && (t in s.tasks ==> s'.tasks[t].rep == s.tasks[t].rep && (s.tasks[t].pc.Done? ==> s'.tasks[t].pc.Done?))
  }

  lemma HandOutIsLocal(s: State, t: TaskId, no: nat)
    requires t in s.tasks && !s.tasks[t].pc.Done?
    ensures Local(s, HandOut(s, t, no), t)
  {
  }

  lemma GotoIsLocal(s: State, t: TaskId, pc: Pc)
    requires t in s.tasks && !s.tasks[t].pc.Done?
    ensures Local(s, Goto(s, t, pc), t)
  {
  }

  lemma StartIsLocal(s: State, t: TaskId, rep: Replica, key: Key)
    requires t !in s.tasks
    ensures Local(s, Apply(s, Start(t, rep, key)), t)
  {
  }

  lemma AppendIsLocal(s: State, t: TaskId, fault: bool)
    requires At(s, t, Append)
    ensures Local(s, AppendStep(s, t, fault), t)
  {
  }

  lemma DropIsLocal(s: State, t: TaskId)
    requires At(s, t, Forget)
    ensures Local(s, DropStep(s, t), t)
  {
  }

  lemma AnnounceIsLocal(s: State, t: TaskId)
    requires t in s.tasks && s.tasks[t].pc.Publish?
    ensures Local(s, AnnounceStep(s, t), t)
  {
  }

  lemma StepIsLocal(s: State, op: Op)
    requires Enabled(s, op) && !op.Prune?
    ensures Local(s, Apply(s, op), op.t)
  {
    match op
    case Start(t, rep, key) => StartIsLocal(s, t, rep, key);
    case TakeFast(t) => if Cached(s, t) { HandOutIsLocal(s, t, CachedNext(s, t)); } else { GotoIsLocal(s, t, ReadHigh); }
    case TakeHigh(t, fault) => GotoIsLocal(s, t, Seed(if fault then 0 else TopSeq(s.rows, s.tasks[t].key)));
    case TakeSeed(t) => HandOutIsLocal(s, t, if Cached(s, t) then CachedNext(s, t) else s.tasks[t].pc.seeded + 1);
    case TryAppend(t, fault) => AppendIsLocal(s, t, fault);
    case DropCounter(t) => DropIsLocal(s, t);
    case Announce(t) => AnnounceIsLocal(s, t);
  }

  /** What another replica does leaves this one climbing; so does a step of its own
      task that keeps that task climbing. */
  lemma LocalKeepsSerial(s: State, s': State, rep: Replica, t: TaskId)
    requires Serial(s, rep) && Local(s, s', t)
    requires s'.tasks[t].rep == rep ==> Climbs(s', s'.tasks[t])
    requires s'.tasks[t].rep == rep ==>
               forall u :: u in s.tasks && s.tasks[u].rep == rep && u != t ==> s.tasks[u].pc.Done?
    ensures Serial(s', rep)
  {
    forall u | u in s'.tasks && s'.tasks[u].rep == rep ensures Climbs(s', s'.tasks[u]) {
      if u != t {
        assert Climbs(s, s.tasks[u]);
      }
    }
  }

  lemma OwnHandOutClimbs(s: State, rep: Replica, op: Op)
    requires Serial(s, rep) && Enabled(s, op) && SerialStep(s, rep, op)
    requires op.TakeFast? || op.TakeHigh? || op.TakeSeed?
    requires s.tasks[op.t].rep == rep
    ensures Climbs(Apply(s, op), Apply(s, op).tasks[op.t])
  {
    assert Climbs(s, s.tasks[op.t]);
  }

  lemma OwnStepClimbs(s: State, rep: Replica, op: Op)
    requires Serial(s, rep) && Enabled(s, op) && SerialStep(s, rep, op)
    requires op.TryAppend? || op.DropCounter? || op.Announce?
    requires s.tasks[op.t].rep == rep
    ensures Climbs(Apply(s, op), Apply(s, op).tasks[op.t])
  {
    assert Climbs(s, s.tasks[op.t]);
  }

  lemma StepKeepsSerial(s: State, rep: Replica, op: Op)
    requires Serial(s, rep) && Enabled(s, op) && SerialStep(s, rep, op)
    ensures Serial(Apply(s, op), rep)
  {
    StepIsLocal(s, op);
    if !op.Start? && s.tasks[op.t].rep == rep {
      if op.TakeFast? || op.TakeHigh? || op.TakeSeed? {
        OwnHandOutClimbs(s, rep, op);
      } else {
        OwnStepClimbs(s, rep, op);
      }
      assert !s.tasks[op.t].pc.Done?;
    }
    LocalKeepsSerial(s, Apply(s, op), rep, op.t);
  }

  lemma {:induction false} SerialRunKeepsSerial(s: State, rep: Replica, ops: seq<Op>)
    requires Serial(s, rep) && Allowed(s, ops) && SerialRun(s, rep, ops)
    ensures Serial(Run(s, ops), rep)
    decreases |ops|
  {
    if ops != [] {
      StepKeepsSerial(s, rep, ops[0]);
      SerialRunKeepsSerial(Apply(s, ops[0]), rep, ops[1..]);
    }
  }

  /** Every retry of a one-task emitter is handed a strictly higher seq than the one
      before, whatever the other replicas append meanwhile. */
  lemma RetriesClimb(s: State, rep: Replica, ops: seq<Op>)
    requires Fresh(s) && Allowed(s, ops) && SerialRun(s, rep, ops)
    ensures forall t :: t in Run(s, ops).tasks && Run(s, ops).tasks[t].rep == rep ==> Increasing(Run(s, ops).tasks[t].tried)
  {
    SerialRunKeepsSerial(s, rep, ops);
  }
}
