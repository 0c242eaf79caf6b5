/** Gap accounting: on a stream with one writer, an event the log refuses shows. */
module LostEvents {
  import opened EmitterProtocol
  import opened EmitterRuns

  // ------------------------------------------------------ every seq is somewhere

  /** The event was appended at exactly the seq it was handed. */
  ghost predicate Persisted(s: State, x: Handout) {
    Stored(x.key, x.no, x.item) in s.stored
  }

  predicate Losing(pc: Pc) {
    pc == Append || pc == Publish(false) || pc == Done(false)
  }

  /** A seq handed out was used, is still with its task, or has been turned into the
      marker that names it. */
  ghost predicate Accounted(s: State, x: Handout) {
    && x.item != Earlier && x.item.task in s.tasks
    && var t := x.item.task;
       var task := s.tasks[t];
       || Persisted(s, x)
       || (task.item == x.item && task.no == x.no && task.key == x.key && Losing(task.pc))
       || (x.item == Own(t) && task.item == Marker(t, x.no) && task.key == x.key)
  }

  /** Of one stream. */
  ghost predicate AllAccounted(s: State, key: Key) {
    forall i :: 0 <= i < |s.handed| && s.handed[i].key == key ==> Accounted(s, s.handed[i])
  }

  /** A step that hands nothing out on the stream and whose task holds no seq of it. */
  ghost predicate Idle(s: State, s': State, t: TaskId, key: Key) {
    && (forall x :: x in s.stored ==> x in s'.stored)
    && (forall u :: u in s.tasks ==> u in s'.tasks && (u != t ==> s'.tasks[u] == s.tasks[u]))
    && (t in s.tasks && s.tasks[t].key == key ==>
          !Losing(s.tasks[t].pc) && s'.tasks[t].item == s.tasks[t].item && s'.tasks[t].key == key)
  }

  lemma IdleAccounts(s: State, s': State, t: TaskId, key: Key, x: Handout)
    requires Idle(s, s', t, key) && x.key == key && Accounted(s, x)
    ensures Accounted(s', x)
  {
  }

  lemma IdleKeepsAccounts(s: State, s': State, t: TaskId, key: Key)
    requires AllAccounted(s, key) && Idle(s, s', t, key) && s'.handed == s.handed
    ensures AllAccounted(s', key)
  {
    forall i | 0 <= i < |s'.handed| && s'.handed[i].key == key ensures Accounted(s', s'.handed[i]) {
      IdleAccounts(s, s', t, key, s.handed[i]);
    }
  }

  lemma HandOutKeepsAccounts(s: State, t: TaskId, no: nat, key: Key)
    requires AllAccounted(s, key) && t in s.tasks && !Losing(s.tasks[t].pc) && Owned(t, s.tasks[t].item)
    ensures AllAccounted(HandOut(s, t, no), key)
  {
    var s' := HandOut(s, t, no);
    forall i | 0 <= i < |s'.handed| && s'.handed[i].key == key ensures Accounted(s', s'.handed[i]) {
      if i < |s.handed| {
        assert s'.handed[i] == s.handed[i];
        IdleAccounts(s, s', t, key, s.handed[i]);
      }
    }
  }

  lemma AppendKeepsAccounts(s: State, t: TaskId, fault: bool, key: Key)
    requires AllAccounted(s, key) && At(s, t, Append) && s.tasks[t].key == key
    requires (key, s.tasks[t].no) !in s.rows
    ensures AllAccounted(AppendStep(s, t, fault), key)
  {
    var s' := AppendStep(s, t, fault);
    forall i | 0 <= i < |s'.handed| && s'.handed[i].key == key ensures Accounted(s', s'.handed[i]) {
      assert Accounted(s, s.handed[i]);
    }
  }

  lemma AnnounceKeepsAccounts(s: State, t: TaskId, key: Key)
    requires AllAccounted(s, key) && t in s.tasks && s.tasks[t].pc.Publish? && Owned(t, s.tasks[t].item)
    ensures AllAccounted(AnnounceStep(s, t), key)
  {
    var s' := AnnounceStep(s, t);
    forall i | 0 <= i < |s'.handed| && s'.handed[i].key == key ensures Accounted(s', s'.handed[i]) {
      assert Accounted(s, s.handed[i]);
    }
  }

  /** Steps on the stream itself. */
  lemma OwnStepKeepsAccounts(s: State, op: Op, key: Key)
    requires AllAccounted(s, key) && Enabled(s, op) && Identified(s) && Concerns(s, op, key) && !op.DropCounter?
    requires op.TryAppend? ==> (key, s.tasks[op.t].no) !in s.rows
    ensures AllAccounted(Apply(s, op), key)
  {
    match op
    case Start(t, _, _) => IdleKeepsAccounts(s, Apply(s, op), t, key);
    case TakeFast(t) =>
      if Cached(s, t) {
        HandOutKeepsAccounts(s, t, CachedNext(s, t), key);
      } else {
        IdleKeepsAccounts(s, Goto(s, t, ReadHigh), t, key);
      }
    case TakeHigh(t, fault) =>
      IdleKeepsAccounts(s, Goto(s, t, Seed(if fault then 0 else TopSeq(s.rows, s.tasks[t].key))), t, key);
    case TakeSeed(t) =>
      HandOutKeepsAccounts(s, t, if Cached(s, t) then CachedNext(s, t) else s.tasks[t].pc.seeded + 1, key);
    case TryAppend(t, fault) => AppendKeepsAccounts(s, t, fault, key);
    case Announce(t) => AnnounceKeepsAccounts(s, t, key);
  }

  lemma AppendIdle(s: State, t: TaskId, fault: bool, key: Key)
    requires t in s.tasks && s.tasks[t].key != key
    ensures Idle(s, AppendStep(s, t, fault), t, key) && AppendStep(s, t, fault).handed == s.handed
  {
  }

  /** Steps on other streams, by anyone. */
  lemma ElsewhereKeepsAccounts(s: State, op: Op, key: Key)
    requires AllAccounted(s, key) && Enabled(s, op) && Identified(s) && !op.Prune? && !Concerns(s, op, key)
    ensures AllAccounted(Apply(s, op), key)
  {
    match op
    case Start(t, _, _) => IdleKeepsAccounts(s, Apply(s, op), t, key);
    case TakeFast(t) =>
      if Cached(s, t) {
        HandOutKeepsAccounts(s, t, CachedNext(s, t), key);
      } else {
        IdleKeepsAccounts(s, Goto(s, t, ReadHigh), t, key);
      }
    case TakeHigh(t, fault) =>
      IdleKeepsAccounts(s, Goto(s, t, Seed(if fault then 0 else TopSeq(s.rows, s.tasks[t].key))), t, key);
    case TakeSeed(t) =>
      HandOutKeepsAccounts(s, t, if Cached(s, t) then CachedNext(s, t) else s.tasks[t].pc.seeded + 1, key);
    case TryAppend(t, fault) =>
      AppendIdle(s, t, fault, key);
      IdleKeepsAccounts(s, AppendStep(s, t, fault), t, key);
    case DropCounter(t) => IdleKeepsAccounts(s, DropStep(s, t), t, key);
    case Announce(t) => AnnounceKeepsAccounts(s, t, key);
  }

  lemma PruneKeepsAccounts(s: State, slots: set<Slot>, key: Key)
    requires AllAccounted(s, key)
    ensures AllAccounted(s.(rows := s.rows - slots), key)
  {
    var s' := s.(rows := s.rows - slots);
    forall i | 0 <= i < |s'.handed| && s'.handed[i].key == key ensures Accounted(s', s'.handed[i]) {
      assert Accounted(s, s.handed[i]);
    }
  }

  lemma StepKeepsAccounts(s: State, rep: Replica, op: Op, key: Key, h: nat)
    requires AllAccounted(s, key) && Identified(s) && Solo(s, rep, key, h) && Enabled(s, op) && SoloStep(s, rep, key, h, op)
    ensures AllAccounted(Apply(s, op), key)
  {
    if op.Prune? {
      PruneKeepsAccounts(s, op.slots, key);
    } else if Concerns(s, op, key) {
      OwnStepKeepsSolo(s, rep, op, key, h);
      OwnStepKeepsAccounts(s, op, key);
    } else {
      ElsewhereKeepsAccounts(s, op, key);
    }
  }

  // --------------------------------------------------------- the stream's balance

  /** How many of the records are of the stream. */
  function On(xs: seq<Stored>, key: Key): nat {
    if xs == [] then 0 else On(xs[..|xs| - 1], key) + if xs[|xs| - 1].key == key then 1 else 0
  }

  lemma OnGrows(xs: seq<Stored>, x: Stored, key: Key)
    ensures On(xs + [x], key) == On(xs, key) + if x.key == key then 1 else 0
  {
    assert (xs + [x])[..|xs|] == xs;
  }

  function LostOn(xs: seq<Lost>, key: Key): nat {
    if xs == [] then 0 else LostOn(xs[..|xs| - 1], key) + if xs[|xs| - 1].key == key then 1 else 0
  }

  lemma LostOnGrows(xs: seq<Lost>, x: Lost, key: Key)
    ensures LostOn(xs + [x], key) == LostOn(xs, key) + if x.key == key then 1 else 0
  {
    assert (xs + [x])[..|xs|] == xs;
  }

  function InFlightOn(s: State, key: Key): set<TaskId> {
    set t | t in s.tasks && s.tasks[t].key == key && s.tasks[t].pc == Append
  }

  ghost predicate BalancedOn(s: State, key: Key) {
    Count(s, key) == On(s.stored, key) + LostOn(s.lost, key) + |InFlightOn(s, key)|
  }

  lemma InFlightHandOut(s: State, t: TaskId, no: nat, key: Key)
    requires t in s.tasks && s.tasks[t].pc != Append
    ensures |InFlightOn(HandOut(s, t, no), key)| == |InFlightOn(s, key)| + if s.tasks[t].key == key then 1 else 0
  {
    var before, after := InFlightOn(s, key), InFlightOn(HandOut(s, t, no), key);
    if s.tasks[t].key == key {
      assert after == before + {t};
    } else {
      assert after == before;
    }
  }

  lemma HandOutBalancesOn(s: State, t: TaskId, no: nat, key: Key)
    requires BalancedOn(s, key) && t in s.tasks && s.tasks[t].pc != Append
    ensures BalancedOn(HandOut(s, t, no), key)
  {
    var s' := HandOut(s, t, no);
    HandedNosGrows(s.handed, s'.handed[|s.handed|], key);
    InFlightHandOut(s, t, no, key);
  }

  /** A step that hands nothing out and appends nothing. */
  lemma QuietBalancesOn(s: State, s': State, key: Key)
    requires BalancedOn(s, key) && s'.handed == s.handed && s'.stored == s.stored && s'.lost == s.lost
    requires InFlightOn(s', key) == InFlightOn(s, key)
    ensures BalancedOn(s', key)
  {
  }

  lemma InFlightAppend(s: State, t: TaskId, fault: bool, key: Key)
    requires At(s, t, Append)
    ensures InFlightOn(AppendStep(s, t, fault), key) == InFlightOn(s, key) - {t}
    ensures t in InFlightOn(s, key) <==> s.tasks[t].key == key
  {
  }

  /** An append ends in the log, among the lost, or, on another stream, in a conflict. */
  lemma AppendRecords(s: State, t: TaskId, fault: bool)
    requires At(s, t, Append)
    ensures
      var s', task := AppendStep(s, t, fault), s.tasks[t];
      && s'.handed == s.handed
      && ((s'.stored == s.stored + [Stored(task.key, task.no, task.item)] && s'.lost == s.lost)
          || (s'.stored == s.stored && |s'.lost| > 0 && s'.lost == s.lost + [s'.lost[|s'.lost| - 1]] && s'.lost[|s'.lost| - 1].key == task.key)
          || (s'.stored == s.stored && s'.lost == s.lost && (task.key, task.no) in s.rows))
  {
  }

  lemma AppendBalancesOn(s: State, t: TaskId, fault: bool, key: Key)
    requires BalancedOn(s, key) && At(s, t, Append)
    requires s.tasks[t].key == key ==> (key, s.tasks[t].no) !in s.rows
    ensures BalancedOn(AppendStep(s, t, fault), key)
  {
    var s' := AppendStep(s, t, fault);
    OnGrows(s.stored, Stored(s.tasks[t].key, s.tasks[t].no, s.tasks[t].item), key);
    if |s'.lost| > 0 {
      LostOnGrows(s.lost, s'.lost[|s'.lost| - 1], key);
    }
    InFlightAppend(s, t, fault, key);
    AppendRecords(s, t, fault);
  }

  lemma GotoBalancesOn(s: State, t: TaskId, pc: Pc, key: Key)
    requires BalancedOn(s, key) && t in s.tasks && s.tasks[t].pc != Append && pc != Append
    ensures BalancedOn(Goto(s, t, pc), key)
  {
    QuietBalancesOn(s, Goto(s, t, pc), key);
  }

  lemma FastBalancesOn(s: State, t: TaskId, key: Key)
    requires BalancedOn(s, key) && Enabled(s, TakeFast(t))
    ensures BalancedOn(Apply(s, TakeFast(t)), key)
  {
    if Cached(s, t) {
      HandOutBalancesOn(s, t, CachedNext(s, t), key);
    } else {
      GotoBalancesOn(s, t, ReadHigh, key);
    }
  }

  lemma SeedBalancesOn(s: State, t: TaskId, key: Key)
    requires BalancedOn(s, key) && Enabled(s, TakeSeed(t))
    ensures BalancedOn(Apply(s, TakeSeed(t)), key)
  {
    HandOutBalancesOn(s, t, if Cached(s, t) then CachedNext(s, t) else s.tasks[t].pc.seeded + 1, key);
  }

  lemma DropBalancesOn(s: State, t: TaskId, key: Key)
    requires BalancedOn(s, key) && Enabled(s, DropCounter(t))
    ensures BalancedOn(Apply(s, DropCounter(t)), key)
  {
    var s1 := s.(seqs := s.seqs - {(s.tasks[t].rep, s.tasks[t].key)});
    QuietBalancesOn(s, s1, key);
    GotoBalancesOn(s1, t, Fast, key);
  }

  lemma StepBalancesOn(s: State, op: Op, key: Key)
    requires BalancedOn(s, key) && Enabled(s, op)
    requires op.TryAppend? && s.tasks[op.t].key == key ==> (key, s.tasks[op.t].no) !in s.rows
    ensures BalancedOn(Apply(s, op), key)
  {
    match op
    case TakeFast(t) => FastBalancesOn(s, t, key);
    case TakeHigh(t, fault) => GotoBalancesOn(s, t, Seed(if fault then 0 else TopSeq(s.rows, s.tasks[t].key)), key);
    case TakeSeed(t) => SeedBalancesOn(s, t, key);
    case TryAppend(t, fault) => AppendBalancesOn(s, t, fault, key);
    case DropCounter(t) => DropBalancesOn(s, t, key);
    case _ => QuietBalancesOn(s, Apply(s, op), key);
  }

  // ------------------------------------------------------------- whole runs

  ghost predicate InOrder(s: State, rep: Replica, key: Key, h: nat) {
    Solo(s, rep, key, h) && AllAccounted(s, key) && BalancedOn(s, key)
  }

  lemma StepKeepsOrder(s: State, rep: Replica, op: Op, key: Key, h: nat)
    requires InOrder(s, rep, key, h) && Identified(s) && Enabled(s, op) && SoloStep(s, rep, key, h, op)
    ensures InOrder(Apply(s, op), rep, key, h)
  {
    StepKeepsSolo(s, rep, op, key, h);
    StepKeepsAccounts(s, rep, op, key, h);
    if op.TryAppend? && s.tasks[op.t].key == key {
      AppendKeepsSolo(s, rep, op.t, op.fault, key, h);
    }
    StepBalancesOn(s, op, key);
  }

  lemma {:induction false} RunKeepsOrder(s: State, rep: Replica, key: Key, h: nat, ops: seq<Op>)
    requires InOrder(s, rep, key, h) && Ledger(s) && Allowed(s, ops) && SoloRun(s, rep, key, h, ops)
    ensures InOrder(Run(s, ops), rep, key, h)
    decreases |ops|
  {
    if ops != [] {
      StepKeepsOrder(s, rep, ops[0], key, h);
      StepKeepsLedger(s, ops[0]);
      RunKeepsOrder(Apply(s, ops[0]), rep, key, h, ops[1..]);
    }
  }

  /** A marker that was appended to the stream names `x`'s seq as lost. */
  ghost predicate Named(s: State, x: Handout) {
    x.item != Earlier && exists n: nat :: Stored(x.key, n, Marker(x.item.task, x.no)) in s.stored
  }

  /** The emit that was handed `x` could not persist its marker either. */
  predicate MarkerLost(s: State, x: Handout) {
    x.item != Earlier && x.item.task in s.tasks
    && s.tasks[x.item.task].item.Marker? && s.tasks[x.item.task].pc == Done(false)
  }

  /** Every emit on the stream has finished. */
  ghost predicate Settled(s: State, key: Key) {
    forall t :: t in s.tasks && s.tasks[t].key == key ==> s.tasks[t].pc.Done?
  }

  lemma FinishedIsAccounted(e: State, key: Key, x: Handout)
    requires Accounted(e, x) && Ledger(e) && Settled(e, key) && x.key == key
    ensures Persisted(e, x) || Named(e, x) || MarkerLost(e, x)
  {
    var t := x.item.task;
    var task := e.tasks[t];
    if !Persisted(e, x) {
      assert task.key == key;
      if task.item == Marker(t, x.no) && task.pc == Done(true) {
        assert Stored(task.key, task.no, task.item) in e.stored;
      }
    }
  }

  /** Gap accounting, of one stream with one writer, whatever others do on other streams,
      with arbitrary append failures and with pruning: once the stream's emits have
      finished, the seqs handed out for it are as many as the events appended to it and
      the appends given up on it together, and each was appended, or is named by a marker
      that was, or belongs to an emit whose marker failed as well. */
  lemma GapsAccounted(s: State, rep: Replica, ops: seq<Op>, key: Key)
    requires Fresh(s) && Allowed(s, ops) && SoloRun(s, rep, key, TopSeq(s.rows, key), ops)
    requires Settled(Run(s, ops), key)
    ensures
      var e := Run(s, ops);
      && Count(e, key) == On(e.stored, key) + LostOn(e.lost, key)
      && forall i :: 0 <= i < |e.handed| && e.handed[i].key == key ==>
           Persisted(e, e.handed[i]) || Named(e, e.handed[i]) || MarkerLost(e, e.handed[i])
  {
    var e, h := Run(s, ops), TopSeq(s.rows, key);
    FreshIsSolo(s, rep, key);
    assert InFlightOn(s, key) == {};
    RunKeepsOrder(s, rep, key, h, ops);
    RunKeepsInv(s, ops);
    assert InFlightOn(e, key) == {};
    forall i | 0 <= i < |e.handed| && e.handed[i].key == key
      ensures Persisted(e, e.handed[i]) || Named(e, e.handed[i]) || MarkerLost(e, e.handed[i])
    {
      FinishedIsAccounted(e, key, e.handed[i]);
    }
  }

  // ------------------------------------------------ what the log still shows

  /** Nothing of the stream is pruned. */
  ghost predicate Spares(ops: seq<Op>, key: Key) {
    forall i, n :: 0 <= i < |ops| && ops[i].Prune? ==> (key, n) !in ops[i].slots
  }

  /** What was appended to the stream is in the log. */
  ghost predicate StreamSurvives(s: State, key: Key) {
    forall x :: x in s.stored && x.key == key ==> (key, x.no) in s.rows && s.rows[(key, x.no)] == x.item
  }

  lemma StepSurvives(s: State, op: Op, key: Key)
    requires StreamSurvives(s, key) && Enabled(s, op) && (op.Prune? ==> forall n :: (key, n) !in op.slots)
    ensures StreamSurvives(Apply(s, op), key)
  {
    if !op.Prune? {
      RowsOnlyGrow(s, op);
      forall x | x in Apply(s, op).stored && x.key == key
        ensures (key, x.no) in Apply(s, op).rows && Apply(s, op).rows[(key, x.no)] == x.item
      {
        if x !in s.stored {
          assert op.TryAppend? && x == Stored(s.tasks[op.t].key, s.tasks[op.t].no, s.tasks[op.t].item);
        }
      }
    }
  }

  lemma {:induction false} RunSurvives(s: State, ops: seq<Op>, key: Key)
    requires StreamSurvives(s, key) && Allowed(s, ops) && Spares(ops, key)
    ensures StreamSurvives(Run(s, ops), key)
    decreases |ops|
  {
    if ops != [] {
      assert forall n :: ops[0].Prune? ==> (key, n) !in ops[0].slots;
      StepSurvives(s, ops[0], key);
      assert forall i :: 0 <= i < |ops[1..]| ==> ops[1..][i] == ops[i + 1];
      RunSurvives(Apply(s, ops[0]), ops[1..], key);
    }
  }

  /** The same, read off the log, of a stream that is not pruned. */
  lemma GapsShow(s: State, rep: Replica, ops: seq<Op>, key: Key, i: nat)
    requires Fresh(s) && Allowed(s, ops) && SoloRun(s, rep, key, TopSeq(s.rows, key), ops)
    requires Settled(Run(s, ops), key) && Spares(ops, key)
    requires i < |Run(s, ops).handed| && Run(s, ops).handed[i].key == key
    ensures
      var e := Run(s, ops);
      var x := e.handed[i];
      || ((key, x.no) in e.rows && e.rows[(key, x.no)] == x.item)
      || (x.item != Earlier && exists n: nat :: (key, n) in e.rows && e.rows[(key, n)] == Marker(x.item.task, x.no))
      || MarkerLost(e, x)
  {
    GapsAccounted(s, rep, ops, key);
    RunSurvives(s, ops, key);
    var e := Run(s, ops);
    var x := e.handed[i];
    if !Persisted(e, x) && !MarkerLost(e, x) {
      var n: nat :| Stored(key, n, Marker(x.item.task, x.no)) in e.stored;
      assert (key, n) in e.rows;
    }
  }
}
