/** Sequencing, persisting and publishing events: any number of `emit` calls on any
    number of replicas over one log, stepped at every lock section and store call.
 */
module EmitterProtocol {
  import opened Common

  type Key = string
  type Replica = nat
  type TaskId = nat
  type Slot = (Key, nat)

  /** What a row or a publication carries: something already in the log, an emit's
      own event, or the marker saying that the event at `lost` was not persisted. */
  datatype Item = Earlier | Own(task: TaskId) | Marker(task: TaskId, lost: nat)

  datatype Pc =
    | Fast                 // about to look the counter up under the lock
    | ReadHigh             // no counter: about to read the high-water, unlocked
    | Seed(seeded: nat)    // about to take the lock again with what was read
    | Append
    | Forget               // conflict: about to drop the cached counter
    | Publish(ok: bool)
    | Done(ok: bool)

  /** One `emit` call.  `tried` lists the seqs it was handed for the current item,
      `conflicts` how many of them the log refused as taken, `faulted` whether an
      append failed for another reason. */
  datatype Task = Task(rep: Replica, key: Key, item: Item, pc: Pc, no: nat, tried: seq<nat>, conflicts: nat, faulted: bool)

  datatype Handout = Handout(rep: Replica, key: Key, no: nat, item: Item)
  datatype Stored = Stored(key: Key, no: nat, item: Item)
  datatype Lost = Lost(key: Key, no: nat, item: Item, conflicts: nat, faulted: bool)
  datatype Publication = Publication(key: Key, no: nat, item: Item, ok: bool)

  /** `seqs` and `rows` are the daemon's state; the rest records what happened:
      every seq handed out, every row ever appended, every item whose append was given
      up, every publication, the append counters and the number of conflict retries. */
  datatype State = State(
    seqs: map<(Replica, Key), nat>,
    rows: map<Slot, Item>,
    tasks: map<TaskId, Task>,
    handed: seq<Handout>,
    stored: seq<Stored>,
    lost: seq<Lost>,
    published: seq<Publication>,
    appended: nat,
    failed: nat,
    retried: nat)

  datatype Op =
    | Start(t: TaskId, rep: Replica, key: Key)
    | TakeFast(t: TaskId)
    | TakeHigh(t: TaskId, fault: bool)
    | TakeSeed(t: TaskId)
    | TryAppend(t: TaskId, fault: bool)
    | DropCounter(t: TaskId)
    | Announce(t: TaskId)
    | Prune(slots: set<Slot>)

  // ------------------------------------------------------------ high water

  ghost function HighestIn(slots: set<Slot>, key: Key): (h: nat)
    ensures forall n :: (key, n) in slots ==> n <= h
    ensures h == 0 || (key, h) in slots
  {
    if |slots| == 0 then 0
    else
      var slot: Slot :| slot in slots;
      var h := HighestIn(slots - {slot}, key);
      assert forall n :: (key, n) in slots ==> (key, n) in slots - {slot} || (key, n) == slot;
      if slot.0 == key && slot.1 > h then slot.1 else h
  }

  /** The high-water read, over the machine's slots: the largest surviving seq of a
      stream, 0 when there is none. */
  ghost function TopSeq(rows: map<Slot, Item>, key: Key): (h: nat)
    ensures forall n :: (key, n) in rows ==> n <= h
    ensures h == 0 || (key, h) in rows
  {
    HighestIn(rows.Keys, key)
  }

  // ------------------------------------------------------------------ steps

  predicate At(s: State, t: TaskId, pc: Pc) {
    t in s.tasks && s.tasks[t].pc == pc
  }

  predicate Enabled(s: State, op: Op) {
    match op
    case Start(t, rep, key) => t !in s.tasks
    case TakeFast(t) => At(s, t, Fast)
    case TakeHigh(t, fault) => At(s, t, ReadHigh)
    case TakeSeed(t) => t in s.tasks && s.tasks[t].pc.Seed?
    case TryAppend(t, fault) => At(s, t, Append)
    case DropCounter(t) => At(s, t, Forget)
    case Announce(t) => t in s.tasks && s.tasks[t].pc.Publish?
    case Prune(slots) => true
  }

  /** A lock section hands task `t` the seq `no` and records it in `seqs`. */
  function HandOut(s: State, t: TaskId, no: nat): State
    requires t in s.tasks
  {
    var task := s.tasks[t];
    s.(seqs := s.seqs[(task.rep, task.key) := no],
       tasks := s.tasks[t := task.(pc := Append, no := no, tried := task.tried + [no])],
       handed := s.handed + [Handout(task.rep, task.key, no, task.item)])
  }

  function AppendFails(s: State, t: TaskId, task: Task): State {
    s.(tasks := s.tasks[t := task.(pc := Publish(false))],
       lost := s.lost + [Lost(task.key, task.no, task.item, task.conflicts, task.faulted)],
       failed := s.failed + 1)
  }

  function AppendStep(s: State, t: TaskId, fault: bool): State
    requires t in s.tasks
  {
    var task := s.tasks[t];
    if fault then
      AppendFails(s, t, task.(faulted := true))
    else if (task.key, task.no) !in s.rows then
      s.(rows := s.rows[(task.key, task.no) := task.item],
         tasks := s.tasks[t := task.(pc := Publish(true))],
         stored := s.stored + [Stored(task.key, task.no, task.item)],
         appended := s.appended + 1)
    else if task.conflicts < SEQ_CONFLICT_RETRIES then
      s.(tasks := s.tasks[t := task.(pc := Forget, conflicts := task.conflicts + 1)], retried := s.retried + 1)
    else
      AppendFails(s, t, task.(conflicts := task.conflicts + 1))
  }

  /** Publishing ends the emit, unless its own event was lost: then the marker is
      sequenced and appended the same way. */
  function AnnounceStep(s: State, t: TaskId): State
    requires t in s.tasks && s.tasks[t].pc.Publish?
  {
    var task := s.tasks[t];
    var task' :=
      if task.pc.ok || task.item != Own(t) then task.(pc := Done(task.pc.ok))
      else task.(item := Marker(t, task.no), pc := Fast, tried := [], conflicts := 0, faulted := false);
    s.(tasks := s.tasks[t := task'],
       published := s.published + [Publication(task.key, task.no, task.item, task.pc.ok)])
  }

  function Goto(s: State, t: TaskId, pc: Pc): State
    requires t in s.tasks
  {
    s.(tasks := s.tasks[t := s.tasks[t].(pc := pc)])
  }

  /** `reseed_seq`: the next call reads the high-water afresh. */
  function DropStep(s: State, t: TaskId): State
    requires t in s.tasks
  {
    Goto(s.(seqs := s.seqs - {(s.tasks[t].rep, s.tasks[t].key)}), t, Fast)
  }

  /** What both lock sections of `next_seq` do once a counter exists. */
  predicate Cached(s: State, t: TaskId)
    requires t in s.tasks
  {
    (s.tasks[t].rep, s.tasks[t].key) in s.seqs
  }

  function CachedNext(s: State, t: TaskId): nat
    requires t in s.tasks && Cached(s, t)
  {
    s.seqs[(s.tasks[t].rep, s.tasks[t].key)] + 1
  }

  ghost function Apply(s: State, op: Op): State
    requires Enabled(s, op)
  {
    match op
    case Start(t, rep, key) => s.(tasks := s.tasks[t := Task(rep, key, Own(t), Fast, 0, [], 0, false)])
    case TakeFast(t) => if Cached(s, t) then HandOut(s, t, CachedNext(s, t)) else Goto(s, t, ReadHigh)
    case TakeHigh(t, fault) => Goto(s, t, Seed(if fault then 0 else TopSeq(s.rows, s.tasks[t].key)))
    case TakeSeed(t) => HandOut(s, t, if Cached(s, t) then CachedNext(s, t) else s.tasks[t].pc.seeded + 1)
    case TryAppend(t, fault) => AppendStep(s, t, fault)
    case DropCounter(t) => DropStep(s, t)
    case Announce(t) => AnnounceStep(s, t)
    case Prune(slots) => s.(rows := s.rows - slots)
  }

  ghost predicate Allowed(s: State, ops: seq<Op>)
    decreases |ops|
  {
    ops == [] || (Enabled(s, ops[0]) && Allowed(Apply(s, ops[0]), ops[1..]))
  }

  ghost function Run(s: State, ops: seq<Op>): State
    requires Allowed(s, ops)
    decreases |ops|
  {
    if ops == [] then s else Run(Apply(s, ops[0]), ops[1..])
  }

  /** A cluster starting up over whatever the log already holds. */
  ghost predicate Fresh(s: State) {
    && s.seqs == map[] && s.tasks == map[]
    && s.handed == [] && s.stored == [] && s.lost == [] && s.published == []
    && s.appended == s.failed == s.retried == 0
    && forall slot :: slot in s.rows ==> s.rows[slot] == Earlier
  }

  // ---------------------------------------- what every interleaving keeps

  /** The retry loop's own arithmetic. */
  ghost predicate Bounded(task: Task) {
    && |task.tried| <= SEQ_CONFLICT_RETRIES + 1
    && match task.pc
       case Append => |task.tried| == task.conflicts + 1 && task.tried[task.conflicts] == task.no && !task.faulted
       case Publish(ok) => Settled(task, ok)
       case Done(ok) => Settled(task, ok)
       case _ => |task.tried| == task.conflicts <= SEQ_CONFLICT_RETRIES && !task.faulted
  }

  ghost predicate Settled(task: Task, ok: bool) {
    && 0 < |task.tried| && task.tried[|task.tried| - 1] == task.no
    && (ok <==> !task.faulted && task.conflicts <= SEQ_CONFLICT_RETRIES)
    && |task.tried| == if task.conflicts > SEQ_CONFLICT_RETRIES then task.conflicts else task.conflicts + 1
  }

  ghost predicate LoopsBounded(s: State) {
    forall t :: t in s.tasks ==> Bounded(s.tasks[t])
  }

  lemma HandOutBounded(s: State, t: TaskId, no: nat)
    requires LoopsBounded(s) && t in s.tasks && (s.tasks[t].pc == Fast || s.tasks[t].pc.Seed?)
    ensures LoopsBounded(HandOut(s, t, no))
  {
  }

  lemma GotoBounded(s: State, t: TaskId, pc: Pc)
    requires LoopsBounded(s) && t in s.tasks && pc != Append && !pc.Publish? && !pc.Done?
    requires s.tasks[t].pc == Fast || s.tasks[t].pc == ReadHigh || s.tasks[t].pc == Forget
    ensures LoopsBounded(Goto(s, t, pc))
  {
  }

  lemma AppendBounded(s: State, t: TaskId, fault: bool)
    requires LoopsBounded(s) && At(s, t, Append)
    ensures LoopsBounded(AppendStep(s, t, fault))
  {
  }

  lemma AnnounceBounded(s: State, t: TaskId)
    requires LoopsBounded(s) && t in s.tasks && s.tasks[t].pc.Publish?
    ensures LoopsBounded(AnnounceStep(s, t))
  {
  }

  lemma StepKeepsBounds(s: State, op: Op)
    requires LoopsBounded(s) && Enabled(s, op)
    ensures LoopsBounded(Apply(s, op))
  {
    match op
    case Start(t, rep, key) =>
    case TakeFast(t) =>
      if Cached(s, t) {
        HandOutBounded(s, t, CachedNext(s, t));
      } else {
        GotoBounded(s, t, ReadHigh);
      }
    case TakeHigh(t, fault) => GotoBounded(s, t, Seed(if fault then 0 else TopSeq(s.rows, s.tasks[t].key)));
    case TakeSeed(t) => HandOutBounded(s, t, if Cached(s, t) then CachedNext(s, t) else s.tasks[t].pc.seeded + 1);
    case TryAppend(t, fault) => AppendBounded(s, t, fault);
    case DropCounter(t) => GotoBounded(s.(seqs := s.seqs - {(s.tasks[t].rep, s.tasks[t].key)}), t, Fast);
    case Announce(t) => AnnounceBounded(s, t);
    case Prune(slots) =>
  }

  predicate Persisted(task: Task) {
    task.pc == Publish(true) || task.pc == Done(true)
  }

  predicate Owned(t: TaskId, item: Item) {
    item == Own(t) || (item.Marker? && item.task == t)
  }

  /** A task carries its own event or marker, and never ends on its own event's
      loss: it ends on its marker's. */
  ghost predicate Identified(s: State) {
    forall t :: t in s.tasks ==>
      Owned(t, s.tasks[t].item) && (s.tasks[t].pc == Done(false) ==> s.tasks[t].item.Marker?)
  }

  /** Task and log agree on what has been persisted: a row ever appended is the
      current item of the one task that reports it, at that task's seq. */
  ghost predicate Reported(s: State, x: Stored) {
    && x.item != Earlier && x.item.task in s.tasks
    && var task := s.tasks[x.item.task];
       Persisted(task) && x == Stored(task.key, task.no, task.item)
  }

  ghost predicate StoredReported(s: State) {
    forall i :: 0 <= i < |s.stored| ==> Reported(s, s.stored[i])
  }

  ghost predicate PersistedStored(s: State) {
    forall t :: t in s.tasks && Persisted(s.tasks[t]) ==>
      Stored(s.tasks[t].key, s.tasks[t].no, s.tasks[t].item) in s.stored
  }

  ghost predicate StoredOnce(s: State) {
    forall i, j :: 0 <= i < j < |s.stored| ==> s.stored[i].item != s.stored[j].item
  }

  ghost predicate RowsStored(s: State) {
    forall slot :: slot in s.rows && s.rows[slot] != Earlier ==> Stored(slot.0, slot.1, s.rows[slot]) in s.stored
  }

  ghost predicate Ledger(s: State) {
    Identified(s) && StoredReported(s) && PersistedStored(s) && StoredOnce(s) && RowsStored(s)
  }

  /** A step that appends nothing and moves one task along. */
  ghost predicate Moves(s: State, s': State, t: TaskId) {
    && s'.stored == s.stored && s'.tasks.Keys == s.tasks.Keys + {t}
    && (forall u :: u in s.tasks && u != t ==> s'.tasks[u] == s.tasks[u])
    && Owned(t, s'.tasks[t].item) && (s'.tasks[t].pc == Done(false) ==> s'.tasks[t].item.Marker?)
    && (if t in s.tasks && Persisted(s.tasks[t])
        then Persisted(s'.tasks[t]) && s'.tasks[t] == s.tasks[t].(pc := s'.tasks[t].pc)
        else !Persisted(s'.tasks[t]))
    && s'.rows == s.rows
  }

  predicate Appends(s: State, op: Op)
    requires Enabled(s, op)
  {
    op.TryAppend? && !op.fault && (s.tasks[op.t].key, s.tasks[op.t].no) !in s.rows
  }

  lemma HandOutMoves(s: State, t: TaskId, no: nat)
    requires t in s.tasks && Owned(t, s.tasks[t].item) && !Persisted(s.tasks[t])
    ensures Moves(s, HandOut(s, t, no), t)
  {
  }

  lemma GotoMoves(s: State, t: TaskId, pc: Pc)
    requires t in s.tasks && Owned(t, s.tasks[t].item) && !Persisted(s.tasks[t])
    requires pc != Publish(true) && !pc.Done?
    ensures Moves(s, Goto(s, t, pc), t)
  {
  }

  lemma FailedAppendMoves(s: State, t: TaskId, fault: bool)
    requires At(s, t, Append) && Owned(t, s.tasks[t].item)
    requires fault || (s.tasks[t].key, s.tasks[t].no) in s.rows
    ensures Moves(s, AppendStep(s, t, fault), t)
  {
  }

  lemma DropMoves(s: State, t: TaskId)
    requires At(s, t, Forget) && Owned(t, s.tasks[t].item)
    ensures Moves(s, DropStep(s, t), t)
  {
  }

  lemma StartMoves(s: State, t: TaskId, rep: Replica, key: Key)
    requires t !in s.tasks
    ensures Moves(s, Apply(s, Start(t, rep, key)), t)
  {
  }

  lemma AnnounceMoves(s: State, t: TaskId)
    requires t in s.tasks && s.tasks[t].pc.Publish? && Owned(t, s.tasks[t].item)
    ensures Moves(s, AnnounceStep(s, t), t)
  {
  }

  lemma StepMoves(s: State, op: Op)
    requires Enabled(s, op) && !op.Prune? && !Appends(s, op)
    requires op.Start? || Owned(op.t, s.tasks[op.t].item)
    ensures Moves(s, Apply(s, op), op.t)
  {
    match op
    case Start(t, rep, key) => StartMoves(s, t, rep, key);
    case TakeFast(t) =>
      if Cached(s, t) { HandOutMoves(s, t, CachedNext(s, t)); } else { GotoMoves(s, t, ReadHigh); }
    case TakeHigh(t, fault) => GotoMoves(s, t, Seed(if fault then 0 else TopSeq(s.rows, s.tasks[t].key)));
    case TakeSeed(t) => HandOutMoves(s, t, if Cached(s, t) then CachedNext(s, t) else s.tasks[t].pc.seeded + 1);
    case TryAppend(t, fault) => FailedAppendMoves(s, t, fault);
    case DropCounter(t) => DropMoves(s, t);
    case Announce(t) => AnnounceMoves(s, t);
  }

  lemma MoveKeepsLedger(s: State, s': State, t: TaskId)
    requires Ledger(s) && Moves(s, s', t)
    ensures Ledger(s')
  {
    forall i | 0 <= i < |s'.stored| ensures Reported(s', s'.stored[i]) {
      assert Reported(s, s.stored[i]);
    }
  }

  lemma AppendKeepsLedger(s: State, t: TaskId)
    requires Ledger(s) && At(s, t, Append) && (s.tasks[t].key, s.tasks[t].no) !in s.rows
    ensures Ledger(AppendStep(s, t, false))
  {
    var s' := AppendStep(s, t, false);
    var x := Stored(s.tasks[t].key, s.tasks[t].no, s.tasks[t].item);
    assert s'.stored == s.stored + [x];
    forall i | 0 <= i < |s.stored| ensures s.stored[i].item != x.item && Reported(s', s.stored[i]) {
      assert Reported(s, s.stored[i]);
    }
    assert s'.stored[|s.stored|] == x;
    assert x in s'.stored && forall y :: y in s.stored ==> y in s'.stored;
  }

  lemma StepKeepsLedger(s: State, op: Op)
    requires Ledger(s) && Enabled(s, op)
    ensures Ledger(Apply(s, op))
  {
    var s' := Apply(s, op);
    if op.Prune? {
      assert s'.tasks == s.tasks && s'.stored == s.stored;
    } else if Appends(s, op) {
      AppendKeepsLedger(s, op.t);
    } else {
      StepMoves(s, op);
      MoveKeepsLedger(s, s', op.t);
    }
  }

  /** What reaches the bus is what the log says: an event published as persisted
      was appended at exactly the published seq, one published as lost never was. */
  ghost predicate Truthful(s: State, p: Publication) {
    && p.item != Earlier && p.item.task in s.tasks
    && (p.ok ==> Stored(p.key, p.no, p.item) in s.stored)
    && (!p.ok ==> var task := s.tasks[p.item.task];
                  (p.item == Own(p.item.task) && task.item.Marker?) || (task.item == p.item && task.pc == Done(false)))
  }

  ghost predicate PublishedTruly(s: State) {
    forall i :: 0 <= i < |s.published| ==> Truthful(s, s.published[i])
  }

  /** A step before publication: one unfinished task moves, keeping its item. */
  ghost predicate Works(s: State, s': State, t: TaskId) {
    && t in s.tasks && !s.tasks[t].pc.Done? && s'.tasks.Keys == s.tasks.Keys
    && (forall u :: u in s.tasks && u != t ==> s'.tasks[u] == s.tasks[u])
    && s'.tasks[t].item == s.tasks[t].item
    && s'.published == s.published && forall y :: y in s.stored ==> y in s'.stored
  }

  lemma WorkKeepsTruth(s: State, s': State, t: TaskId)
    requires PublishedTruly(s) && Works(s, s', t)
    ensures PublishedTruly(s')
  {
    forall i | 0 <= i < |s'.published| ensures Truthful(s', s'.published[i]) {
      assert Truthful(s, s.published[i]);
    }
  }

  lemma AnnounceKeepsTruth(s: State, t: TaskId)
    requires Ledger(s) && PublishedTruly(s) && t in s.tasks && s.tasks[t].pc.Publish?
    ensures PublishedTruly(AnnounceStep(s, t))
  {
    var s' := AnnounceStep(s, t);
    forall i | 0 <= i < |s'.published| ensures Truthful(s', s'.published[i]) {
      if i < |s.published| {
        assert Truthful(s, s.published[i]);
      }
    }
  }

  lemma HandOutWorks(s: State, t: TaskId, no: nat)
    requires t in s.tasks && !s.tasks[t].pc.Done?
    ensures Works(s, HandOut(s, t, no), t)
  {
  }

  lemma GotoWorks(s: State, t: TaskId, pc: Pc)
    requires t in s.tasks && !s.tasks[t].pc.Done?
    ensures Works(s, Goto(s, t, pc), t)
  {
  }

  lemma AppendWorks(s: State, t: TaskId, fault: bool)
    requires At(s, t, Append)
    ensures Works(s, AppendStep(s, t, fault), t)
  {
  }

  lemma StepWorks(s: State, op: Op)
    requires Enabled(s, op) && !op.Start? && !op.Prune? && !op.Announce?
    ensures Works(s, Apply(s, op), op.t)
  {
    match op
    case TakeFast(t) => if Cached(s, t) { HandOutWorks(s, t, CachedNext(s, t)); } else { GotoWorks(s, t, ReadHigh); }
    case TakeHigh(t, fault) => GotoWorks(s, t, Seed(if fault then 0 else TopSeq(s.rows, s.tasks[t].key)));
    case TakeSeed(t) => HandOutWorks(s, t, if Cached(s, t) then CachedNext(s, t) else s.tasks[t].pc.seeded + 1);
    case TryAppend(t, fault) => AppendWorks(s, t, fault);
    case DropCounter(t) =>
  }

  /** Starting a task or pruning rows touches nothing already published. */
  lemma QuietKeepsTruth(s: State, s': State)
    requires PublishedTruly(s) && s'.published == s.published && s'.stored == s.stored
    requires forall t :: t in s.tasks ==> t in s'.tasks && s'.tasks[t] == s.tasks[t]
    ensures PublishedTruly(s')
  {
    forall i | 0 <= i < |s'.published| ensures Truthful(s', s'.published[i]) {
      assert Truthful(s, s.published[i]);
    }
  }

  lemma StepKeepsTruth(s: State, op: Op)
    requires Ledger(s) && PublishedTruly(s) && Enabled(s, op)
    ensures PublishedTruly(Apply(s, op))
  {
    if op.Announce? {
      AnnounceKeepsTruth(s, op.t);
    } else if op.Start? || op.Prune? {
      QuietKeepsTruth(s, Apply(s, op));
    } else {
      StepWorks(s, op);
      WorkKeepsTruth(s, Apply(s, op), op.t);
    }
  }

  /** The task's own event was given up, for a reason that justifies it. */
  ghost predicate OwnLost(s: State, t: TaskId) {
    exists i :: 0 <= i < |s.lost| && s.lost[i].item == Own(t) && (s.lost[i].faulted || s.lost[i].conflicts > SEQ_CONFLICT_RETRIES)
  }

  /** The task has given its own event up, and turns or has turned to its marker. */
  predicate GaveUp(task: Task) {
    task.item.Marker? || task.pc == Publish(false)
  }

  ghost predicate MarkersJustified(s: State) {
    && (forall t :: t in s.tasks && GaveUp(s.tasks[t]) && Owned(t, s.tasks[t].item) ==> OwnLost(s, t))
    && (forall i :: 0 <= i < |s.lost| && s.lost[i].item.Own? ==> s.lost[i].item.task in s.tasks && GaveUp(s.tasks[s.lost[i].item.task]))
  }

  /** A step after which the lost are still lost; a task gives its own event up exactly
      when it records that, and for good. */
  ghost predicate Justifies(s: State, s': State, t: TaskId) {
    && s.lost <= s'.lost && s.tasks.Keys <= s'.tasks.Keys <= s.tasks.Keys + {t}
    && (forall u :: u in s.tasks && u != t ==> s'.tasks[u] == s.tasks[u])
    && (t in s'.tasks && GaveUp(s'.tasks[t]) && Owned(t, s'.tasks[t].item) ==>
          OwnLost(s', t) || (t in s.tasks && Owned(t, s.tasks[t].item) && GaveUp(s.tasks[t])))
    && (t in s.tasks && GaveUp(s.tasks[t]) ==> GaveUp(s'.tasks[t]))
    && (forall i :: |s.lost| <= i < |s'.lost| && s'.lost[i].item.Own? ==>
          s'.lost[i].item.task == t && t in s'.tasks && GaveUp(s'.tasks[t]))
  }

  lemma OwnLostStays(s: State, s': State, t: TaskId)
    requires OwnLost(s, t) && s.lost <= s'.lost
    ensures OwnLost(s', t)
  {
    var i :| 0 <= i < |s.lost| && s.lost[i].item == Own(t) && (s.lost[i].faulted || s.lost[i].conflicts > SEQ_CONFLICT_RETRIES);
    assert s'.lost[i] == s.lost[i];
  }

  lemma JustifiedKeeps(s: State, s': State, t: TaskId)
    requires MarkersJustified(s) && Justifies(s, s', t)
    ensures MarkersJustified(s')
  {
    forall u | u in s'.tasks && GaveUp(s'.tasks[u]) && Owned(u, s'.tasks[u].item)
      ensures OwnLost(s', u)
    {
      if u != t || !OwnLost(s', t) {
        assert OwnLost(s, u);
        OwnLostStays(s, s', u);
      }
    }
    forall i | 0 <= i < |s'.lost| && s'.lost[i].item.Own?
      ensures s'.lost[i].item.task in s'.tasks && GaveUp(s'.tasks[s'.lost[i].item.task])
    {
      if i < |s.lost| {
        assert s'.lost[i] == s.lost[i];
      }
    }
  }

  lemma AppendJustifies(s: State, t: TaskId, fault: bool)
    requires At(s, t, Append) && Owned(t, s.tasks[t].item)
    ensures Justifies(s, AppendStep(s, t, fault), t)
  {
    var s' := AppendStep(s, t, fault);
    if s'.tasks[t].pc == Publish(false) && s.tasks[t].item == Own(t) {
      var x := s'.lost[|s.lost|];
      assert x.item == Own(t) && (x.faulted || x.conflicts > SEQ_CONFLICT_RETRIES);
    }
  }

  lemma HandOutJustifies(s: State, t: TaskId, no: nat)
    requires t in s.tasks && s.tasks[t].pc != Publish(false)
    ensures Justifies(s, HandOut(s, t, no), t)
  {
  }

  lemma GotoJustifies(s: State, t: TaskId, pc: Pc)
    requires t in s.tasks && s.tasks[t].pc != Publish(false) && pc != Publish(false)
    ensures Justifies(s, Goto(s, t, pc), t)
  {
  }

  lemma AnnounceJustifies(s: State, t: TaskId)
    requires t in s.tasks && s.tasks[t].pc.Publish? && Owned(t, s.tasks[t].item)
    ensures Justifies(s, AnnounceStep(s, t), t)
  {
  }

  lemma StartJustifies(s: State, t: TaskId, rep: Replica, key: Key)
    requires t !in s.tasks
    ensures Justifies(s, Apply(s, Start(t, rep, key)), t)
  {
  }

  lemma DropJustifies(s: State, t: TaskId)
    requires At(s, t, Forget)
    ensures Justifies(s, DropStep(s, t), t)
  {
  }

  lemma StepJustifies(s: State, op: Op)
    requires Identified(s) && Enabled(s, op) && !op.Prune?
    ensures Justifies(s, Apply(s, op), op.t)
  {
    match op
    case Start(t, rep, key) => StartJustifies(s, t, rep, key);
    case TakeFast(t) =>
      if Cached(s, t) { HandOutJustifies(s, t, CachedNext(s, t)); } else { GotoJustifies(s, t, ReadHigh); }
    case TakeHigh(t, fault) => GotoJustifies(s, t, Seed(if fault then 0 else TopSeq(s.rows, s.tasks[t].key)));
    case TakeSeed(t) => HandOutJustifies(s, t, if Cached(s, t) then CachedNext(s, t) else s.tasks[t].pc.seeded + 1);
    case TryAppend(t, fault) => AppendJustifies(s, t, fault);
    case DropCounter(t) => DropJustifies(s, t);
    case Announce(t) => AnnounceJustifies(s, t);
  }

  lemma PruneKeepsJustified(s: State, slots: set<Slot>)
    requires MarkersJustified(s)
    ensures MarkersJustified(s.(rows := s.rows - slots))
  {
    var s' := s.(rows := s.rows - slots);
    forall u | u in s'.tasks && GaveUp(s'.tasks[u]) && Owned(u, s'.tasks[u].item) ensures OwnLost(s', u) {
      OwnLostStays(s, s', u);
    }
  }

  lemma StepKeepsJustified(s: State, op: Op)
    requires MarkersJustified(s) && Identified(s) && Enabled(s, op)
    ensures MarkersJustified(Apply(s, op))
  {
    if op.Prune? {
      PruneKeepsJustified(s, op.slots);
    } else {
      StepJustifies(s, op);
      JustifiedKeeps(s, Apply(s, op), op.t);
    }
  }

  ghost predicate Inv(s: State) {
    LoopsBounded(s) && Ledger(s) && PublishedTruly(s) && MarkersJustified(s)
  }

  lemma {:induction false} RunKeepsInv(s: State, ops: seq<Op>)
    requires Inv(s) && Allowed(s, ops)
    ensures Inv(Run(s, ops))
    decreases |ops|
  {
    if ops != [] {
      StepKeepsBounds(s, ops[0]);
      StepKeepsLedger(s, ops[0]);
      StepKeepsTruth(s, ops[0]);
      StepKeepsJustified(s, ops[0]);
      RunKeepsInv(Apply(s, ops[0]), ops[1..]);
    }
  }

  /** Emitting against racing replicas, in every interleaving with any append
      faults, failed reads and pruning: an append loop makes at most nine attempts;
      each item is appended at most once; a publication says truly whether its event
      was persisted, and at which seq; and a call that met no more than eight
      conflicts and no other error did persist its event. */
  lemma EmitSafety(s: State, ops: seq<Op>)
    requires Fresh(s) && Allowed(s, ops)
    ensures
      var e := Run(s, ops);
      && (forall t :: t in e.tasks ==> |e.tasks[t].tried| <= 9)
      && (forall i, j :: 0 <= i < j < |e.stored| ==> e.stored[i].item != e.stored[j].item)
      && (forall i :: 0 <= i < |e.published| ==>
            var p := e.published[i];
            p.ok <==> Stored(p.key, p.no, p.item) in e.stored)
      && (forall t :: t in e.tasks && e.tasks[t].pc.Done? && !e.tasks[t].faulted && e.tasks[t].conflicts <= 8 ==>
            Stored(e.tasks[t].key, e.tasks[t].no, e.tasks[t].item) in e.stored)
  {
    RunKeepsInv(s, ops);
    var e := Run(s, ops);
    forall i | 0 <= i < |e.published|
      ensures e.published[i].ok <==> Stored(e.published[i].key, e.published[i].no, e.published[i].item) in e.stored
    {
      var p := e.published[i];
      assert Truthful(e, p);
    }
  }

  function TimesStored(stored: seq<Stored>, item: Item): nat {
    if stored == [] then 0 else TimesStored(stored[..|stored| - 1], item) + if stored[|stored| - 1].item == item then 1 else 0
  }

  lemma {:induction false} NeverStored(stored: seq<Stored>, item: Item)
    requires forall i :: 0 <= i < |stored| ==> stored[i].item != item
    ensures TimesStored(stored, item) == 0
  {
    if stored != [] {
      NeverStored(stored[..|stored| - 1], item);
    }
  }

  lemma {:induction false} StoredJustOnce(stored: seq<Stored>, item: Item, k: nat)
    requires k < |stored| && stored[k].item == item
    requires forall i, j :: 0 <= i < j < |stored| ==> stored[i].item != stored[j].item
    ensures TimesStored(stored, item) == 1
  {
    var n := |stored| - 1;
    if k < n {
      StoredJustOnce(stored[..n], item, k);
    } else {
      NeverStored(stored[..n], item);
    }
  }

  /** The fate of an emit's own event, whatever became of its marker: once the emit has
      finished, its event was stored exactly once if its append loop met at most eight
      conflicts and no other error, and otherwise never. */
  lemma OwnEventFate(s: State, ops: seq<Op>, t: TaskId)
    requires Fresh(s) && Allowed(s, ops) && t in Run(s, ops).tasks && Run(s, ops).tasks[t].pc.Done?
    ensures TimesStored(Run(s, ops).stored, Own(t)) == if OwnLost(Run(s, ops), t) then 0 else 1
  {
    RunKeepsInv(s, ops);
    var e := Run(s, ops);
    var task := e.tasks[t];
    assert Owned(t, task.item);
    if task.item == Own(t) {
      assert task.pc == Done(true) && !GaveUp(task);
      assert Stored(task.key, task.no, task.item) in e.stored;
      var k :| 0 <= k < |e.stored| && e.stored[k] == Stored(task.key, task.no, task.item);
      StoredJustOnce(e.stored, Own(t), k);
    } else {
      forall i | 0 <= i < |e.stored| ensures e.stored[i].item != Own(t) {
        assert Reported(e, e.stored[i]);
      }
      NeverStored(e.stored, Own(t));
    }
  }
}
