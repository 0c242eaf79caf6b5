/** Whole-run results about emitting: what is counted, which seqs are handed out,
    which are lost and how that shows. */
module EmitterRuns {
  import opened EmitterProtocol

  // ------------------------------------------------------------ accounting

  function InFlight(s: State): set<TaskId> {
    set t | t in s.tasks && s.tasks[t].pc == Append
  }

  ghost predicate Balanced(s: State) {
    |s.handed| == s.appended + s.failed + s.retried + |InFlight(s)|
  }

  lemma HandOutBalances(s: State, t: TaskId, no: nat)
    requires Balanced(s) && t in s.tasks && s.tasks[t].pc != Append
    ensures Balanced(HandOut(s, t, no))
  {
    assert InFlight(HandOut(s, t, no)) == InFlight(s) + {t};
  }

  lemma GotoBalances(s: State, t: TaskId, pc: Pc)
    requires Balanced(s) && t in s.tasks && s.tasks[t].pc != Append && pc != Append
    ensures Balanced(Goto(s, t, pc))
  {
    assert InFlight(Goto(s, t, pc)) == InFlight(s);
  }

  lemma FastBalances(s: State, t: TaskId)
    requires Balanced(s) && Enabled(s, TakeFast(t))
    ensures Balanced(Apply(s, TakeFast(t)))
  {
    if Cached(s, t) { HandOutBalances(s, t, CachedNext(s, t)); } else { GotoBalances(s, t, ReadHigh); }
  }

  lemma AppendBalances(s: State, t: TaskId, fault: bool)
    requires Balanced(s) && Enabled(s, TryAppend(t, fault))
    ensures Balanced(AppendStep(s, t, fault))
  {
    assert t in InFlight(s) && InFlight(AppendStep(s, t, fault)) == InFlight(s) - {t};
  }

  lemma AnnounceBalances(s: State, t: TaskId)
    requires Balanced(s) && Enabled(s, Announce(t))
    ensures Balanced(AnnounceStep(s, t))
  {
    assert InFlight(AnnounceStep(s, t)) == InFlight(s);
  }

  lemma StartBalances(s: State, t: TaskId, rep: Replica, key: Key)
    requires Balanced(s) && Enabled(s, Start(t, rep, key))
    ensures Balanced(Apply(s, Start(t, rep, key)))
  {
    assert InFlight(Apply(s, Start(t, rep, key))) == InFlight(s);
  }

  lemma StepKeepsBalance(s: State, op: Op)
    requires Balanced(s) && Enabled(s, op)
    ensures Balanced(Apply(s, op))
  {
    match op
    case Start(t, rep, key) => StartBalances(s, t, rep, key);
    case TakeFast(t) => FastBalances(s, t);
    case TakeHigh(t, fault) => GotoBalances(s, t, Seed(if fault then 0 else TopSeq(s.rows, s.tasks[t].key)));
    case TakeSeed(t) => HandOutBalances(s, t, if Cached(s, t) then CachedNext(s, t) else s.tasks[t].pc.seeded + 1);
    case TryAppend(t, fault) => AppendBalances(s, t, fault);
    case DropCounter(t) => GotoBalances(s.(seqs := s.seqs - {(s.tasks[t].rep, s.tasks[t].key)}), t, Fast);
    case Announce(t) => AnnounceBalances(s, t);
    case Prune(_) =>
  }

  /** Conservation of sequence numbers, in every interleaving: each seq handed out
      was appended, failed, given up to a conflict, or is about to be tried. */
  lemma {:induction false} SeqsConserved(s: State, ops: seq<Op>)
    requires Allowed(s, ops) && Balanced(s)
    ensures Balanced(Run(s, ops))
    decreases |ops|
  {
    if ops != [] {
      StepKeepsBalance(s, ops[0]);
      SeqsConserved(Apply(s, ops[0]), ops[1..]);
    }
  }

  /** The counters count what they say. */
  ghost predicate Tallied(s: State) {
    s.appended == |s.stored| && s.failed == |s.lost|
  }

  lemma {:induction false} CountersTally(s: State, ops: seq<Op>)
    requires Allowed(s, ops) && Tallied(s)
    ensures Tallied(Run(s, ops))
    decreases |ops|
  {
    if ops != [] {
      CountersTally(Apply(s, ops[0]), ops[1..]);
    }
  }

  // --------------------------------------------- everything is published once

  function TimesPublished(published: seq<Publication>, item: Item): nat {
    if published == [] then 0
    else TimesPublished(published[..|published| - 1], item) + if published[|published| - 1].item == item then 1 else 0
  }

  /** How often an item of task `t` has been due on the bus: its own event once the task
      has turned to its marker or has finished, its marker once it has finished. */
  function DueOnBus(s: State, t: TaskId, item: Item): nat {
    if t in s.tasks && (s.tasks[t].pc.Done? || s.tasks[t].item.Marker?) && (item == Own(t) || (s.tasks[t].pc.Done? && item == s.tasks[t].item))
    then 1 else 0
  }

  ghost predicate OnBus(s: State) {
    forall t, item :: Owned(t, item) ==> TimesPublished(s.published, item) == DueOnBus(s, t, item)
  }

  lemma PublishedMore(published: seq<Publication>, x: Publication, item: Item)
    ensures TimesPublished(published + [x], item) == TimesPublished(published, item) + if x.item == item then 1 else 0
  {
    assert (published + [x])[..|published|] == published;
  }

  lemma AnnounceOnBus(s: State, t: TaskId, u: TaskId, item: Item)
    requires Identified(s) && Enabled(s, Announce(t)) && Owned(u, item)
    ensures DueOnBus(AnnounceStep(s, t), u, item) == DueOnBus(s, u, item) + if s.tasks[t].item == item then 1 else 0
  {
    assert Owned(t, s.tasks[t].item);
    if u != t {
      assert s.tasks[t].item != item;
    }
  }

  lemma AnnounceKeepsBus(s: State, t: TaskId)
    requires OnBus(s) && Identified(s) && Enabled(s, Announce(t))
    ensures OnBus(AnnounceStep(s, t))
  {
    var task := s.tasks[t];
    forall u, item | Owned(u, item)
      ensures TimesPublished(AnnounceStep(s, t).published, item) == DueOnBus(AnnounceStep(s, t), u, item)
    {
      assert TimesPublished(s.published, item) == DueOnBus(s, u, item);
      PublishedMore(s.published, Publication(task.key, task.no, task.item, task.pc.ok), item);
      AnnounceOnBus(s, t, u, item);
    }
  }

  lemma AppendKeepsBus(s: State, t: TaskId, fault: bool)
    requires OnBus(s) && Enabled(s, TryAppend(t, fault))
    ensures OnBus(AppendStep(s, t, fault))
  {
    var s' := AppendStep(s, t, fault);
    forall u, item | Owned(u, item)
      ensures TimesPublished(s'.published, item) == DueOnBus(s', u, item)
    {
      assert TimesPublished(s.published, item) == DueOnBus(s, u, item);
    }
  }

  lemma QuietKeepsBus(s: State, op: Op)
    requires OnBus(s) && Enabled(s, op) && !op.Announce? && !op.TryAppend?
    ensures OnBus(Apply(s, op))
  {
    var s' := Apply(s, op);
    forall u, item | Owned(u, item)
      ensures TimesPublished(s'.published, item) == DueOnBus(s', u, item)
    {
      assert TimesPublished(s.published, item) == DueOnBus(s, u, item);
    }
  }

  lemma {:induction false} RunKeepsBus(s: State, ops: seq<Op>)
    requires Allowed(s, ops) && Inv(s) && OnBus(s)
    ensures OnBus(Run(s, ops))
    decreases |ops|
  {
    if ops != [] {
      match ops[0] {
        case Announce(t) => AnnounceKeepsBus(s, t);
        case TryAppend(t, fault) => AppendKeepsBus(s, t, fault);
        case _ => QuietKeepsBus(s, ops[0]);
      }
      StepKeepsBounds(s, ops[0]);
      StepKeepsLedger(s, ops[0]);
      StepKeepsTruth(s, ops[0]);
      StepKeepsJustified(s, ops[0]);
      RunKeepsBus(Apply(s, ops[0]), ops[1..]);
    }
  }

  /** The live view never misses an event, whatever the store does: an emit that has
      finished published its own event exactly once, and so its marker if it has one. */
  lemma EachPublishedOnce(s: State, ops: seq<Op>, t: TaskId)
    requires Fresh(s) && Allowed(s, ops) && t in Run(s, ops).tasks && Run(s, ops).tasks[t].pc.Done?
    ensures TimesPublished(Run(s, ops).published, Own(t)) == 1
    ensures Run(s, ops).tasks[t].item.Marker? ==> TimesPublished(Run(s, ops).published, Run(s, ops).tasks[t].item) == 1
  {
    RunKeepsBus(s, ops);
    RunKeepsInv(s, ops);
    var e := Run(s, ops);
    assert Owned(t, Own(t)) && Owned(t, e.tasks[t].item);
    assert TimesPublished(e.published, Own(t)) == DueOnBus(e, t, Own(t));
    assert TimesPublished(e.published, e.tasks[t].item) == DueOnBus(e, t, e.tasks[t].item);
  }

  // ------------------------------------------------- one event per seq

  ghost predicate NoPruning(ops: seq<Op>) {
    forall i :: 0 <= i < |ops| ==> !ops[i].Prune?
  }

  ghost predicate StoredSurvives(s: State) {
    forall i :: 0 <= i < |s.stored| ==>
      (s.stored[i].key, s.stored[i].no) in s.rows && s.rows[(s.stored[i].key, s.stored[i].no)] == s.stored[i].item
  }

  /** No append ever overwrites a row. */
  lemma RowsOnlyGrow(s: State, op: Op)
    requires Enabled(s, op) && !op.Prune?
    ensures forall slot :: slot in s.rows ==> slot in Apply(s, op).rows && Apply(s, op).rows[slot] == s.rows[slot]
    ensures StoredSurvives(s) ==> StoredSurvives(Apply(s, op))
  {
  }

  lemma {:induction false} StoredSurvivesRun(s: State, ops: seq<Op>)
    requires Allowed(s, ops) && NoPruning(ops) && StoredSurvives(s)
    ensures StoredSurvives(Run(s, ops))
    decreases |ops|
  {
    if ops != [] {
      RowsOnlyGrow(s, ops[0]);
      assert forall i :: 0 <= i < |ops[1..]| ==> ops[1..][i] == ops[i + 1];
      StoredSurvivesRun(Apply(s, ops[0]), ops[1..]);
    }
  }

  /** Without pruning no two appends of a run ever share a stream and a seq, however
      many replicas race. */
  lemma OneEventPerSeq(s: State, ops: seq<Op>)
    requires Fresh(s) && Allowed(s, ops) && NoPruning(ops)
    ensures
      var e := Run(s, ops);
      forall i, j :: 0 <= i < j < |e.stored| ==> (e.stored[i].key, e.stored[i].no) != (e.stored[j].key, e.stored[j].no)
  {
    StoredSurvivesRun(s, ops);
    RunKeepsInv(s, ops);
  }

  // -------------------------------------------- a stream with one writer

  /** The seqs handed out for `key`, in order. */
  function HandedNos(handed: seq<Handout>, key: Key): seq<nat> {
    if handed == [] then []
    else
      var x := handed[|handed| - 1];
      HandedNos(handed[..|handed| - 1], key) + if x.key == key then [x.no] else []
  }

  lemma HandedNosGrows(handed: seq<Handout>, x: Handout, key: Key)
    ensures HandedNos(handed + [x], key) == HandedNos(handed, key) + if x.key == key then [x.no] else []
  {
    assert (handed + [x])[..|handed|] == handed;
  }

  function Count(s: State, key: Key): nat {
    |HandedNos(s.handed, key)|
  }

  /** The stream an operation works on. */
  predicate Concerns(s: State, op: Op, key: Key)
    requires Enabled(s, op)
  {
    match op
    case Start(_, _, k) => k == key
    case Prune(_) => false
    case _ => s.tasks[op.t].key == key
  }

  /** Steps of a cluster in which only replica `rep` writes the stream `key`, which stood
      at `h`.  What happens on other streams does not matter, whoever writes them.  Until
      the stream's first seq is handed out, a failed high-water read on it must not hide
      that it has events, and a prune must not take the newest of them; afterwards both
      may happen. */
  ghost predicate SoloStep(s: State, rep: Replica, key: Key, h: nat, op: Op)
    requires Enabled(s, op)
  {
    && (op.Start? && op.key == key ==> op.rep == rep)
    && (op.TakeHigh? && op.fault && s.tasks[op.t].key == key ==> h == 0 || Count(s, key) > 0)
    && (op.Prune? ==> Count(s, key) > 0 || (key, h) !in op.slots)
  }

  ghost predicate SoloRun(s: State, rep: Replica, key: Key, h: nat, ops: seq<Op>)
    requires Allowed(s, ops)
    decreases |ops|
  {
    ops == [] || (SoloStep(s, rep, key, h, ops[0]) && SoloRun(Apply(s, ops[0]), rep, key, h, ops[1..]))
  }

  /** How one task of the stream stands, the stream having ended at `h`. */
  ghost predicate TaskSolo(s: State, rep: Replica, task: Task, h: nat) {
    && task.rep == rep && task.conflicts == 0 && task.pc != Forget
    && (task.pc.Seed? && Count(s, task.key) == 0 ==> task.pc.seeded == h)
    && (task.pc == Append ==> h < task.no <= h + Count(s, task.key) && (task.key, task.no) !in s.rows)
  }

  ghost predicate NumbersSolo(s: State, rep: Replica, key: Key, h: nat) {
    && (forall i :: 0 <= i < Count(s, key) ==> HandedNos(s.handed, key)[i] == h + 1 + i)
    && ((rep, key) in s.seqs <==> Count(s, key) > 0)
    && ((rep, key) in s.seqs ==> s.seqs[(rep, key)] == h + Count(s, key))
    && (Count(s, key) == 0 ==> h == 0 || (key, h) in s.rows)
    && (forall n :: (key, n) in s.rows ==> n <= h + Count(s, key))
  }

  ghost predicate TasksSolo(s: State, rep: Replica, key: Key, h: nat) {
    && (forall t :: t in s.tasks && s.tasks[t].key == key ==> TaskSolo(s, rep, s.tasks[t], h))
    && (forall t, u ::
          (At(s, t, Append) && At(s, u, Append) && s.tasks[t].key == s.tasks[u].key == key && s.tasks[t].no == s.tasks[u].no)
          ==> t == u)
  }

  /** A stream with one writer: `h` is where it stood at the start. */
  ghost predicate Solo(s: State, rep: Replica, key: Key, h: nat) {
    NumbersSolo(s, rep, key, h) && TasksSolo(s, rep, key, h)
  }

  /** A step that leaves the stream's numbers alone. */
  ghost predicate SameNumbers(s: State, s': State, rep: Replica, key: Key) {
    && HandedNos(s'.handed, key) == HandedNos(s.handed, key)
    && ((rep, key) in s'.seqs <==> (rep, key) in s.seqs)
    && ((rep, key) in s.seqs ==> s'.seqs[(rep, key)] == s.seqs[(rep, key)])
    && forall n :: (key, n) in s'.rows <==> (key, n) in s.rows
  }

  /** Every task but `t` is untouched, and `t`, if it is of the stream, is not appending. */
  ghost predicate OnlyMoves(s: State, s': State, t: TaskId, key: Key) {
    && (forall u :: u in s'.tasks && u != t ==> u in s.tasks && s'.tasks[u] == s.tasks[u])
    && (t in s'.tasks && s'.tasks[t].key == key ==> s'.tasks[t].pc != Append)
  }

  lemma MoveKeepsSolo(s: State, s': State, rep: Replica, t: TaskId, key: Key, h: nat)
    requires Solo(s, rep, key, h) && SameNumbers(s, s', rep, key) && OnlyMoves(s, s', t, key)
    requires t in s'.tasks && s'.tasks[t].key == key ==> TaskSolo(s', rep, s'.tasks[t], h)
    ensures Solo(s', rep, key, h)
  {
    assert Count(s', key) == Count(s, key);
    forall u | u in s'.tasks && s'.tasks[u].key == key ensures TaskSolo(s', rep, s'.tasks[u], h) {
      if u != t {
        assert TaskSolo(s, rep, s.tasks[u], h);
      }
    }
  }

  // ------------------------------------------------- steps on other streams

  lemma HandOutElsewhere(s: State, rep: Replica, t: TaskId, no: nat, key: Key)
    requires t in s.tasks && s.tasks[t].key != key
    ensures SameNumbers(s, HandOut(s, t, no), rep, key) && OnlyMoves(s, HandOut(s, t, no), t, key)
  {
    var s' := HandOut(s, t, no);
    HandedNosGrows(s.handed, s'.handed[|s.handed|], key);
    assert HandedNos(s.handed, key) + [] == HandedNos(s.handed, key);
  }

  lemma GotoElsewhere(s: State, rep: Replica, t: TaskId, pc: Pc, key: Key)
    requires t in s.tasks && s.tasks[t].key != key
    ensures SameNumbers(s, Goto(s, t, pc), rep, key) && OnlyMoves(s, Goto(s, t, pc), t, key)
  {
  }

  lemma AppendElsewhere(s: State, rep: Replica, t: TaskId, fault: bool, key: Key)
    requires t in s.tasks && s.tasks[t].key != key
    ensures SameNumbers(s, AppendStep(s, t, fault), rep, key) && OnlyMoves(s, AppendStep(s, t, fault), t, key)
  {
  }

  lemma DropElsewhere(s: State, rep: Replica, t: TaskId, key: Key)
    requires t in s.tasks && s.tasks[t].key != key
    ensures SameNumbers(s, DropStep(s, t), rep, key) && OnlyMoves(s, DropStep(s, t), t, key)
  {
  }

  lemma AnnounceElsewhere(s: State, rep: Replica, t: TaskId, key: Key)
    requires t in s.tasks && s.tasks[t].pc.Publish? && s.tasks[t].key != key
    ensures SameNumbers(s, AnnounceStep(s, t), rep, key) && OnlyMoves(s, AnnounceStep(s, t), t, key)
  {
  }

  lemma StaysElsewhere(s: State, op: Op, key: Key)
    requires Enabled(s, op) && !op.Prune? && !Concerns(s, op, key)
    ensures op.t in Apply(s, op).tasks && Apply(s, op).tasks[op.t].key != key
  {
  }

  lemma MoveElsewhere(s: State, rep: Replica, op: Op, key: Key)
    requires Enabled(s, op) && !op.Prune? && !Concerns(s, op, key)
    ensures SameNumbers(s, Apply(s, op), rep, key) && OnlyMoves(s, Apply(s, op), op.t, key)
  {
    match op
    case Start(_, _, _) =>
    case TakeFast(t) =>
      if Cached(s, t) {
        HandOutElsewhere(s, rep, t, CachedNext(s, t), key);
      } else {
        GotoElsewhere(s, rep, t, ReadHigh, key);
      }
    case TakeHigh(t, fault) => GotoElsewhere(s, rep, t, Seed(if fault then 0 else TopSeq(s.rows, s.tasks[t].key)), key);
    case TakeSeed(t) => HandOutElsewhere(s, rep, t, if Cached(s, t) then CachedNext(s, t) else s.tasks[t].pc.seeded + 1, key);
    case TryAppend(t, fault) => AppendElsewhere(s, rep, t, fault, key);
    case DropCounter(t) => DropElsewhere(s, rep, t, key);
    case Announce(t) => AnnounceElsewhere(s, rep, t, key);
  }

  /** Whatever anyone does on other streams, conflicts and dropped counters included. */
  lemma ElsewhereKeepsSolo(s: State, rep: Replica, op: Op, key: Key, h: nat)
    requires Solo(s, rep, key, h) && Enabled(s, op) && !op.Prune? && !Concerns(s, op, key)
    ensures Solo(Apply(s, op), rep, key, h)
  {
    MoveElsewhere(s, rep, op, key);
    StaysElsewhere(s, op, key);
    MoveKeepsSolo(s, Apply(s, op), rep, op.t, key, h);
  }

  lemma PruneKeepsSolo(s: State, rep: Replica, slots: set<Slot>, key: Key, h: nat)
    requires Solo(s, rep, key, h) && (Count(s, key) > 0 || (key, h) !in slots)
    ensures Solo(s.(rows := s.rows - slots), rep, key, h)
  {
    var s' := s.(rows := s.rows - slots);
    assert Count(s', key) == Count(s, key);
    forall u | u in s'.tasks && s'.tasks[u].key == key ensures TaskSolo(s', rep, s'.tasks[u], h) {
      assert TaskSolo(s, rep, s.tasks[u], h);
    }
  }

  // -------------------------------------------------- steps on the stream

  lemma HandOutNumbers(s: State, rep: Replica, t: TaskId, no: nat, key: Key, h: nat)
    requires NumbersSolo(s, rep, key, h) && t in s.tasks && s.tasks[t].rep == rep && s.tasks[t].key == key
    requires no == h + Count(s, key) + 1
    ensures NumbersSolo(HandOut(s, t, no), rep, key, h)
    ensures Count(HandOut(s, t, no), key) == Count(s, key) + 1
  {
    var s' := HandOut(s, t, no);
    HandedNosGrows(s.handed, s'.handed[|s.handed|], key);
  }

  lemma HandOutTasks(s: State, rep: Replica, t: TaskId, no: nat, key: Key, h: nat)
    requires Solo(s, rep, key, h) && t in s.tasks && s.tasks[t].rep == rep && s.tasks[t].key == key && s.tasks[t].pc != Append
    requires no == h + Count(s, key) + 1 && Count(HandOut(s, t, no), key) == Count(s, key) + 1
    ensures TasksSolo(HandOut(s, t, no), rep, key, h)
  {
    var s' := HandOut(s, t, no);
    assert s'.rows == s.rows;
    forall u | u in s'.tasks && s'.tasks[u].key == key ensures TaskSolo(s', rep, s'.tasks[u], h) {
      assert TaskSolo(s, rep, s.tasks[u], h);
    }
    forall u | At(s', u, Append) && s'.tasks[u].key == key && s'.tasks[u].no == no
      ensures u == t
    {
      assert u != t ==> TaskSolo(s, rep, s.tasks[u], h);
    }
  }

  lemma HandOutKeepsSolo(s: State, rep: Replica, t: TaskId, no: nat, key: Key, h: nat)
    requires Solo(s, rep, key, h) && t in s.tasks && s.tasks[t].rep == rep && s.tasks[t].key == key && s.tasks[t].pc != Append
    requires no == h + Count(s, key) + 1
    ensures Solo(HandOut(s, t, no), rep, key, h)
  {
    HandOutNumbers(s, rep, t, no, key, h);
    HandOutTasks(s, rep, t, no, key, h);
  }

  lemma FastKeepsSolo(s: State, rep: Replica, t: TaskId, key: Key, h: nat)
    requires Solo(s, rep, key, h) && At(s, t, Fast) && s.tasks[t].key == key
    ensures Solo(Apply(s, TakeFast(t)), rep, key, h)
  {
    assert TaskSolo(s, rep, s.tasks[t], h);
    if Cached(s, t) {
      HandOutKeepsSolo(s, rep, t, CachedNext(s, t), key, h);
    } else {
      MoveKeepsSolo(s, Goto(s, t, ReadHigh), rep, t, key, h);
    }
  }

  lemma HighKeepsSolo(s: State, rep: Replica, t: TaskId, fault: bool, key: Key, h: nat)
    requires Solo(s, rep, key, h) && At(s, t, ReadHigh) && s.tasks[t].key == key
    requires fault ==> h == 0 || Count(s, key) > 0
    ensures Solo(Apply(s, TakeHigh(t, fault)), rep, key, h)
  {
    assert TaskSolo(s, rep, s.tasks[t], h);
    var top := TopSeq(s.rows, key);
    assert Count(s, key) == 0 ==> top == h;
    MoveKeepsSolo(s, Goto(s, t, Seed(if fault then 0 else top)), rep, t, key, h);
  }

  lemma SeedKeepsSolo(s: State, rep: Replica, t: TaskId, key: Key, h: nat)
    requires Solo(s, rep, key, h) && Enabled(s, TakeSeed(t)) && s.tasks[t].key == key
    ensures Solo(Apply(s, TakeSeed(t)), rep, key, h)
  {
    assert TaskSolo(s, rep, s.tasks[t], h);
    HandOutKeepsSolo(s, rep, t, if Cached(s, t) then CachedNext(s, t) else s.tasks[t].pc.seeded + 1, key, h);
  }

  /** A stream's own task never finds its seq taken. */
  lemma AppendKeepsSolo(s: State, rep: Replica, t: TaskId, fault: bool, key: Key, h: nat)
    requires Solo(s, rep, key, h) && At(s, t, Append) && s.tasks[t].key == key
    ensures (key, s.tasks[t].no) !in s.rows
    ensures Solo(AppendStep(s, t, fault), rep, key, h)
  {
    var s' := AppendStep(s, t, fault);
    assert TaskSolo(s, rep, s.tasks[t], h);
    if fault {
      MoveKeepsSolo(s, s', rep, t, key, h);
    } else {
      assert Count(s', key) == Count(s, key);
      forall u | u in s'.tasks && s'.tasks[u].key == key ensures TaskSolo(s', rep, s'.tasks[u], h) {
        assert TaskSolo(s, rep, s.tasks[u], h);
      }
    }
  }

  lemma AnnounceKeepsSolo(s: State, rep: Replica, t: TaskId, key: Key, h: nat)
    requires Solo(s, rep, key, h) && Enabled(s, Announce(t)) && s.tasks[t].key == key
    ensures Solo(AnnounceStep(s, t), rep, key, h)
  {
    assert TaskSolo(s, rep, s.tasks[t], h);
    MoveKeepsSolo(s, AnnounceStep(s, t), rep, t, key, h);
  }

  lemma StartKeepsSolo(s: State, rep: Replica, t: TaskId, key: Key, h: nat)
    requires Solo(s, rep, key, h) && Enabled(s, Start(t, rep, key))
    ensures Solo(Apply(s, Start(t, rep, key)), rep, key, h)
  {
    MoveKeepsSolo(s, Apply(s, Start(t, rep, key)), rep, t, key, h);
  }

  lemma SoloTask(s: State, rep: Replica, t: TaskId, key: Key, h: nat)
    requires Solo(s, rep, key, h) && t in s.tasks && s.tasks[t].key == key
    ensures s.tasks[t].rep == rep && s.tasks[t].conflicts == 0 && s.tasks[t].pc != Forget
  {
    assert TaskSolo(s, rep, s.tasks[t], h);
  }

  /** The stream's own steps; its counter is never dropped. */
  lemma OwnStepKeepsSolo(s: State, rep: Replica, op: Op, key: Key, h: nat)
    requires Solo(s, rep, key, h) && Enabled(s, op) && Concerns(s, op, key) && SoloStep(s, rep, key, h, op)
    ensures Solo(Apply(s, op), rep, key, h) && !op.DropCounter?
    ensures op.TryAppend? ==> (key, s.tasks[op.t].no) !in s.rows
  {
    if !op.Start? {
      SoloTask(s, rep, op.t, key, h);
    }
    match op
    case Start(t, _, _) => StartKeepsSolo(s, rep, t, key, h);
    case TakeFast(t) => FastKeepsSolo(s, rep, t, key, h);
    case TakeHigh(t, fault) => HighKeepsSolo(s, rep, t, fault, key, h);
    case TakeSeed(t) => SeedKeepsSolo(s, rep, t, key, h);
    case TryAppend(t, fault) => AppendKeepsSolo(s, rep, t, fault, key, h);
    case DropCounter(_) =>
    case Announce(t) => AnnounceKeepsSolo(s, rep, t, key, h);
  }

  lemma StepKeepsSolo(s: State, rep: Replica, op: Op, key: Key, h: nat)
    requires Solo(s, rep, key, h) && Enabled(s, op) && SoloStep(s, rep, key, h, op)
    ensures Solo(Apply(s, op), rep, key, h)
  {
    if op.Prune? {
      PruneKeepsSolo(s, rep, op.slots, key, h);
    } else if Concerns(s, op, key) {
      OwnStepKeepsSolo(s, rep, op, key, h);
    } else {
      ElsewhereKeepsSolo(s, rep, op, key, h);
    }
  }

  lemma {:induction false} SoloRunKeepsSolo(s: State, rep: Replica, key: Key, h: nat, ops: seq<Op>)
    requires Solo(s, rep, key, h) && Allowed(s, ops) && SoloRun(s, rep, key, h, ops)
    ensures Solo(Run(s, ops), rep, key, h)
    decreases |ops|
  {
    if ops != [] {
      StepKeepsSolo(s, rep, ops[0], key, h);
      SoloRunKeepsSolo(Apply(s, ops[0]), rep, key, h, ops[1..]);
    }
  }

  lemma FreshIsSolo(s: State, rep: Replica, key: Key)
    requires Fresh(s)
    ensures Solo(s, rep, key, TopSeq(s.rows, key))
  {
  }

  /** Sequence allocation: on a stream with one writer, whatever other replicas do on other
      streams, whatever tasks run and however they interleave between lock sections
      (slow-path tasks holding a stale high-water included), the seqs handed out for a
      stream that ended at `h` are h+1, h+2, .. in that order, each once, and the log never
      reports a conflict on it. */
  lemma ConsecutiveHandouts(s: State, rep: Replica, ops: seq<Op>, key: Key)
    requires Fresh(s) && Allowed(s, ops) && SoloRun(s, rep, key, TopSeq(s.rows, key), ops)
    ensures
      var e := Run(s, ops);
      && (forall i :: 0 <= i < Count(e, key) ==> HandedNos(e.handed, key)[i] == TopSeq(s.rows, key) + 1 + i)
      && forall t :: t in e.tasks && e.tasks[t].key == key ==> e.tasks[t].conflicts == 0
  {
    var h := TopSeq(s.rows, key);
    FreshIsSolo(s, rep, key);
    SoloRunKeepsSolo(s, rep, key, h, ops);
    var e := Run(s, ops);
    forall t | t in e.tasks && e.tasks[t].key == key ensures e.tasks[t].conflicts == 0 {
      SoloTask(e, rep, t, key, h);
    }
  }
}
