/** Scheduled fires across a cluster: every replica lists the automations, works out
    which ticks are due, and a compare-and-set on the stored fire time decides who acts. */
module Automations {
  import opened Common
  import opened Timestamps
  import opened UsageWindow
  import opened Schedule

  type Id = string
  type Replica = nat

  datatype Trigger = Cron(schedule: string) | Webhook

  /** One row of the automations table; the fire time is a column of its own. */
  datatype Row = Row(trigger: Trigger, enabled: bool, createdAt: string, lastFired: Option<string>)

  type Table = map<Id, Row>

  /** How cron texts and timestamps are read. */
  datatype Reader = Reader(ticks: Ticks, parse: string -> Option<int>)

  // ------------------------------------------------------- the statements

  /** `last_fired_at IS NULL OR last_fired_at < fire_at` */
  predicate Claimable(table: Table, id: Id, at: string) {
    id in table && (table[id].lastFired.None? || Before(table[id].lastFired.value, at))
  }

  function Claimed(table: Table, id: Id, at: string): Table {
    if Claimable(table, id, at) then table[id := table[id].(lastFired := Some(at))] else table
  }

  /** An upsert never moves the fire time of a row that is there. */
  function Upserted(table: Table, id: Id, row: Row): Table {
    table[id := row.(lastFired := if id in table then table[id].lastFired else None)]
  }

  /** The tick an automation owes: none when disabled, not on a schedule, or anchored
      at a timestamp that does not parse. */
  function Due(reader: Reader, row: Row, now: Instant): Option<Second> {
    if !row.enabled || row.trigger.Webhook? then None
    else
      match reader.parse(if row.lastFired.Some? then row.lastFired.value else row.createdAt)
      case None => None
      case Some(anchor) => DueFire(reader.ticks, row.trigger.schedule, anchor, now)
  }

  /** An automation owes tick `t`: it is enabled and on a schedule, its anchor (when it
      last fired, or else when it was created) parses, and `t` is the newest tick after
      the anchor and before now. */
  ghost predicate Owes(reader: Reader, row: Row, now: Instant, t: Second) {
    && row.enabled && row.trigger.Cron?
    && var anchor := reader.parse(if row.lastFired.Some? then row.lastFired.value else row.createdAt);
    && anchor.Some? && NewestTick(reader.ticks, row.trigger.schedule, anchor.value, now, t)
  }

  lemma DueIff(reader: Reader, row: Row, now: Instant, t: Second)
    ensures Due(reader, row, now) == Some(t) <==> Owes(reader, row, now, t)
  {
    if row.enabled && row.trigger.Cron? {
      var anchor := reader.parse(if row.lastFired.Some? then row.lastFired.value else row.createdAt);
      if anchor.Some? {
        DueFireIff(reader.ticks, row.trigger.schedule, anchor.value, now, t);
      }
    }
  }

  /** An edit replaces every column but the fire time, which stays, or is empty for an
      automation that was not there; nothing else in the table changes. */
  lemma UpsertedIs(table: Table, id: Id, row: Row, key: Id)
    ensures key in Upserted(table, id, row) <==> key in table || key == id
    ensures key != id && key in table ==> Upserted(table, id, row)[key] == table[key]
    ensures
      var after := Upserted(table, id, row)[id];
      && after.trigger == row.trigger && after.enabled == row.enabled && after.createdAt == row.createdAt
      && (id in table ==> after.lastFired == table[id].lastFired)
      && (id !in table ==> after.lastFired == None)
  {
  }

  // ---------------------------------------------------------- the machine

  datatype Win = Win(id: Id, tick: Second, at: string)

  /** A pass of one replica: the list it read, which may have gone stale, and the win
      it is acting on. */
  datatype Pass = Pass(now: Instant, listed: Table, acting: Option<nat>)

  /** `wins` lists every successful claim; `spawns` the wins acted on. */
  datatype Cluster = Cluster(table: Table, passes: map<Replica, Pass>, wins: seq<Win>, spawns: seq<nat>)

  datatype Op =
    | List(r: Replica, now: Instant)
    | Claim(r: Replica, id: Id)
    | Spawn(r: Replica)
    | Crash(r: Replica)
    | Edit(id: Id, row: Row)
    | Delete(id: Id)

  /** The tick `r` would claim for `id`, from the list it has. */
  function Attempt(reader: Reader, c: Cluster, r: Replica, id: Id): Option<Second> {
    if r in c.passes && c.passes[r].acting.None? && id in c.passes[r].listed
    then Due(reader, c.passes[r].listed[id], c.passes[r].now)
    else None
  }

  function ClaimStep(c: Cluster, r: Replica, win: Win): Cluster
    requires r in c.passes
  {
    if Claimable(c.table, win.id, win.at)
    then c.(table := Claimed(c.table, win.id, win.at), wins := c.wins + [win],
            passes := c.passes[r := c.passes[r].(acting := Some(|c.wins|))])
    else c
  }

  function SpawnStep(c: Cluster, r: Replica): Cluster {
    if r in c.passes && c.passes[r].acting.Some?
    then c.(spawns := c.spawns + [c.passes[r].acting.value], passes := c.passes[r := c.passes[r].(acting := None)])
    else c
  }

  function Apply(reader: Reader, c: Cluster, op: Op): Cluster {
    match op
    case List(r, now) => c.(passes := c.passes[r := Pass(now, c.table, None)])
    case Claim(r, id) =>
      (match Attempt(reader, c, r, id)
       case Some(t) => ClaimStep(c, r, Win(id, t, Spell(t)))
       case None => c)
    case Spawn(r) => SpawnStep(c, r)
    case Crash(r) => c.(passes := c.passes - {r})
    case Edit(id, row) => c.(table := Upserted(c.table, id, row))
    case Delete(id) => c.(table := c.table - {id})
  }

  function Run(reader: Reader, c: Cluster, ops: seq<Op>): Cluster {
    if ops == [] then c else Apply(reader, Run(reader, c, ops[..|ops| - 1]), ops[|ops| - 1])
  }

  ghost predicate Fresh(c: Cluster) {
    c.passes == map[] && c.wins == [] && c.spawns == []
  }

  // ------------------------------------------------- what every step keeps

  /** The stored fire time of `id` is at least `at`. */
  ghost predicate Reached(table: Table, id: Id, at: string) {
    id in table && table[id].lastFired.Some? && !Before(table[id].lastFired.value, at)
  }

  /** Every win of `id` is reached by the row, as long as there is one, and the winning
      fire times go up. */
  ghost predicate Rising(c: Cluster, id: Id) {
    && (forall i :: 0 <= i < |c.wins| && c.wins[i].id == id && id in c.table ==> Reached(c.table, id, c.wins[i].at))
    && (forall i, j :: 0 <= i < j < |c.wins| && c.wins[i].id == id && c.wins[j].id == id ==> Before(c.wins[i].at, c.wins[j].at))
  }

  ghost predicate Spelled(c: Cluster) {
    forall i :: 0 <= i < |c.wins| ==> c.wins[i].at == Spell(c.wins[i].tick)
  }

  /** Each win is acted on by one replica, once. */
  ghost predicate OneActor(c: Cluster) {
    && (forall r :: r in c.passes && c.passes[r].acting.Some? ==> c.passes[r].acting.value < |c.wins| && c.passes[r].acting.value !in c.spawns)
    && (forall r, q :: r in c.passes && q in c.passes && r != q && c.passes[r].acting.Some? ==> c.passes[r].acting != c.passes[q].acting)
    && (forall i :: 0 <= i < |c.spawns| ==> c.spawns[i] < |c.wins|)
    && (forall i, j :: 0 <= i < j < |c.spawns| ==> c.spawns[i] != c.spawns[j])
  }

  /** The fire time never goes back except by a delete: a claim that loses shows that
      the time was reached, one that wins reaches it. */
  lemma ClaimReaches(table: Table, id: Id, at: string)
    requires id in table
    ensures Reached(Claimed(table, id, at), id, at)
  {
    BeforeIrreflexive(at);
  }

  lemma ClaimKeepsReached(table: Table, id: Id, at: string, key: Id, old_: string)
    requires Reached(table, key, old_)
    ensures Reached(Claimed(table, id, at), key, old_)
  {
    if id == key && Claimable(table, id, at) {
      var last := table[id].lastFired.value;
      if Before(at, old_) {
        BeforeTransitive(last, at, old_);
      }
    }
  }

  lemma StepKeepsReached(reader: Reader, c: Cluster, op: Op, id: Id, at: string)
    requires Reached(c.table, id, at) && op != Delete(id)
    ensures Reached(Apply(reader, c, op).table, id, at)
  {
    match op
    case Claim(r, key) =>
      match Attempt(reader, c, r, key) {
        case Some(t) => ClaimKeepsReached(c.table, key, Spell(t), id, at);
        case None =>
      }
    case _ =>
  }

  /** A winning fire time is after every earlier one. */
  lemma WinIsLater(table: Table, id: Id, at: string, earlier: string)
    requires Reached(table, id, earlier) && Claimable(table, id, at)
    ensures Before(earlier, at)
  {
    var last := table[id].lastFired.value;
    BeforeTotal(last, earlier);
    if last != earlier {
      BeforeTransitive(earlier, last, at);
    }
  }

  lemma ClaimKeepsRising(c: Cluster, r: Replica, win: Win, id: Id)
    requires Rising(c, id) && r in c.passes
    ensures Rising(ClaimStep(c, r, win), id)
  {
    if Claimable(c.table, win.id, win.at) {
      ClaimReaches(c.table, win.id, win.at);
      forall i | 0 <= i < |c.wins| && c.wins[i].id == id && id in c.table
        ensures Reached(ClaimStep(c, r, win).table, id, c.wins[i].at)
        ensures win.id == id ==> Before(c.wins[i].at, win.at)
      {
        ClaimKeepsReached(c.table, win.id, win.at, id, c.wins[i].at);
        if win.id == id {
          WinIsLater(c.table, id, win.at, c.wins[i].at);
        }
      }
    }
  }

  predicate HasWon(c: Cluster, id: Id) {
    exists i :: 0 <= i < |c.wins| && c.wins[i].id == id
  }

  /** An upsert does not create anew an id that has won a tick under that name. */
  predicate Guard(c: Cluster, op: Op) {
    op.Edit? && op.id !in c.table ==> !HasWon(c, op.id)
  }

  lemma StepKeepsRising(reader: Reader, c: Cluster, op: Op, id: Id)
    requires Rising(c, id) && (op.Edit? && op.id == id ==> Guard(c, op))
    ensures Rising(Apply(reader, c, op), id)
  {
    match op
    case Claim(r, key) =>
      match Attempt(reader, c, r, key) {
        case Some(t) => ClaimKeepsRising(c, r, Win(key, t, Spell(t)), id);
        case None =>
      }
    case _ =>
  }

  lemma ClaimKeepsOneActor(c: Cluster, r: Replica, win: Win)
    requires OneActor(c) && r in c.passes
    ensures OneActor(ClaimStep(c, r, win))
  {
  }

  lemma SpawnKeepsOneActor(c: Cluster, r: Replica)
    requires OneActor(c)
    ensures OneActor(SpawnStep(c, r))
  {
  }

  lemma PassKeepsOneActor(c: Cluster, r: Replica, pass: Pass)
    requires OneActor(c) && pass.acting.None?
    ensures OneActor(c.(passes := c.passes[r := pass])) && OneActor(c.(passes := c.passes - {r}))
  {
  }

  lemma StepKeepsOneActor(reader: Reader, c: Cluster, op: Op)
    requires OneActor(c)
    ensures OneActor(Apply(reader, c, op))
  {
    match op
    case List(r, now) => PassKeepsOneActor(c, r, Pass(now, c.table, None));
    case Claim(r, id) =>
      match Attempt(reader, c, r, id) {
        case Some(t) => ClaimKeepsOneActor(c, r, Win(id, t, Spell(t)));
        case None =>
      }
    case Spawn(r) => SpawnKeepsOneActor(c, r);
    case Crash(r) => PassKeepsOneActor(c, r, Pass(0, map[], None));
    case Edit(id, row) =>
    case Delete(id) =>
  }

  lemma StepKeepsSpelled(reader: Reader, c: Cluster, op: Op)
    requires Spelled(c)
    ensures Spelled(Apply(reader, c, op))
  {
  }

  lemma {:induction false} RunKeepsOneActor(reader: Reader, c: Cluster, ops: seq<Op>)
    requires Fresh(c)
    ensures OneActor(Run(reader, c, ops)) && Spelled(Run(reader, c, ops))
  {
    if ops != [] {
      RunKeepsOneActor(reader, c, ops[..|ops| - 1]);
      StepKeepsOneActor(reader, Run(reader, c, ops[..|ops| - 1]), ops[|ops| - 1]);
      StepKeepsSpelled(reader, Run(reader, c, ops[..|ops| - 1]), ops[|ops| - 1]);
    }
  }

  /** No step of a run creates `id` anew after it has won. */
  ghost predicate NotRecreated(reader: Reader, c: Cluster, ops: seq<Op>, id: Id) {
    if ops == [] then true
    else
      var op := ops[|ops| - 1];
      && NotRecreated(reader, c, ops[..|ops| - 1], id)
      && (op.Edit? && op.id == id ==> Guard(Run(reader, c, ops[..|ops| - 1]), op))
  }

  lemma {:induction false} RunKeepsRising(reader: Reader, c: Cluster, ops: seq<Op>, id: Id)
    requires Rising(c, id) && NotRecreated(reader, c, ops, id)
    ensures Rising(Run(reader, c, ops), id)
  {
    if ops != [] {
      RunKeepsRising(reader, c, ops[..|ops| - 1], id);
      StepKeepsRising(reader, Run(reader, c, ops[..|ops| - 1]), ops[|ops| - 1], id);
    }
  }

  // ------------------------------------------------------------- the results

  /** No tick of `id` was won twice, and the winning ticks go up. */
  ghost predicate TicksRise(c: Cluster, id: Id) {
    forall i, j :: 0 <= i < j < |c.wins| && c.wins[i].id == id && c.wins[j].id == id ==> c.wins[i].tick < c.wins[j].tick
  }

  /** No tick of `id` was acted on twice. */
  ghost predicate SpawnsOnce(c: Cluster, id: Id) {
    && (forall i :: 0 <= i < |c.spawns| ==> c.spawns[i] < |c.wins|)
    && forall i, j :: 0 <= i < j < |c.spawns| && c.wins[c.spawns[i]].id == id && c.wins[c.spawns[j]].id == id
         ==> c.wins[c.spawns[i]].tick != c.wins[c.spawns[j]].tick
  }

  lemma RisingTicks(c: Cluster, id: Id)
    requires Rising(c, id) && Spelled(c)
    ensures TicksRise(c, id)
  {
    forall i, j | 0 <= i < j < |c.wins| && c.wins[i].id == id && c.wins[j].id == id
      ensures c.wins[i].tick < c.wins[j].tick
    {
      SpellOrder(c.wins[i].tick, c.wins[j].tick);
    }
  }

  lemma RisingSpawns(c: Cluster, id: Id)
    requires TicksRise(c, id) && OneActor(c)
    ensures SpawnsOnce(c, id)
  {
  }

  /** Scheduled fires.  Whatever the interleaving of any number of replicas' lists,
      claims, spawns and crashes with edits and deletes of the automations, an id that
      is not created anew after it has won has strictly rising winning ticks, each acted
      on at most once. */
  lemma FiresOnce(reader: Reader, c: Cluster, ops: seq<Op>, id: Id)
    requires Fresh(c) && NotRecreated(reader, c, ops, id)
    ensures TicksRise(Run(reader, c, ops), id) && SpawnsOnce(Run(reader, c, ops), id)
  {
    RunKeepsOneActor(reader, c, ops);
    RunKeepsRising(reader, c, ops, id);
    RisingTicks(Run(reader, c, ops), id);
    RisingSpawns(Run(reader, c, ops), id);
  }

  /** The list that a pass goes by is the table as it was at one of the replica's own
      `List` steps. */
  ghost predicate ReadAt(reader: Reader, c: Cluster, ops: seq<Op>, r: Replica, pass: Pass, n: nat) {
    n < |ops| && ops[n] == List(r, pass.now) && pass.listed == Run(reader, c, ops[..n]).table
  }

  ghost predicate WasRead(reader: Reader, c: Cluster, ops: seq<Op>, r: Replica, pass: Pass) {
    exists n :: ReadAt(reader, c, ops, r, pass, n)
  }

  lemma ReadStays(reader: Reader, c: Cluster, ops: seq<Op>, more: Op, r: Replica, pass: Pass)
    requires WasRead(reader, c, ops, r, pass)
    ensures WasRead(reader, c, ops + [more], r, pass)
  {
    var n: nat :| ReadAt(reader, c, ops, r, pass, n);
    assert (ops + [more])[..n] == ops[..n];
    assert ReadAt(reader, c, ops + [more], r, pass, n);
  }

  lemma ReadAnyActing(reader: Reader, c: Cluster, ops: seq<Op>, r: Replica, pass: Pass, acting: Option<nat>)
    requires WasRead(reader, c, ops, r, pass)
    ensures WasRead(reader, c, ops, r, pass.(acting := acting))
  {
    var n: nat :| ReadAt(reader, c, ops, r, pass, n);
    assert ReadAt(reader, c, ops, r, pass.(acting := acting), n);
  }

  lemma {:induction false} PassWasRead(reader: Reader, c: Cluster, ops: seq<Op>, r: Replica)
    requires c.passes == map[] && r in Run(reader, c, ops).passes
    ensures WasRead(reader, c, ops, r, Run(reader, c, ops).passes[r])
  {
    if ops != [] {
      var init, op := ops[..|ops| - 1], ops[|ops| - 1];
      var before, after := Run(reader, c, init), Run(reader, c, ops);
      assert ops == init + [op];
      if op.List? && op.r == r {
        assert ReadAt(reader, c, ops, r, after.passes[r], |init|);
      } else {
        PassWasRead(reader, c, init, r);
        ReadStays(reader, c, init, op, r, before.passes[r]);
        ReadAnyActing(reader, c, ops, r, before.passes[r], after.passes[r].acting);
      }
    }
  }

  /** When statement `n` listed the table, `win`'s automation was there and owed its tick. */
  ghost predicate OwedAt(reader: Reader, c: Cluster, ops: seq<Op>, win: Win, n: nat) {
    && n < |ops| && ops[n].List?
    && var table := Run(reader, c, ops[..n]).table;
    && win.id in table && Owes(reader, table[win.id], ops[n].now, win.tick)
  }

  lemma NewWinWasOwed(reader: Reader, c: Cluster, ops: seq<Op>, r: Replica, id: Id, t: Second) returns (n: nat)
    requires c.passes == map[] && Attempt(reader, Run(reader, c, ops), r, id) == Some(t)
    ensures OwedAt(reader, c, ops, Win(id, t, Spell(t)), n)
  {
    PassWasRead(reader, c, ops, r);
    var pass := Run(reader, c, ops).passes[r];
    n :| ReadAt(reader, c, ops, r, pass, n);
    DueIff(reader, pass.listed[id], pass.now, t);
  }

  lemma OwedStays(reader: Reader, c: Cluster, ops: seq<Op>, op: Op, win: Win, n: nat)
    requires OwedAt(reader, c, ops, win, n)
    ensures OwedAt(reader, c, ops + [op], win, n)
  {
    assert (ops + [op])[..n] == ops[..n];
  }

  /** Nothing fires that nobody listed as owing it: each win goes back to some replica's
      reading of the table, in which the automation was enabled and on a schedule, with
      an anchor that parses and this very tick the newest one due. */
  lemma {:induction false} WinsWereOwed(reader: Reader, c: Cluster, ops: seq<Op>, i: nat) returns (n: nat)
    requires Fresh(c) && i < |Run(reader, c, ops).wins|
    ensures OwedAt(reader, c, ops, Run(reader, c, ops).wins[i], n)
  {
    var init, op := ops[..|ops| - 1], ops[|ops| - 1];
    var before := Run(reader, c, init);
    var win := Run(reader, c, ops).wins[i];
    if i < |before.wins| {
      n := WinsWereOwed(reader, c, init, i);
    } else {
      n := NewWinWasOwed(reader, c, init, op.r, op.id, Attempt(reader, before, op.r, op.id).value);
    }
    OwedStays(reader, c, init, op, win, n);
    assert init + [op] == ops;
  }

  lemma {:induction false} RunKeepsReached(reader: Reader, c: Cluster, ops: seq<Op>, id: Id, at: string)
    requires Reached(c.table, id, at) && Delete(id) !in ops
    ensures Reached(Run(reader, c, ops).table, id, at)
  {
    if ops != [] {
      RunKeepsReached(reader, c, ops[..|ops| - 1], id, at);
      StepKeepsReached(reader, Run(reader, c, ops[..|ops| - 1]), ops[|ops| - 1], id, at);
    }
  }

  /** Nothing due is skipped.  Once a replica has tried to claim the tick its list said
      was due, won or lost, the stored fire time is at least that tick, and stays so. */
  lemma PassReaches(reader: Reader, c: Cluster, r: Replica, id: Id, ops: seq<Op>, t: Second)
    requires id in c.table && Attempt(reader, c, r, id) == Some(t) && Delete(id) !in ops
    ensures Reached(Run(reader, Apply(reader, c, Claim(r, id)), ops).table, id, Spell(t))
  {
    ClaimReaches(c.table, id, Spell(t));
    RunKeepsReached(reader, Apply(reader, c, Claim(r, id)), ops, id, Spell(t));
  }

  predicate ByOthers(op: Op, r: Replica) {
    match op
    case List(q, _) => q != r
    case Claim(q, _) => q != r
    case Spawn(q) => q != r
    case Crash(q) => q != r
    case _ => true
  }

  lemma {:induction false} OthersLeavePass(reader: Reader, c: Cluster, r: Replica, ops: seq<Op>)
    requires r in c.passes && forall i :: 0 <= i < |ops| ==> ByOthers(ops[i], r)
    ensures var d := Run(reader, c, ops); r in d.passes && d.passes[r] == c.passes[r] && c.wins <= d.wins
  {
    if ops != [] {
      OthersLeavePass(reader, c, r, ops[..|ops| - 1]);
    }
  }

  /** A claim that wins is acted on: whatever everyone else does meanwhile, the winner's
      next step, if it does not crash, spawns for that very win. */
  lemma WinnerActs(reader: Reader, c: Cluster, r: Replica, id: Id, t: Second, ops: seq<Op>)
    requires Attempt(reader, c, r, id) == Some(t) && Claimable(c.table, id, Spell(t))
    requires forall i :: 0 <= i < |ops| ==> ByOthers(ops[i], r)
    ensures
      var d := Run(reader, Apply(reader, c, Claim(r, id)), ops);
      && |c.wins| < |d.wins| && d.wins[|c.wins|] == Win(id, t, Spell(t))
      && Apply(reader, d, Spawn(r)).spawns == d.spawns + [|c.wins|]
  {
    OthersLeavePass(reader, Apply(reader, c, Claim(r, id)), r, ops);
  }

  /** The automation is not there, and no win from `n` on is its. */
  ghost predicate Silent(c: Cluster, id: Id, n: nat) {
    && id !in c.table && n <= |c.wins|
    && forall i :: n <= i < |c.wins| ==> c.wins[i].id != id
  }

  lemma StepKeepsSilent(reader: Reader, c: Cluster, op: Op, id: Id, n: nat)
    requires Silent(c, id, n) && !(op.Edit? && op.id == id)
    ensures Silent(Apply(reader, c, op), id, n)
  {
  }

  lemma {:induction false} RunKeepsSilent(reader: Reader, c: Cluster, ops: seq<Op>, id: Id, n: nat)
    requires Silent(c, id, n) && forall k :: 0 <= k < |ops| ==> !(ops[k].Edit? && ops[k].id == id)
    ensures Silent(Run(reader, c, ops), id, n)
  {
    if ops != [] {
      RunKeepsSilent(reader, c, ops[..|ops| - 1], id, n);
      StepKeepsSilent(reader, Run(reader, c, ops[..|ops| - 1]), ops[|ops| - 1], id, n);
    }
  }

  /** A deleted automation wins nothing, not even for a replica that listed it before,
      until it is created anew. */
  lemma DeletedIsSilent(reader: Reader, c: Cluster, id: Id, ops: seq<Op>)
    requires forall k :: 0 <= k < |ops| ==> !(ops[k].Edit? && ops[k].id == id)
    ensures Silent(Run(reader, Apply(reader, c, Delete(id)), ops), id, |c.wins|)
  {
    var deleted := Apply(reader, c, Delete(id));
    assert deleted.wins == c.wins && id !in deleted.table;
    RunKeepsSilent(reader, deleted, ops, id, |c.wins|);
  }

  /** Win `i` is nobody's to act on any more. */
  ghost predicate Orphaned(c: Cluster, i: nat) {
    && i < |c.wins| && i !in c.spawns
    && forall r :: r in c.passes ==> c.passes[r].acting != Some(i)
  }

  lemma {:induction false} OrphanStays(reader: Reader, c: Cluster, ops: seq<Op>, i: nat)
    requires Orphaned(c, i)
    ensures Orphaned(Run(reader, c, ops), i)
  {
    if ops != [] {
      OrphanStays(reader, c, ops[..|ops| - 1], i);
    }
  }

  /** A claim stands whatever becomes of it: the tick of a replica that crashes between its
      claim and its spawn is acted on by nobody, however the run goes on. */
  lemma CrashLosesTheWin(reader: Reader, c: Cluster, r: Replica, i: nat, ops: seq<Op>)
    requires OneActor(c) && r in c.passes && c.passes[r].acting == Some(i)
    ensures i !in Run(reader, Apply(reader, c, Crash(r)), ops).spawns
  {
    var crashed := Apply(reader, c, Crash(r));
    forall q | q in crashed.passes
      ensures crashed.passes[q].acting != Some(i)
    {
      assert q in c.passes && q != r;
    }
    OrphanStays(reader, crashed, ops, i);
  }

  lemma {:induction false} PassStays(reader: Reader, c: Cluster, r: Replica, id: Id, ops: seq<Op>)
    requires r in c.passes && id in c.table
    requires forall i :: 0 <= i < |ops| ==> ByOthers(ops[i], r) && ops[i] != Delete(id)
    ensures var d := Run(reader, c, ops); r in d.passes && d.passes[r] == c.passes[r] && id in d.table
  {
    if ops != [] {
      PassStays(reader, c, r, id, ops[..|ops| - 1]);
    }
  }

  lemma SpelledReached(table: Table, id: Id, t: Second, u: Second)
    requires Reached(table, id, Spell(t)) && u <= t
    ensures Reached(table, id, Spell(u))
  {
    SpellOrder(u, t);
    if u < t && Before(table[id].lastFired.value, Spell(u)) {
      BeforeTransitive(table[id].lastFired.value, Spell(u), Spell(t));
    }
  }

  /** The tick that is due is at or after every tick between the anchor and now. */
  lemma DueCovers(reader: Reader, row: Row, now: Instant, anchor: int, u: Second)
    requires row.enabled && row.trigger.Cron?
    requires reader.parse(if row.lastFired.Some? then row.lastFired.value else row.createdAt) == Some(anchor)
    requires reader.ticks(row.trigger.schedule, u) && anchor < u && u * 1_000_000_000 < now
    ensures Due(reader, row, now).Some? && Due(reader, row, now).value >= u
  {
    DueIsNewestTick(reader.ticks, row.trigger.schedule, anchor, now, u);
    match DueFire(reader.ticks, row.trigger.schedule, anchor, now)
    case Some(t) => DueIsNewestTick(reader.ticks, row.trigger.schedule, anchor, now, t);
    case None =>
  }

  /** A pass of an enabled automation covers every tick between the anchor its list
      showed and its `now`, whatever the other replicas do between the list and the
      claim (`between`) and everyone does after it (`after`). */
  lemma PassCovers(reader: Reader, c: Cluster, r: Replica, now: Instant, id: Id, between: seq<Op>, after: seq<Op>, anchor: int, u: Second)
    requires id in c.table && c.table[id].enabled && c.table[id].trigger.Cron?
    requires reader.parse(if c.table[id].lastFired.Some? then c.table[id].lastFired.value else c.table[id].createdAt) == Some(anchor)
    requires reader.ticks(c.table[id].trigger.schedule, u) && anchor < u && u * 1_000_000_000 < now
    requires forall i :: 0 <= i < |between| ==> ByOthers(between[i], r) && between[i] != Delete(id)
    requires Delete(id) !in after
    ensures var listed := Run(reader, Apply(reader, c, List(r, now)), between);
      Reached(Run(reader, Apply(reader, listed, Claim(r, id)), after).table, id, Spell(u))
  {
    var c1 := Apply(reader, c, List(r, now));
    var listed := Run(reader, c1, between);
    PassStays(reader, c1, r, id, between);
    DueCovers(reader, c.table[id], now, anchor, u);
    var t := Due(reader, c.table[id], now).value;
    PassReaches(reader, listed, r, id, after, t);
    SpelledReached(Run(reader, Apply(reader, listed, Claim(r, id)), after).table, id, t, u);
  }

  // ------------------------------------------------ what deleting has to do with it

  /** A win leaves its row in the table until a delete. */
  lemma WonIsThere(reader: Reader, c: Cluster, op: Op, id: Id)
    requires (HasWon(c, id) ==> id in c.table) && op != Delete(id)
    ensures HasWon(Apply(reader, c, op), id) ==> id in Apply(reader, c, op).table
  {
    match op
    case Claim(r, key) =>
      match Attempt(reader, c, r, key) {
        case Some(t) => assert forall i :: 0 <= i < |c.wins| ==> ClaimStep(c, r, Win(key, t, Spell(t))).wins[i] == c.wins[i];
        case None =>
      }
    case _ =>
  }

  lemma {:induction false} UndeletedIsNotRecreated(reader: Reader, c: Cluster, ops: seq<Op>, id: Id)
    requires Fresh(c) && Delete(id) !in ops
    ensures NotRecreated(reader, c, ops, id)
    ensures HasWon(Run(reader, c, ops), id) ==> id in Run(reader, c, ops).table
  {
    if ops != [] {
      UndeletedIsNotRecreated(reader, c, ops[..|ops| - 1], id);
      WonIsThere(reader, Run(reader, c, ops[..|ops| - 1]), ops[|ops| - 1], id);
    }
  }

  /** A caller can check it beforehand: an automation that is never deleted has strictly
      rising winning ticks, each acted on at most once, whoever edits it and whatever
      becomes of the others. */
  lemma UndeletedFiresOnce(reader: Reader, c: Cluster, ops: seq<Op>, id: Id)
    requires Fresh(c) && Delete(id) !in ops
    ensures TicksRise(Run(reader, c, ops), id) && SpawnsOnce(Run(reader, c, ops), id)
  {
    UndeletedIsNotRecreated(reader, c, ops, id);
    FiresOnce(reader, c, ops, id);
  }

  // --------------------------------------------- what creating anew undoes

  /** Every win was due, from some row read at some time. */
  ghost predicate WasDue(reader: Reader, win: Win) {
    exists row, now :: Owes(reader, row, now, win.tick) && win.at == Spell(win.tick)
  }

  ghost predicate AllDue(reader: Reader, c: Cluster) {
    forall i :: 0 <= i < |c.wins| ==> WasDue(reader, c.wins[i])
  }

  ghost predicate Inv(reader: Reader, c: Cluster) {
    (forall id :: Rising(c, id)) && Spelled(c) && AllDue(reader, c)
  }

  lemma StepKeepsDue(reader: Reader, c: Cluster, op: Op)
    requires AllDue(reader, c)
    ensures AllDue(reader, Apply(reader, c, op))
  {
    if op.Claim? && Attempt(reader, c, op.r, op.id).Some? {
      var t := Attempt(reader, c, op.r, op.id).value;
      var pass := c.passes[op.r];
      DueIff(reader, pass.listed[op.id], pass.now, t);
      assert Owes(reader, pass.listed[op.id], pass.now, t);
      assert WasDue(reader, Win(op.id, t, Spell(t)));
    }
  }

  lemma StepKeepsInv(reader: Reader, c: Cluster, op: Op)
    requires Inv(reader, c) && Guard(c, op)
    ensures Inv(reader, Apply(reader, c, op))
  {
    StepKeepsDue(reader, c, op);
    StepKeepsSpelled(reader, c, op);
    forall id ensures Rising(Apply(reader, c, op), id) {
      StepKeepsRising(reader, c, op, id);
    }
  }

  ghost predicate Guarded(reader: Reader, c: Cluster, ops: seq<Op>) {
    forall id :: NotRecreated(reader, c, ops, id)
  }

  /** However the run goes on, if nothing is created anew, no tick is won twice. */
  ghost predicate StaysRising(reader: Reader, c: Cluster) {
    forall more, id :: Guarded(reader, c, more) ==> TicksRise(Run(reader, c, more), id)
  }

  lemma {:induction false} RunKeepsSpelled(reader: Reader, c: Cluster, ops: seq<Op>)
    requires Spelled(c)
    ensures Spelled(Run(reader, c, ops))
  {
    if ops != [] {
      RunKeepsSpelled(reader, c, ops[..|ops| - 1]);
      StepKeepsSpelled(reader, Run(reader, c, ops[..|ops| - 1]), ops[|ops| - 1]);
    }
  }

  lemma InvStaysRising(reader: Reader, c: Cluster)
    requires Inv(reader, c)
    ensures StaysRising(reader, c)
  {
    forall more, id | Guarded(reader, c, more)
      ensures TicksRise(Run(reader, c, more), id)
    {
      RunKeepsRising(reader, c, more, id);
      RunKeepsSpelled(reader, c, more);
      RisingTicks(Run(reader, c, more), id);
    }
  }

  lemma RunOneMore(reader: Reader, c: Cluster, ops: seq<Op>, op: Op)
    ensures Run(reader, c, ops + [op]) == Apply(reader, Run(reader, c, ops), op)
    ensures forall id :: NotRecreated(reader, c, ops + [op], id) <==>
      NotRecreated(reader, c, ops, id) && (op.Edit? && op.id == id ==> Guard(Run(reader, c, ops), op))
  {
    assert (ops + [op])[..|ops|] == ops;
  }

  /** The row as it was read, its anchor now in the creation time. */
  function Refreshed(row: Row): Row {
    row.(createdAt := if row.lastFired.Some? then row.lastFired.value else row.createdAt, lastFired := None)
  }

  /** The three steps that win a tick again once the fire time is forgotten: save the
      automation as it was, list, claim. */
  function WinAgain(id: Id, row: Row, now: Instant): seq<Op> {
    [Edit(id, Refreshed(row))] + [List(0, now)] + [Claim(0, id)]
  }

  lemma ThreeSteps(reader: Reader, c: Cluster, a: Op, b: Op, d: Op)
    requires Guard(c, a) && !b.Edit? && !d.Edit?
    ensures Guarded(reader, c, [a] + [b] + [d])
    ensures Run(reader, c, [a] + [b] + [d]) == Apply(reader, Apply(reader, Apply(reader, c, a), b), d)
  {
    RunOneMore(reader, c, [], a);
    assert [] + [a] == [a];
    RunOneMore(reader, c, [a], b);
    RunOneMore(reader, c, [a] + [b], d);
  }

  lemma WinsAgain(reader: Reader, c: Cluster, id: Id, row: Row, now: Instant, t: Second)
    requires id in c.table && c.table[id].lastFired.None? && Due(reader, row, now) == Some(t)
    ensures Guarded(reader, c, WinAgain(id, row, now))
    ensures Run(reader, c, WinAgain(id, row, now)).wins == c.wins + [Win(id, t, Spell(t))]
  {
    ThreeSteps(reader, c, Edit(id, Refreshed(row)), List(0, now), Claim(0, id));
    ClaimsAgain(reader, Apply(reader, c, Edit(id, Refreshed(row))), id, row, now, t);
  }

  lemma ClaimsAgain(reader: Reader, c: Cluster, id: Id, row: Row, now: Instant, t: Second)
    requires id in c.table && c.table[id] == Refreshed(row) && Due(reader, row, now) == Some(t)
    ensures Apply(reader, Apply(reader, c, List(0, now)), Claim(0, id)).wins == c.wins + [Win(id, t, Spell(t))]
  {
    var listed := Apply(reader, c, List(0, now));
    assert Due(reader, Refreshed(row), now) == Some(t);
    assert Attempt(reader, listed, 0, id) == Some(t);
  }

  lemma TwiceWon(c: Cluster, d: Cluster, i: nat)
    requires i < |c.wins| && d.wins == c.wins + [c.wins[i]]
    ensures !TicksRise(d, c.wins[i].id)
  {
    assert d.wins[i] == c.wins[i] && d.wins[|c.wins|] == c.wins[i];
  }

  lemma WinsOnceMore(reader: Reader, d: Cluster, win: Win, i: nat) returns (more: seq<Op>)
    requires WasDue(reader, win) && i < |d.wins| && d.wins[i] == win
    requires win.id in d.table && d.table[win.id].lastFired.None?
    ensures Guarded(reader, d, more) && !TicksRise(Run(reader, d, more), win.id)
  {
    var was, now :| Owes(reader, was, now, win.tick) && win.at == Spell(win.tick);
    DueIff(reader, was, now, win.tick);
    WinsAgain(reader, d, win.id, was, now, win.tick);
    more := WinAgain(win.id, was, now);
    assert Win(win.id, win.tick, win.at) == win;
    TwiceWon(d, Run(reader, d, more), i);
  }

  /** An upsert of an id that is not there forgets when it fired. */
  lemma CreatedAnew(reader: Reader, c: Cluster, id: Id, row: Row)
    requires id !in c.table
    ensures
      var d := Apply(reader, c, Edit(id, row));
      d.wins == c.wins && id in d.table && d.table[id].lastFired.None?
  {
  }

  /** Creating an id anew after it has won always allows a tick to be won twice. */
  lemma RecreatedFiresTwice(reader: Reader, c: Cluster, id: Id, row: Row, i: nat) returns (more: seq<Op>)
    requires id !in c.table && i < |c.wins| && c.wins[i].id == id && WasDue(reader, c.wins[i])
    ensures
      var d := Apply(reader, c, Edit(id, row));
      Guarded(reader, d, more) && !TicksRise(Run(reader, d, more), id)
  {
    CreatedAnew(reader, c, id, row);
    more := WinsOnceMore(reader, Apply(reader, c, Edit(id, row)), c.wins[i], i);
  }

  /** The exact condition, step by step: after a step no tick can be won twice, however
      the run goes on, if and only if the step does not create anew an id that has won. */
  lemma StaysRisingIff(reader: Reader, c: Cluster, op: Op)
    requires Inv(reader, c)
    ensures StaysRising(reader, Apply(reader, c, op)) <==> Guard(c, op)
  {
    if Guard(c, op) {
      StepKeepsInv(reader, c, op);
      InvStaysRising(reader, Apply(reader, c, op));
    } else {
      var i :| 0 <= i < |c.wins| && c.wins[i].id == op.id;
      var more := RecreatedFiresTwice(reader, c, op.id, op.row, i);
    }
  }

  /** That covers every point of every run in which nothing was created anew so far. */
  lemma {:induction false} GuardedRunHolds(reader: Reader, c: Cluster, ops: seq<Op>)
    requires Fresh(c) && Guarded(reader, c, ops)
    ensures Inv(reader, Run(reader, c, ops))
  {
    if ops != [] {
      var init := ops[..|ops| - 1];
      forall id ensures NotRecreated(reader, c, init, id) {
        assert NotRecreated(reader, c, ops, id);
      }
      GuardedRunHolds(reader, c, init);
      var op := ops[|ops| - 1];
      if op.Edit? {
        assert NotRecreated(reader, c, ops, op.id);
      }
      StepKeepsInv(reader, Run(reader, c, init), op);
    }
  }
}
