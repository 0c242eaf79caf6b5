/** Deadlines over time and across replicas: each replica caches what it set or read
    back, and the log is what they share. */
module DeadlineRuns {
  import opened Common
  import opened EventLog
  import opened Deadlines

  type Replica = nat

  /** Every running replica's cache, and every agent's stream. */
  datatype State = State(caches: map<Replica, map<Id, string>>, logs: Histories)

  /** `Prune` leaves `left` of a stream; `persisted` says whether a spawn's deadline got
      into the log. */
  datatype Op =
    | Spawn(r: Replica, id: Id, deadline: Option<string>, persisted: bool)
    | Note(id: Id, kind: EventKind)
    | Pass(r: Replica, agents: seq<Agent>, now: int, unread: set<Id>, killed: set<Id>)
    | Restart(r: Replica)
    | Prune(id: Id, left: seq<EventKind>)

  /** Ids are fresh, only a spawn sets a deadline, and a prune only takes away. */
  ghost predicate Enabled(s: State, op: Op) {
    match op
    case Spawn(r, id, _, _) => r in s.caches && id !in s.logs && forall q :: q in s.caches ==> id !in s.caches[q]
    case Note(_, kind) => !kind.DeadlineSet?
    case Pass(r, _, _, _, _) => r in s.caches
    case Restart(_) => true
    case Prune(id, left) => forall i :: 0 <= i < |left| ==> left[i] in HistoryOf(s.logs, id)
  }

  function Spawned(s: State, r: Replica, id: Id, deadline: Option<string>, persisted: bool): State
    requires r in s.caches
  {
    match deadline
    case None => s.(logs := s.logs[id := [AgentSpawned]])
    case Some(d) =>
      s.(caches := s.caches[r := s.caches[r][id := d]],
         logs := s.logs[id := if persisted then [AgentSpawned, DeadlineSet(d)] else [AgentSpawned]])
  }

  function Passed(s: State, parse: Parse, r: Replica, agents: seq<Agent>, now: int, unread: set<Id>, killed: set<Id>): State
    requires r in s.caches
  {
    var filled := Filled(s.caches[r], agents, s.logs, id => id !in unread);
    s.(caches := s.caches[r := Dropped(filled, Expired(now, filled, agents, parse), id => id in killed)])
  }

  ghost function Apply(s: State, parse: Parse, op: Op): State
    requires Enabled(s, op)
  {
    match op
    case Spawn(r, id, deadline, persisted) => Spawned(s, r, id, deadline, persisted)
    case Note(id, kind) => s.(logs := s.logs[id := HistoryOf(s.logs, id) + [kind]])
    case Pass(r, agents, now, unread, killed) => Passed(s, parse, r, agents, now, unread, killed)
    case Restart(r) => s.(caches := s.caches[r := map[]])
    case Prune(id, left) => s.(logs := s.logs[id := left])
  }

  ghost predicate Allowed(s: State, parse: Parse, ops: seq<Op>)
    decreases |ops|
  {
    ops == [] || (Enabled(s, ops[0]) && Allowed(Apply(s, parse, ops[0]), parse, ops[1..]))
  }

  // ------------------------------------------------------ what failover needs

  ghost predicate AllFaithful(s: State, parse: Parse) {
    forall r :: r in s.caches ==> Faithful(s.caches[r], s.logs, parse)
  }

  predicate Readable(id: Id) {
    true
  }

  /** What a replica with this cache would act on, with a readable log. */
  function WouldKill(cache: map<Id, string>, logs: Histories, parse: Parse, agents: seq<Agent>, now: int): seq<Due> {
    Expired(now, Filled(cache, agents, logs, Readable), agents, parse)
  }

  /** Any replica acts as a newly started one would, for any agents and at any time. */
  ghost predicate Agree(s: State, parse: Parse) {
    forall r, agents, now :: r in s.caches ==>
      WouldKill(s.caches[r], s.logs, parse, agents, now) == WouldKill(map[], s.logs, parse, agents, now)
  }

  /** One live agent: what is cached counts first, then what is logged. */
  lemma WouldKillOne(cache: map<Id, string>, logs: Histories, parse: Parse, id: Id, now: int)
    ensures
      var d := Effective(parse, if id in cache then Some(cache[id]) else DeadlineIn(HistoryOf(logs, id)));
      WouldKill(cache, logs, parse, [Agent(id, Running)], now) ==
        if d.Some? && now >= parse(d.value).value then [Due(id, d.value)] else []
  {
    var agent := Agent(id, Running);
    assert [agent][..0] == [] && [agent][|[agent]| - 1] == agent;
    var filled := Filled(cache, [agent], logs, Readable);
    assert Filled(cache, [agent][..0], logs, Readable) == cache;
    assert filled == FilledOne(cache, agent, logs, Readable);
    DueByEffective(agent, filled, now, parse);
    assert Expired(now, filled, [agent][..0], parse) == [];
  }

  /** Where a cache and the log come to different deadlines, some pass tells them apart. */
  lemma UnfaithfulDisagrees(cache: map<Id, string>, logs: Histories, parse: Parse, id: Id) returns (agents: seq<Agent>, now: int)
    requires id in cache && !FromLog(cache, logs, parse, id)
    ensures WouldKill(cache, logs, parse, agents, now) != WouldKill(map[], logs, parse, agents, now)
  {
    var c, l := Effective(parse, Some(cache[id])), Effective(parse, DeadlineIn(HistoryOf(logs, id)));
    now := if c.Some? then parse(c.value).value else parse(l.value).value;
    agents := [Agent(id, Running)];
    WouldKillOne(cache, logs, parse, id, now);
    WouldKillOne(map[], logs, parse, id, now);
  }

  /** Failover is invisible if and only if every cache comes to what the log says. */
  lemma AgreeIff(s: State, parse: Parse)
    ensures Agree(s, parse) <==> AllFaithful(s, parse)
  {
    if AllFaithful(s, parse) {
      forall r, agents, now | r in s.caches
        ensures WouldKill(s.caches[r], s.logs, parse, agents, now) == WouldKill(map[], s.logs, parse, agents, now)
      {
        SameKills(now, s.caches[r], map[], agents, s.logs, Readable, parse);
      }
    } else {
      var r :| r in s.caches && !Faithful(s.caches[r], s.logs, parse);
      var id :| id in s.caches[r] && !FromLog(s.caches[r], s.logs, parse, id);
      var agents, now := UnfaithfulDisagrees(s.caches[r], s.logs, parse, id);
    }
  }

  /** What a pass leaves in its replica's cache: the deadlines it had, and those of live
      agents that it could read back, but for the agents that were due and killed. */
  lemma PassCaches(s: State, parse: Parse, r: Replica, agents: seq<Agent>, now: int, unread: set<Id>, killed: set<Id>, id: Id)
    requires Enabled(s, Pass(r, agents, now, unread, killed))
    ensures
      var before := s.caches[r];
      var after := Apply(s, parse, Pass(r, agents, now, unread, killed)).caches[r];
      var logged := DeadlineIn(HistoryOf(s.logs, id));
      var known := if id in before then Some(before[id]) else if LiveIn(agents, id) && id !in unread then logged else None;
      && (id in after <==> known.Some? && !(id in killed && LiveIn(agents, id) && parse(known.value).Some? && parse(known.value).value <= now))
      && (id in after ==> after[id] == known.value)
  {
    var filled := Filled(s.caches[r], agents, s.logs, id => id !in unread);
    var due := Expired(now, filled, agents, parse);
    FilledIs(s.caches[r], agents, s.logs, id => id !in unread, id);
    DroppedIff(filled, due, id => id in killed, id);
    if id in filled {
      ExpiredIff(now, filled, agents, parse, Due(id, filled[id]));
      if k :| 0 <= k < |due| && due[k].id == id {
        ExpiredIff(now, filled, agents, parse, due[k]);
        assert due[k] in due;
      }
    }
  }

  /** A replica that restarts has the log to go by and nothing else, and the log has what
      was noted. */
  lemma RestartedFromLog(s: State, parse: Parse, r: Replica, id: Id, kind: EventKind, agents: seq<Agent>, now: int)
    requires Enabled(s, Note(id, kind))
    ensures
      var noted := Apply(s, parse, Note(id, kind));
      var restarted := Apply(noted, parse, Restart(r));
      && HistoryOf(restarted.logs, id) == HistoryOf(s.logs, id) + [kind]
      && r in restarted.caches
      && WouldKill(restarted.caches[r], restarted.logs, parse, agents, now) == WouldKill(map[], noted.logs, parse, agents, now)
  {
  }

  /** Replicas that each act as a new one would act alike. */
  lemma AgreeingReplicasActAlike(s: State, parse: Parse, r: Replica, q: Replica, agents: seq<Agent>, now: int)
    requires Agree(s, parse) && r in s.caches && q in s.caches
    ensures WouldKill(s.caches[r], s.logs, parse, agents, now) == WouldKill(s.caches[q], s.logs, parse, agents, now)
  {
    assert WouldKill(s.caches[r], s.logs, parse, agents, now) == WouldKill(map[], s.logs, parse, agents, now);
    assert WouldKill(s.caches[q], s.logs, parse, agents, now) == WouldKill(map[], s.logs, parse, agents, now);
  }

  // ----------------------------------------------------------- the exact steps

  /** A spawn gets a deadline that can come into the log; a prune leaves what the stream
      says of its deadline, or nobody has that deadline cached. */
  ghost predicate Guard(s: State, parse: Parse, op: Op) {
    match op
    case Spawn(_, _, deadline, persisted) => persisted || Effective(parse, deadline).None?
    case Prune(id, left) =>
      || Effective(parse, DeadlineIn(left)) == Effective(parse, DeadlineIn(HistoryOf(s.logs, id)))
      || forall r :: r in s.caches ==> id !in s.caches[r]
    case _ => true
  }

  ghost predicate Guarded(s: State, parse: Parse, ops: seq<Op>)
    requires Allowed(s, parse, ops)
    decreases |ops|
  {
    ops == [] || (Guard(s, parse, ops[0]) && Guarded(Apply(s, parse, ops[0]), parse, ops[1..]))
  }

  lemma AfterNote(history: seq<EventKind>, kind: EventKind)
    requires !kind.DeadlineSet?
    ensures DeadlineIn(history + [kind]) == DeadlineIn(history)
  {
    assert (history + [kind])[..|history|] == history;
  }

  /** A change to one stream only matters to caches that have its agent. */
  lemma LogChange(cache: map<Id, string>, logs: Histories, logs': Histories, parse: Parse, id: Id)
    requires Faithful(cache, logs, parse)
    requires forall key :: key != id ==> HistoryOf(logs', key) == HistoryOf(logs, key)
    ensures Faithful(cache, logs', parse) <==>
      (id in cache ==> Effective(parse, DeadlineIn(HistoryOf(logs', id))) == Effective(parse, DeadlineIn(HistoryOf(logs, id))))
  {
    forall key | key in cache && key != id ensures FromLog(cache, logs', parse, key) {
      assert FromLog(cache, logs, parse, key);
    }
    if id in cache {
      assert FromLog(cache, logs, parse, id);
    }
  }

  lemma PruneExact(s: State, parse: Parse, id: Id, left: seq<EventKind>)
    requires AllFaithful(s, parse)
    ensures AllFaithful(s.(logs := s.logs[id := left]), parse) <==> Guard(s, parse, Prune(id, left))
  {
    var s' := s.(logs := s.logs[id := left]);
    forall r | r in s.caches
      ensures Faithful(s.caches[r], s'.logs, parse) <==>
        (id in s.caches[r] ==> Effective(parse, DeadlineIn(left)) == Effective(parse, DeadlineIn(HistoryOf(s.logs, id))))
    {
      LogChange(s.caches[r], s.logs, s'.logs, parse, id);
    }
  }

  lemma NoteKeeps(s: State, parse: Parse, id: Id, kind: EventKind)
    requires AllFaithful(s, parse) && !kind.DeadlineSet?
    ensures AllFaithful(s.(logs := s.logs[id := HistoryOf(s.logs, id) + [kind]]), parse)
  {
    AfterNote(HistoryOf(s.logs, id), kind);
    PruneExact(s, parse, id, HistoryOf(s.logs, id) + [kind]);
  }

  lemma SpawnExact(s: State, parse: Parse, r: Replica, id: Id, deadline: Option<string>, persisted: bool)
    requires AllFaithful(s, parse) && Enabled(s, Spawn(r, id, deadline, persisted))
    ensures AllFaithful(Spawned(s, r, id, deadline, persisted), parse) <==> Guard(s, parse, Spawn(r, id, deadline, persisted))
  {
    var s' := Spawned(s, r, id, deadline, persisted);
    forall q | q in s.caches ensures Faithful(s.caches[q], s'.logs, parse) {
      LogChange(s.caches[q], s.logs, s'.logs, parse, id);
    }
    if deadline.Some? {
      SpawnCaches(s.caches[r], s'.logs, parse, id, deadline.value, persisted);
      assert forall q :: q in s'.caches && q != r ==> s'.caches[q] == s.caches[q];
      assert s'.caches[r] == s.caches[r][id := deadline.value];
    }
  }

  lemma SpawnCaches(cache: map<Id, string>, logs: Histories, parse: Parse, id: Id, d: string, persisted: bool)
    requires Faithful(cache, logs, parse) && id !in cache
    requires id in logs && logs[id] == if persisted then [AgentSpawned, DeadlineSet(d)] else [AgentSpawned]
    ensures Faithful(cache[id := d], logs, parse) <==> persisted || Effective(parse, Some(d)).None?
  {
    var cache' := cache[id := d];
    assert [AgentSpawned][..0] == [];
    assert DeadlineIn(HistoryOf(logs, id)) == if persisted then Some(d) else None;
    forall key | key in cache ensures FromLog(cache', logs, parse, key) {
      assert FromLog(cache, logs, parse, key);
    }
    assert FromLog(cache', logs, parse, id) <==> persisted || Effective(parse, Some(d)).None?;
  }

  lemma SmallerIsFaithful(cache: map<Id, string>, smaller: map<Id, string>, logs: Histories, parse: Parse)
    requires Faithful(cache, logs, parse)
    requires forall id :: id in smaller ==> id in cache && smaller[id] == cache[id]
    ensures Faithful(smaller, logs, parse)
  {
    forall id | id in smaller ensures FromLog(smaller, logs, parse, id) {
      assert FromLog(cache, logs, parse, id);
    }
  }

  lemma PassKeeps(s: State, parse: Parse, r: Replica, agents: seq<Agent>, now: int, unread: set<Id>, killed: set<Id>)
    requires AllFaithful(s, parse) && r in s.caches
    ensures AllFaithful(Passed(s, parse, r, agents, now, unread, killed), parse)
  {
    var readable := id => id !in unread;
    var filled := Filled(s.caches[r], agents, s.logs, readable);
    var due := Expired(now, filled, agents, parse);
    FilledFromLog(s.caches[r], agents, s.logs, readable, parse);
    DroppedIsSmaller(filled, due, id => id in killed);
    SmallerIsFaithful(filled, Dropped(filled, due, id => id in killed), s.logs, parse);
  }

  /** Each step keeps every cache at what the log says exactly when it passes its guard. */
  lemma StepExact(s: State, parse: Parse, op: Op)
    requires AllFaithful(s, parse) && Enabled(s, op)
    ensures AllFaithful(Apply(s, parse, op), parse) <==> Guard(s, parse, op)
  {
    match op
    case Spawn(r, id, deadline, persisted) => SpawnExact(s, parse, r, id, deadline, persisted);
    case Note(id, kind) => NoteKeeps(s, parse, id, kind);
    case Pass(r, agents, now, unread, killed) => PassKeeps(s, parse, r, agents, now, unread, killed);
    case Restart(_) =>
    case Prune(id, left) => PruneExact(s, parse, id, left);
  }

  // -------------------------------------------------------------- the result

  /** Failover is invisible at every point of a run. */
  ghost predicate AgreeThroughout(s: State, parse: Parse, ops: seq<Op>)
    requires Allowed(s, parse, ops)
    decreases |ops|
  {
    Agree(s, parse) && (ops == [] || AgreeThroughout(Apply(s, parse, ops[0]), parse, ops[1..]))
  }

  /** Whichever replica runs a pass, and whenever another takes over, the same agents are
      killed: throughout a run if and only if each spawn's deadline that can come gets
      into the log, and no prune changes a deadline that some replica has cached. */
  lemma {:induction false} FailoverInvisibleIff(s: State, parse: Parse, ops: seq<Op>)
    requires AllFaithful(s, parse) && Allowed(s, parse, ops)
    ensures AgreeThroughout(s, parse, ops) <==> Guarded(s, parse, ops)
    decreases |ops|
  {
    AgreeIff(s, parse);
    if ops != [] {
      StepExact(s, parse, ops[0]);
      var s' := Apply(s, parse, ops[0]);
      if Guard(s, parse, ops[0]) {
        FailoverInvisibleIff(s', parse, ops[1..]);
      } else {
        AgreeIff(s', parse);
      }
    }
  }

  /** A replica spawns an agent and its deadline does not get into the log: that replica
      will kill the agent, a new one never. */
  lemma LostDeadline(s: State, parse: Parse, r: Replica, id: Id, d: string)
    requires AllFaithful(s, parse) && Enabled(s, Spawn(r, id, Some(d), false)) && parse(d).Some?
    ensures !Agree(Apply(s, parse, Spawn(r, id, Some(d), false)), parse)
  {
    StepExact(s, parse, Spawn(r, id, Some(d), false));
    AgreeIff(Apply(s, parse, Spawn(r, id, Some(d), false)), parse);
  }

  /** An agent outlives the log's retention: once its deadline is pruned, a replica that
      has it cached kills the agent and a new one never does. */
  lemma PrunedDeadline(s: State, parse: Parse, r: Replica, id: Id)
    requires AllFaithful(s, parse) && r in s.caches && id in s.caches[r] && parse(s.caches[r][id]).Some?
    ensures !Agree(Apply(s, parse, Prune(id, [])), parse)
  {
    assert FromLog(s.caches[r], s.logs, parse, id);
    StepExact(s, parse, Prune(id, []));
    AgreeIff(Apply(s, parse, Prune(id, [])), parse);
  }
}
