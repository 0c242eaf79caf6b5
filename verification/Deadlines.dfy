/** Wall-clock deadlines: set at spawn, kept in the log, enforced by whichever replica
    polls. */
module Deadlines {
  import opened Common
  import opened UsageWindow
  import opened EventLog

  type Id = string

  datatype Agent = Agent(id: Id, status: AgentStatus)

  /** An expiry to act on: the agent and its deadline as written. */
  datatype Due = Due(id: Id, deadline: string)

  /** How deadlines are read back: nanoseconds since the start of year 0000. */
  type Parse = string -> Option<int>

  // --------------------------------------------------------- the decisions

  /** The newest deadline in an agent's history. */
  function DeadlineIn(history: seq<EventKind>): Option<string> {
    if history == [] then None
    else
      match history[|history| - 1]
      case DeadlineSet(deadline) => Some(deadline)
      case _ => DeadlineIn(history[..|history| - 1])
  }

  /** Entry `i` sets `d`, and no later entry sets a deadline. */
  ghost predicate NewestAt(history: seq<EventKind>, i: nat, d: string) {
    i < |history| && history[i] == DeadlineSet(d) && forall j :: i < j < |history| ==> !history[j].DeadlineSet?
  }

  lemma {:induction false} NewestIsFound(history: seq<EventKind>, i: nat, d: string)
    requires NewestAt(history, i, d)
    ensures DeadlineIn(history) == Some(d)
  {
    var n := |history| - 1;
    if i < n {
      assert NewestAt(history[..n], i, d);
      NewestIsFound(history[..n], i, d);
    }
  }

  lemma {:induction false} FoundIsNewest(history: seq<EventKind>) returns (i: nat)
    ensures DeadlineIn(history).Some? ==> NewestAt(history, i, DeadlineIn(history).value)
    ensures DeadlineIn(history).None? ==> forall j :: 0 <= j < |history| ==> !history[j].DeadlineSet?
  {
    i := 0;
    if history != [] {
      var n := |history| - 1;
      i := n;
      if !history[n].DeadlineSet? {
        i := FoundIsNewest(history[..n]);
      }
    }
  }

  /** It is the deadline after which no other was set; there is none only if none was set. */
  lemma DeadlineIsNewest(history: seq<EventKind>, d: string)
    ensures DeadlineIn(history) == Some(d) <==> exists i: nat :: NewestAt(history, i, d)
    ensures DeadlineIn(history) == None <==> forall i :: 0 <= i < |history| ==> !history[i].DeadlineSet?
  {
    var k := FoundIsNewest(history);
    if i: nat :| NewestAt(history, i, d) {
      NewestIsFound(history, i, d);
    }
  }

  predicate IsDue(agent: Agent, deadlines: map<Id, string>, now: int, parse: Parse) {
    && !agent.status.IsTerminal() && agent.id in deadlines
    && parse(deadlines[agent.id]).Some? && now >= parse(deadlines[agent.id]).value
  }

  function Expired(now: int, deadlines: map<Id, string>, agents: seq<Agent>, parse: Parse): seq<Due> {
    if agents == [] then []
    else
      var agent := agents[|agents| - 1];
      Expired(now, deadlines, agents[..|agents| - 1], parse)
      + if IsDue(agent, deadlines, now, parse) then [Due(agent.id, deadlines[agent.id])] else []
  }

  /** `due` is an expiry of `agent`: it may still do something, its deadline is known and
      reads as a time, and that time has come. */
  ghost predicate Overdue(agent: Agent, deadlines: map<Id, string>, now: int, parse: Parse, due: Due) {
    && (agent.status == Spawning || agent.status == Running || agent.status == Idle)
    && agent.id == due.id && due.id in deadlines && due.deadline == deadlines[due.id]
    && parse(due.deadline).Some? && parse(due.deadline).value <= now
  }

  lemma OverdueIff(agent: Agent, deadlines: map<Id, string>, now: int, parse: Parse, due: Due)
    ensures Overdue(agent, deadlines, now, parse, due) <==>
            IsDue(agent, deadlines, now, parse) && due == Due(agent.id, deadlines[agent.id])
  {
  }

  /** Exactly the live agents whose deadline is known, reads as a time and has come:
      never one that has stopped, has no deadline or has one that does not parse. */
  lemma {:induction false} ExpiredIff(now: int, deadlines: map<Id, string>, agents: seq<Agent>, parse: Parse, due: Due)
    ensures due in Expired(now, deadlines, agents, parse) <==>
      exists agent :: agent in agents && Overdue(agent, deadlines, now, parse, due)
  {
    if agents != [] {
      var init, agent := agents[..|agents| - 1], agents[|agents| - 1];
      ExpiredIff(now, deadlines, init, parse, due);
      OverdueIff(agent, deadlines, now, parse, due);
      forall other
        ensures other in agents <==> other in init || other == agent
      {
        assert agents == init + [agent];
      }
      assert due in Expired(now, deadlines, agents, parse) <==>
        due in Expired(now, deadlines, init, parse) || Overdue(agent, deadlines, now, parse, due);
    }
  }

  /** `due` are the expiries, one for one and in the agents' order; `at` says where each
      agent stands. */
  ghost predicate Chosen(now: int, deadlines: map<Id, string>, agents: seq<Agent>, parse: Parse, due: seq<Due>, at: seq<nat>) {
    && |at| == |due| && Climbs(at, |agents|)
    && (forall k :: 0 <= k < |at| ==> Overdue(agents[at[k]], deadlines, now, parse, due[k]))
    && forall i :: 0 <= i < |agents| ==> (i in at <==> exists d :: Overdue(agents[i], deadlines, now, parse, d))
  }

  lemma SelectOneMore(now: int, deadlines: map<Id, string>, agents: seq<Agent>, parse: Parse, due: seq<Due>, at: seq<nat>, agent: Agent)
    requires Chosen(now, deadlines, agents, parse, due, at)
    ensures IsDue(agent, deadlines, now, parse) ==>
              Chosen(now, deadlines, agents + [agent], parse, due + [Due(agent.id, deadlines[agent.id])], at + [|agents|])
    ensures !IsDue(agent, deadlines, now, parse) ==> Chosen(now, deadlines, agents + [agent], parse, due, at)
  {
    var n, all, at' := |agents|, agents + [agent], at + [|agents|];
    ClimbOneMore(at, n);
    forall i | 0 <= i < |all|
      ensures i in at' <==> i in at || i == n
      ensures i < n ==> all[i] == agents[i]
    {
    }
    if IsDue(agent, deadlines, now, parse) {
      assert Overdue(agent, deadlines, now, parse, Due(agent.id, deadlines[agent.id]));
    }
  }

  /** So one pass acts once on each overdue agent, in the agents' order. */
  lemma {:induction false} ExpiredSelects(now: int, deadlines: map<Id, string>, agents: seq<Agent>, parse: Parse) returns (at: seq<nat>)
    ensures Chosen(now, deadlines, agents, parse, Expired(now, deadlines, agents, parse), at)
  {
    if agents == [] {
      at := [];
    } else {
      var init, agent := agents[..|agents| - 1], agents[|agents| - 1];
      at := ExpiredSelects(now, deadlines, init, parse);
      var before := Expired(now, deadlines, init, parse);
      SelectOneMore(now, deadlines, init, parse, before, at, agent);
      assert init + [agent] == agents;
      if IsDue(agent, deadlines, now, parse) {
        at := at + [|init|];
      } else {
        assert before + [] == before;
      }
    }
  }

  // --------------------------------------------------------- setting one

  const MAX_SECONDS := 9_223_372_036_854_775
  const TWO_63 := 0x8000_0000_0000_0000
  const TWO_64 := 0x1_0000_0000_0000_0000

  /** A 64-bit unsigned number reinterpreted as signed. */
  function AsSigned(n: nat): int
    requires n < TWO_64
  {
    if n < TWO_63 then n else n - TWO_64
  }

  /** No timeout asked for or representable, a deadline, or one outside years 0000 to 9999. */
  datatype Timeout = NoTimeout | Until(at: Instant) | OffCalendar

  /** `Duration::try_seconds` of the timeout, in nanoseconds. */
  function Delta(secs: nat): Option<int>
    requires secs < TWO_64
  {
    var s := AsSigned(secs);
    if s < -MAX_SECONDS || s > MAX_SECONDS then None else Some(s * 1_000_000_000)
  }

  function Landing(started: Instant, delta: int): Option<Instant> {
    if 0 <= started + delta < DAYS * NANOS_PER_DAY then Some(started + delta) else None
  }

  function DeadlineFrom(started: Instant, timeout: Option<nat>): Timeout
    requires timeout.Some? ==> timeout.value < TWO_64
  {
    match timeout
    case None => NoTimeout
    case Some(secs) =>
      match Delta(secs)
      case None => NoTimeout
      case Some(delta) =>
        match Landing(started, delta)
        case Some(at) => Until(at)
        case None => OffCalendar
  }

  /** What a timeout comes to, for every 64-bit number of seconds.  Up to the bound of a
      duration the deadline is the start plus the timeout.  From there on none is set; but
      the largest ones wrap to negative numbers, and the deadline lies before the start.
      Either may fall outside the calendar. */
  lemma DeadlineIsStartPlusTimeout(started: Instant, secs: nat)
    requires secs < 0x1_0000_0000_0000_0000
    ensures
      var timeout, back := secs * 1_000_000_000, (0x1_0000_0000_0000_0000 - secs) * 1_000_000_000;
      DeadlineFrom(started, Some(secs)) ==
        if secs <= 9_223_372_036_854_775 then
          (if started + timeout < DAYS * NANOS_PER_DAY then Until(started + timeout) else OffCalendar)
        else if 0x1_0000_0000_0000_0000 - secs <= 9_223_372_036_854_775 then
          (if back <= started then Until(started - back) else OffCalendar)
        else NoTimeout
    ensures DeadlineFrom(started, None) == NoTimeout
  {
  }

  /** A deadline has passed before its agent starts exactly for those timeouts. */
  lemma DeadlineBeforeStartIff(started: Instant, secs: nat)
    requires secs < TWO_64 && DeadlineFrom(started, Some(secs)).Until?
    ensures DeadlineFrom(started, Some(secs)).at < started <==> secs > MAX_SECONDS
  {
    DeadlineIsStartPlusTimeout(started, secs);
  }

  // ----------------------------------------------------------- one pass

  type Histories = map<Id, seq<EventKind>>

  function HistoryOf(logs: Histories, id: Id): seq<EventKind> {
    if id in logs then logs[id] else []
  }

  function FilledOne(cache: map<Id, string>, agent: Agent, logs: Histories, readable: Id -> bool): map<Id, string> {
    if agent.status.IsTerminal() || agent.id in cache || !readable(agent.id) then cache
    else
      match DeadlineIn(HistoryOf(logs, agent.id))
      case Some(d) => cache[agent.id := d]
      case None => cache
  }

  /** The cache once live agents it does not know were looked up in the log; `readable`
      are the streams whose replay succeeds. */
  function Filled(cache: map<Id, string>, agents: seq<Agent>, logs: Histories, readable: Id -> bool): map<Id, string> {
    if agents == [] then cache
    else
      var agent := agents[|agents| - 1];
      var filled := Filled(cache, agents[..|agents| - 1], logs, readable);
      FilledOne(filled, agent, logs, readable)
  }

  lemma FilledOneIs(cache: map<Id, string>, agent: Agent, logs: Histories, readable: Id -> bool, id: Id)
    ensures id in cache ==> id in FilledOne(cache, agent, logs, readable) && FilledOne(cache, agent, logs, readable)[id] == cache[id]
    ensures id !in cache ==>
              (id in FilledOne(cache, agent, logs, readable) <==>
                 && agent.id == id && (agent.status == Spawning || agent.status == Running || agent.status == Idle)
                 && readable(id) && DeadlineIn(HistoryOf(logs, id)).Some?)
    ensures id !in cache && id in FilledOne(cache, agent, logs, readable) ==>
              FilledOne(cache, agent, logs, readable)[id] == DeadlineIn(HistoryOf(logs, id)).value
  {
  }

  /** One of the agents is this one, and live. */
  ghost predicate LiveIn(agents: seq<Agent>, id: Id) {
    exists agent :: agent in agents && agent.id == id && (agent.status == Spawning || agent.status == Running || agent.status == Idle)
  }

  /** What filling adds to the cache: of live agents it does not know and whose stream can
      be read, the newest deadline there.  What it knows it keeps. */
  lemma {:induction false} FilledIs(cache: map<Id, string>, agents: seq<Agent>, logs: Histories, readable: Id -> bool, id: Id)
    ensures var filled := Filled(cache, agents, logs, readable);
      && (id in cache ==> id in filled && filled[id] == cache[id])
      && (id !in cache ==> (id in filled <==> LiveIn(agents, id) && readable(id) && DeadlineIn(HistoryOf(logs, id)).Some?))
      && (id !in cache && id in filled ==> filled[id] == DeadlineIn(HistoryOf(logs, id)).value)
  {
    if agents != [] {
      var init, agent := agents[..|agents| - 1], agents[|agents| - 1];
      FilledIs(cache, init, logs, readable, id);
      FilledOneIs(Filled(cache, init, logs, readable), agent, logs, readable, id);
      assert agents == init + [agent];
    }
  }

  datatype Act = TimeOut(id: Id, deadline: string) | Kill(id: Id)

  function ActsOf(due: seq<Due>): seq<Act> {
    if due == [] then []
    else
      var last := due[|due| - 1];
      ActsOf(due[..|due| - 1]) + [TimeOut(last.id, last.deadline), Kill(last.id)]
  }

  /** Every kill has its own timeout event, just before it. */
  lemma {:induction false} EveryKillExplained(due: seq<Due>, k: nat)
    requires k < |due|
    ensures |ActsOf(due)| == 2 * |due|
    ensures ActsOf(due)[2 * k] == TimeOut(due[k].id, due[k].deadline) && ActsOf(due)[2 * k + 1] == Kill(due[k].id)
  {
    var init := due[..|due| - 1];
    if k < |init| {
      EveryKillExplained(init, k);
    } else if |init| > 0 {
      EveryKillExplained(init, 0);
    }
  }

  /** The cache after the kills that went through. */
  function Dropped(cache: map<Id, string>, due: seq<Due>, kills: Id -> bool): map<Id, string> {
    if due == [] then cache
    else
      var rest := Dropped(cache, due[..|due| - 1], kills);
      if kills(due[|due| - 1].id) then rest - {due[|due| - 1].id} else rest
  }

  /** What is forgotten: an agent that expired and whose kill went through, and no other. */
  lemma {:induction false} DroppedIff(cache: map<Id, string>, due: seq<Due>, kills: Id -> bool, id: Id)
    ensures id in Dropped(cache, due, kills) <==>
            id in cache && !(kills(id) && exists k :: 0 <= k < |due| && due[k].id == id)
    ensures id in Dropped(cache, due, kills) ==> Dropped(cache, due, kills)[id] == cache[id]
  {
    if due != [] {
      DroppedIff(cache, due[..|due| - 1], kills, id);
    }
  }

  class Enforcer {
    var deadlines: map<Id, string>

    constructor ()
      ensures deadlines == map[]
    {
      deadlines := map[];
    }

    /** Look up what is not known yet, decide, and for each expiry first say why and
        then kill; a deadline is forgotten once its kill went through. */
    method EnforceDeadlines(agents: seq<Agent>, logs: Histories, readable: Id -> bool, now: int, parse: Parse, kills: Id -> bool)
      returns (acts: seq<Act>)
      modifies this
      ensures var filled := Filled(old(deadlines), agents, logs, readable);
        var due := Expired(now, filled, agents, parse);
        acts == ActsOf(due) && deadlines == Dropped(filled, due, kills)
    {
      for i := 0 to |agents|
        invariant deadlines == Filled(old(deadlines), agents[..i], logs, readable)
      {
        assert agents[..i + 1][..i] == agents[..i];
        var agent := agents[i];
        if !agent.status.IsTerminal() && agent.id !in deadlines {
          var history := if readable(agent.id) then HistoryOf(logs, agent.id) else [];
          match DeadlineIn(history)
          case Some(d) => deadlines := deadlines[agent.id := d];
          case None =>
        }
      }
      assert agents[..|agents|] == agents;
      var due := Expired(now, deadlines, agents, parse);
      ghost var filled := deadlines;
      acts := [];
      for k := 0 to |due|
        invariant acts == ActsOf(due[..k]) && deadlines == Dropped(filled, due[..k], kills)
      {
        assert due[..k + 1][..k] == due[..k];
        acts := acts + [TimeOut(due[k].id, due[k].deadline)];
        acts := acts + [Kill(due[k].id)];
        if kills(due[k].id) {
          deadlines := deadlines - {due[k].id};
        }
      }
      assert due[..|due|] == due;
    }
  }

  // ------------------------------------------------------------- failover

  function Find(cache: map<Id, string>, id: Id): Option<string> {
    if id in cache then Some(cache[id]) else None
  }

  /** A deadline that can come: one that does not parse never does. */
  function Effective(parse: Parse, d: Option<string>): Option<string> {
    if d.Some? && parse(d.value).Some? then d else None
  }

  /** The cache's word on `id` comes to what the log says. */
  ghost predicate FromLog(cache: map<Id, string>, logs: Histories, parse: Parse, id: Id) {
    Effective(parse, Find(cache, id)) == Effective(parse, DeadlineIn(HistoryOf(logs, id)))
  }

  /** Whatever the cache knows comes to what the log says. */
  ghost predicate Faithful(cache: map<Id, string>, logs: Histories, parse: Parse) {
    forall id :: id in cache ==> FromLog(cache, logs, parse, id)
  }

  /** Filling a faithful cache from a readable log makes it the log's word on every
      live agent. */
  lemma {:induction false} FilledFromLog(cache: map<Id, string>, agents: seq<Agent>, logs: Histories, readable: Id -> bool, parse: Parse)
    requires Faithful(cache, logs, parse)
    ensures Faithful(Filled(cache, agents, logs, readable), logs, parse)
    ensures cache.Keys <= Filled(cache, agents, logs, readable).Keys
    ensures forall agent :: agent in agents && !agent.status.IsTerminal() && readable(agent.id) ==>
      FromLog(Filled(cache, agents, logs, readable), logs, parse, agent.id)
  {
    if agents != [] {
      var init, last := agents[..|agents| - 1], agents[|agents| - 1];
      FilledFromLog(cache, init, logs, readable, parse);
      FillOne(Filled(cache, init, logs, readable), last, logs, readable, parse);
      assert agents == init + [last];
    }
  }

  lemma FillOne(cache: map<Id, string>, agent: Agent, logs: Histories, readable: Id -> bool, parse: Parse)
    requires Faithful(cache, logs, parse)
    ensures
      var filled := FilledOne(cache, agent, logs, readable);
      && Faithful(filled, logs, parse) && cache.Keys <= filled.Keys
      && (!agent.status.IsTerminal() && readable(agent.id) ==> FromLog(filled, logs, parse, agent.id))
      && forall id :: FromLog(cache, logs, parse, id) ==> FromLog(filled, logs, parse, id)
  {
    var filled := FilledOne(cache, agent, logs, readable);
    forall id ensures id != agent.id ==> Find(filled, id) == Find(cache, id) {
    }
  }

  /** A decision depends only on the deadline that can come. */
  lemma DueByEffective(agent: Agent, deadlines: map<Id, string>, now: int, parse: Parse)
    ensures
      var d := Effective(parse, Find(deadlines, agent.id));
      && (IsDue(agent, deadlines, now, parse) <==> !agent.status.IsTerminal() && d.Some? && now >= parse(d.value).value)
      && (IsDue(agent, deadlines, now, parse) ==> d == Some(deadlines[agent.id]))
  {
  }

  /** Two caches that come to the same on the live agents lead to the same decisions. */
  lemma {:induction false} SameDecisions(now: int, a: map<Id, string>, b: map<Id, string>, agents: seq<Agent>, parse: Parse)
    requires forall agent :: agent in agents && !agent.status.IsTerminal() ==>
      Effective(parse, Find(a, agent.id)) == Effective(parse, Find(b, agent.id))
    ensures Expired(now, a, agents, parse) == Expired(now, b, agents, parse)
  {
    if agents != [] {
      var init, agent := agents[..|agents| - 1], agents[|agents| - 1];
      SameDecisions(now, a, b, init, parse);
      assert agent in agents;
      DueByEffective(agent, a, now, parse);
      DueByEffective(agent, b, now, parse);
    }
  }

  /** Failover is invisible: whatever each of two replicas had cached, a pass over the
      same agents, log and time acts on the same expiries. */
  lemma SameKills(now: int, a: map<Id, string>, b: map<Id, string>, agents: seq<Agent>, logs: Histories, readable: Id -> bool, parse: Parse)
    requires Faithful(a, logs, parse) && Faithful(b, logs, parse)
    requires forall agent :: agent in agents ==> readable(agent.id)
    ensures Expired(now, Filled(a, agents, logs, readable), agents, parse) == Expired(now, Filled(b, agents, logs, readable), agents, parse)
  {
    FilledFromLog(a, agents, logs, readable, parse);
    FilledFromLog(b, agents, logs, readable, parse);
    forall agent | agent in agents && !agent.status.IsTerminal()
      ensures Effective(parse, Find(Filled(a, agents, logs, readable), agent.id)) == Effective(parse, Find(Filled(b, agents, logs, readable), agent.id))
    {
      assert FromLog(Filled(a, agents, logs, readable), logs, parse, agent.id);
      assert FromLog(Filled(b, agents, logs, readable), logs, parse, agent.id);
    }
    SameDecisions(now, Filled(a, agents, logs, readable), Filled(b, agents, logs, readable), agents, parse);
  }

  lemma DroppedIsSmaller(cache: map<Id, string>, due: seq<Due>, kills: Id -> bool)
    ensures forall id :: id in Dropped(cache, due, kills) ==> id in cache && Dropped(cache, due, kills)[id] == cache[id]
  {
    forall id
      ensures id in Dropped(cache, due, kills) ==> id in cache && Dropped(cache, due, kills)[id] == cache[id]
    {
      DroppedIff(cache, due, kills, id);
    }
  }

  /** A kill that went through is forgotten, but the log is not: the next pass acts on
      the agent again exactly when the agent still looks live. */
  lemma ActsAgainIff(now: int, cache: map<Id, string>, agents: seq<Agent>, logs: Histories, readable: Id -> bool, parse: Parse, id: Id, d: string)
    requires Faithful(cache, logs, parse) && readable(id)
    requires DeadlineIn(HistoryOf(logs, id)) == Some(d) && parse(d).Some? && now >= parse(d).value
    ensures Due(id, d) in Expired(now, Filled(cache, agents, logs, readable), agents, parse) <==>
      exists agent :: agent in agents && agent.id == id && !agent.status.IsTerminal()
  {
    var filled := Filled(cache, agents, logs, readable);
    FilledFromLog(cache, agents, logs, readable, parse);
    ExpiredIff(now, filled, agents, parse, Due(id, d));
    if agent :| agent in agents && agent.id == id && !agent.status.IsTerminal() {
      assert FromLog(filled, logs, parse, agent.id);
      assert IsDue(agent, filled, now, parse);
    }
  }
}
