/** Polls, spawns and removals over time: what the log says of each agent is one
    unbroken story, and each departure is told once. */
module PollRuns {
  import opened Common
  import opened EventLog
  import opened PollDiff

  // ------------------------------------------------------- reading a log

  /** What a reader of one agent's events knows; `Contradicted` is a story that does
      not hold together. */
  datatype Phase = Unheard | Announced | Present | At(status: AgentStatus) | Departed | Contradicted {
    predicate Here() {
      Announced? || Present? || At?
    }
  }

  function Heard(p: Phase, kind: EventKind): Phase {
    match kind
    case AgentSpawned => if p.Unheard? then Announced else Contradicted
    case AgentDiscovered => if p.Unheard? || p.Announced? then Present else Contradicted
    case StatusChanged(from, to) =>
      if from != to && (p.Announced? || p.Present? || p == At(from)) then At(to) else Contradicted
    case AgentGone => if p.Here() then Departed else Contradicted
    case _ => p
  }

  function Story(kinds: seq<EventKind>): Phase {
    if kinds == [] then Unheard else Heard(Story(kinds[..|kinds| - 1]), kinds[|kinds| - 1])
  }

  function Goodbyes(kinds: seq<EventKind>): nat {
    if kinds == [] then 0
    else Goodbyes(kinds[..|kinds| - 1]) + if kinds[|kinds| - 1].AgentGone? then 1 else 0
  }

  lemma StoryOneMore(kinds: seq<EventKind>, kind: EventKind)
    ensures Story(kinds + [kind]) == Heard(Story(kinds), kind)
    ensures Goodbyes(kinds + [kind]) == Goodbyes(kinds) + if kind.AgentGone? then 1 else 0
  {
    assert (kinds + [kind])[..|kinds|] == kinds;
  }

  lemma StoryMore(kinds: seq<EventKind>, more: seq<EventKind>)
    requires |more| <= 1
    ensures Story(kinds + more) == if more == [] then Story(kinds) else Heard(Story(kinds), more[0])
    ensures Goodbyes(kinds + more) == Goodbyes(kinds) + if more != [] && more[0].AgentGone? then 1 else 0
  {
    if more == [] {
      assert kinds + more == kinds;
    } else {
      assert more == [more[0]];
      StoryOneMore(kinds, more[0]);
    }
  }

  /** A story that holds together held together all along. */
  lemma {:induction false} StoryPrefix(kinds: seq<EventKind>, n: nat)
    requires Story(kinds) != Contradicted && n <= |kinds|
    ensures Story(kinds[..n]) != Contradicted
  {
    if n < |kinds| {
      StoryPrefix(kinds[..|kinds| - 1], n);
      assert kinds[..|kinds| - 1][..n] == kinds[..n];
    } else {
      assert kinds[..n] == kinds;
    }
  }

  /** After a change of status, and until the next one, the agent is at that status or gone. */
  lemma {:induction false} StatusHolds(kinds: seq<EventKind>, i: nat, n: nat)
    requires Story(kinds) != Contradicted && i < n <= |kinds| && kinds[i].StatusChanged?
    requires forall k :: i < k < n ==> !kinds[k].StatusChanged?
    ensures Story(kinds[..n]) == At(kinds[i].to) || Story(kinds[..n]) == Departed
  {
    StoryPrefix(kinds, n);
    assert kinds[..n][..n - 1] == kinds[..n - 1];
    if i + 1 < n {
      StatusHolds(kinds, i, n - 1);
    }
  }

  /** In a story that holds together the status changes form a chain: each starts where
      the one before it ended. */
  lemma StatusesChain(kinds: seq<EventKind>, i: nat, j: nat)
    requires Story(kinds) != Contradicted && i < j < |kinds|
    requires kinds[i].StatusChanged? && kinds[j].StatusChanged?
    requires forall k :: i < k < j ==> !kinds[k].StatusChanged?
    ensures kinds[i].to == kinds[j].from
  {
    StatusHolds(kinds, i, j);
    StoryPrefix(kinds, j + 1);
    assert kinds[..j + 1][..j] == kinds[..j];
  }

  // --------------------------------------------------------- the machine

  /** A poll that has read the served agents and the registry, and not yet finished. */
  datatype Begun = Begun(prior: Agents, records: seq<Record>)

  /** One replica that owns the workspace's lifecycle: the served agents, the agents it
      follows, the ids that are used up, the log, and how often each agent left. */
  datatype State = State(agents: Agents, attached: set<Id>, gone: set<Id>, log: seq<Note>,
                         departures: multiset<Id>, begun: Option<Begun>)

  datatype Op =
    | Spawn(id: Id, follow: bool)
    | Poll(records: seq<Record>, notes: seq<Note>, started: set<Id>)
    | FailedPoll
    | Rm(id: Id)
    | Detach(id: Id)
    | BeginPoll(records: seq<Record>)
    | EndPoll(notes: seq<Note>, started: set<Id>)

  ghost predicate Fresh(s: State, records: seq<Record>) {
    Distinct(records) && forall id :: id in Listed(records) ==> id !in s.gone
  }

  /** Ids are never reused, and a poll's notes are some order `Reconcile` may emit. */
  ghost predicate Allowed(s: State, op: Op) {
    match op
    case Spawn(id, _) => id !in s.agents && id !in s.gone && id !in s.attached && About(s.log, id) == []
    case Poll(records, notes, follow) =>
      && Fresh(s, records) && follow <= Listed(records).Keys
      && Reports(notes, s.agents, Listed(records), s.attached, true)
    case FailedPoll => true
    case Rm(_) => true
    case Detach(_) => true
    case BeginPoll(records) => s.begun.None? && Fresh(s, records)
    case EndPoll(notes, follow) =>
      && s.begun.Some? && follow <= Listed(s.begun.value.records).Keys
      && Reports(notes, s.begun.value.prior, Listed(s.begun.value.records), s.attached, true)
  }

  function Polled(s: State, records: seq<Record>, notes: seq<Note>, follow: set<Id>): State {
    var left := s.agents.Keys - Listed(records).Keys;
    s.(agents := Listed(records), attached := s.attached + follow, gone := s.gone + left,
       log := s.log + notes, departures := s.departures + multiset(left))
  }

  function Removed(s: State, id: Id): State {
    if id in s.agents
    then s.(agents := s.agents - {id}, gone := s.gone + {id}, log := s.log + [Note(id, AgentGone)],
            departures := s.departures + multiset{id})
    else s.(gone := s.gone + {id})
  }

  function Apply(s: State, op: Op): State {
    match op
    case Spawn(id, follow) =>
      s.(log := s.log + [Note(id, AgentSpawned)], attached := if follow then s.attached + {id} else s.attached)
    case Poll(records, notes, follow) => Polled(s, records, notes, follow)
    case FailedPoll => s
    case Rm(id) => Removed(s, id)
    case Detach(id) => s.(attached := s.attached - {id})
    case BeginPoll(records) => s.(begun := Some(Begun(s.agents, records)))
    case EndPoll(notes, follow) =>
      if s.begun.Some? then Polled(s, s.begun.value.records, notes, follow).(begun := None) else s
  }

  const Start := State(map[], {}, {}, [], multiset{}, None)

  ghost predicate Possible(s: State, ops: seq<Op>)
    decreases |ops|
  {
    ops == [] || (Allowed(s, ops[0]) && Possible(Apply(s, ops[0]), ops[1..]))
  }

  ghost function Run(s: State, ops: seq<Op>): State
    requires Possible(s, ops)
    decreases |ops|
  {
    if ops == [] then s else Run(Apply(s, ops[0]), ops[1..])
  }

  // ---------------------------------------- followed agents are not discovered

  function Discoveries(kinds: seq<EventKind>): nat {
    if kinds == [] then 0
    else Discoveries(kinds[..|kinds| - 1]) + if kinds[|kinds| - 1].AgentDiscovered? then 1 else 0
  }

  lemma DiscoveriesMore(kinds: seq<EventKind>, more: seq<EventKind>)
    requires |more| <= 1 && AgentDiscovered !in more
    ensures Discoveries(kinds + more) == Discoveries(kinds)
  {
    if more == [] {
      assert kinds + more == kinds;
    } else {
      assert (kinds + more)[..|kinds|] == kinds && more[0] in more;
    }
  }

  /** Followed here, and discovered as often as `n` says. */
  ghost predicate FollowedAfter(s: State, id: Id, n: nat) {
    id in s.attached && Discoveries(About(s.log, id)) == n
  }

  lemma PollDiscoversNoMore(s: State, id: Id, n: nat, prior: Agents, records: seq<Record>, notes: seq<Note>, follow: set<Id>)
    requires FollowedAfter(s, id, n) && Reports(notes, prior, Listed(records), s.attached, true)
    ensures FollowedAfter(Polled(s, records, notes, follow), id, n)
  {
    AboutAppend(s.log, notes, id);
    assert About(notes, id) == Diff(Find(prior, id), Find(Listed(records), id), true, true);
    DiscoveriesMore(About(s.log, id), About(notes, id));
  }

  lemma NoteDiscoversNothing(log: seq<Note>, note: Note, id: Id)
    requires note.kind != AgentDiscovered
    ensures Discoveries(About(log + [note], id)) == Discoveries(About(log, id))
  {
    AboutOneMore(log, note, id);
    DiscoveriesMore(About(log, id), Said(note, id));
  }

  lemma StepDiscoversNoMore(s: State, op: Op, id: Id, n: nat)
    requires FollowedAfter(s, id, n) && Allowed(s, op) && op != Detach(id)
    ensures FollowedAfter(Apply(s, op), id, n)
  {
    match op
    case Spawn(key, _) => NoteDiscoversNothing(s.log, Note(key, AgentSpawned), id);
    case Poll(records, notes, follow) => PollDiscoversNoMore(s, id, n, s.agents, records, notes, follow);
    case Rm(key) => NoteDiscoversNothing(s.log, Note(key, AgentGone), id);
    case EndPoll(notes, follow) => PollDiscoversNoMore(s, id, n, s.begun.value.prior, s.begun.value.records, notes, follow);
    case _ =>
  }

  lemma {:induction false} RunDiscoversNoMore(s: State, ops: seq<Op>, id: Id, n: nat)
    requires FollowedAfter(s, id, n) && Possible(s, ops) && Detach(id) !in ops
    ensures FollowedAfter(Run(s, ops), id, n)
    decreases |ops|
  {
    if ops != [] {
      StepDiscoversNoMore(s, ops[0], id, n);
      assert forall op :: op in ops[1..] ==> op in ops;
      RunDiscoversNoMore(Apply(s, ops[0]), ops[1..], id, n);
    }
  }

  /** An agent that is followed from its spawn on is announced by that and by nothing
      else: as long as it is followed no poll reports it as discovered. */
  lemma SpawnIsToldOnce(s: State, id: Id, ops: seq<Op>)
    requires Allowed(s, Spawn(id, true)) && Possible(Apply(s, Spawn(id, true)), ops) && Detach(id) !in ops
    ensures Discoveries(About(Run(Apply(s, Spawn(id, true)), ops).log, id)) == 0
  {
    NoteDiscoversNothing(s.log, Note(id, AgentSpawned), id);
    RunDiscoversNoMore(Apply(s, Spawn(id, true)), ops, id, 0);
  }

  /** One that a poll starts to follow is not discovered again either, not even by a poll
      that began before that one finished. */
  lemma FollowedIsToldOnce(s: State, records: seq<Record>, notes: seq<Note>, follow: set<Id>, id: Id, ops: seq<Op>)
    requires Allowed(s, Poll(records, notes, follow)) && id in follow
    requires Possible(Apply(s, Poll(records, notes, follow)), ops) && Detach(id) !in ops
    ensures
      var after := Apply(s, Poll(records, notes, follow));
      Discoveries(About(Run(after, ops).log, id)) == Discoveries(About(after.log, id))
  {
    var after := Apply(s, Poll(records, notes, follow));
    RunDiscoversNoMore(after, ops, id, Discoveries(About(after.log, id)));
  }

  /** And an agent that nobody follows is: the next poll that newly lists it says so. */
  lemma UnfollowedIsDiscovered(s: State, id: Id, records: seq<Record>, notes: seq<Note>, follow: set<Id>)
    requires Allowed(Apply(s, Detach(id)), Poll(records, notes, follow)) && id in Listed(records) && id !in s.agents
    ensures AgentDiscovered in About(Apply(Apply(s, Detach(id)), Poll(records, notes, follow)).log, id)
  {
    AboutAppend(s.log, notes, id);
    assert About(notes, id) == Diff(None, Find(Listed(records), id), false, true);
    assert About(notes, id)[0] == AgentDiscovered;
  }

  /** Removed, and not about to be listed by a poll that has begun. */
  ghost predicate Away(s: State, id: Id) {
    id in s.gone && id !in s.agents && (s.begun.Some? ==> id !in Listed(s.begun.value.records))
  }

  lemma {:induction false} StaysAway(s: State, ops: seq<Op>, id: Id)
    requires Away(s, id) && Possible(s, ops)
    ensures id !in Run(s, ops).agents
    decreases |ops|
  {
    if ops != [] {
      StaysAway(Apply(s, ops[0]), ops[1..], id);
    }
  }

  /** A removed agent, served or not, is not served again, unless a poll was under way. */
  lemma RemovedStaysAway(s: State, id: Id, ops: seq<Op>)
    requires s.begun.None? && Possible(Apply(s, Rm(id)), ops)
    ensures id !in Run(Apply(s, Rm(id)), ops).agents
  {
    StaysAway(Apply(s, Rm(id)), ops, id);
  }

  // ---------------------------------------------- what every step keeps

  /** For one agent: the log's story fits what is served, and counts its departures. */
  ghost predicate Fits(s: State, id: Id) {
    var kinds := About(s.log, id);
    && Goodbyes(kinds) == s.departures[id]
    && Placed(Find(s.agents, id), id in s.gone, id in s.attached, Story(kinds))
  }

  ghost predicate Placed(served: Option<AgentStatus>, gone: bool, attached: bool, phase: Phase) {
    if served.Some? then !gone && phase.Here() && (phase.At? ==> phase.status == served.value)
    else if gone then phase.Departed? || phase.Announced? || phase.Unheard?
    else phase.Announced? || (phase.Unheard? && !attached)
  }

  lemma DiffPlaces(was: Option<AgentStatus>, now: Option<AgentStatus>, gone: bool, attached: bool, attached': bool, phase: Phase)
    requires Placed(was, gone, attached, phase) && (now.Some? ==> !gone)
    requires attached' ==> attached || now.Some?
    ensures var more := Diff(was, now, attached, true);
      Placed(now, gone || (was.Some? && now.None?), attached', if more == [] then phase else Heard(phase, more[0]))
  {
  }

  lemma StoryNoted(log: seq<Note>, note: Note, id: Id)
    ensures Story(About(log + [note], id)) == if note.id == id then Heard(Story(About(log, id)), note.kind) else Story(About(log, id))
    ensures Goodbyes(About(log + [note], id)) == Goodbyes(About(log, id)) + if note.id == id && note.kind.AgentGone? then 1 else 0
  {
    AboutOneMore(log, note, id);
    StoryMore(About(log, id), Said(note, id));
  }

  lemma SpawnFits(s: State, key: Id, follow: bool, id: Id)
    requires Fits(s, id) && Allowed(s, Spawn(key, follow))
    ensures Fits(Apply(s, Spawn(key, follow)), id)
  {
    StoryNoted(s.log, Note(key, AgentSpawned), id);
  }

  lemma RmFits(s: State, key: Id, id: Id)
    requires Fits(s, id)
    ensures Fits(Removed(s, key), id)
  {
    if key in s.agents {
      StoryNoted(s.log, Note(key, AgentGone), id);
    }
  }

  lemma PollStory(s: State, records: seq<Record>, notes: seq<Note>, follow: set<Id>, id: Id)
    requires Allowed(s, Poll(records, notes, follow))
    ensures var more := Diff(Find(s.agents, id), Find(Listed(records), id), id in s.attached, true);
      && Story(About(s.log + notes, id)) == (if more == [] then Story(About(s.log, id)) else Heard(Story(About(s.log, id)), more[0]))
      && Goodbyes(About(s.log + notes, id)) == Goodbyes(About(s.log, id)) + if id in s.agents && id !in Listed(records) then 1 else 0
  {
    var more := Diff(Find(s.agents, id), Find(Listed(records), id), id in s.attached, true);
    AboutAppend(s.log, notes, id);
    assert About(notes, id) == more;
    StoryMore(About(s.log, id), more);
  }

  lemma PollFits(s: State, records: seq<Record>, notes: seq<Note>, follow: set<Id>, id: Id)
    requires Fits(s, id) && Allowed(s, Poll(records, notes, follow))
    ensures Fits(Polled(s, records, notes, follow), id)
  {
    PollStory(s, records, notes, follow, id);
    DiffPlaces(Find(s.agents, id), Find(Listed(records), id), id in s.gone, id in s.attached, id in s.attached + follow, Story(About(s.log, id)));
  }

  // ------------------------------------ polls that are not taken as one step

  /** What an agent's story and the served agents say of a poll still in progress: an
      agent it read is served or gone, and one whose status moved since was reported. */
  ghost predicate ReadOk(s: State, id: Id) {
    s.begun.Some? ==>
      ReadFits(Find(s.begun.value.prior, id), Find(s.agents, id), id in s.gone, Story(About(s.log, id)))
  }

  ghost predicate ReadFits(was: Option<AgentStatus>, cur: Option<AgentStatus>, gone: bool, phase: Phase) {
    && (was.Some? ==> cur.Some? || gone)
    && (was.Some? && cur.Some? && was != cur ==> phase == At(cur.value))
  }

  lemma DiffReadFits(was: Option<AgentStatus>, cur: Option<AgentStatus>, next: Option<AgentStatus>, gone: bool, attached: bool, phase: Phase)
    requires ReadFits(was, cur, gone, phase) && Placed(cur, gone, attached, phase) && (next.Some? ==> !gone)
    ensures var more := Diff(cur, next, attached, true);
      ReadFits(was, next, gone || (cur.Some? && next.None?), if more == [] then phase else Heard(phase, more[0]))
  {
  }

  ghost predicate Inv(s: State) {
    forall id :: Fits(s, id) && ReadOk(s, id)
  }

  /** When a poll that read `was` may finish over agents now served as `cur`: nothing
      changed since; or the agent was read, is served and is no longer listed; or it is
      new since the read, still listed, and what the poll will say of it (nothing of an
      agent that is followed, that it was discovered otherwise) does not contradict what
      the log says already. */
  ghost predicate Harmless(was: Option<AgentStatus>, cur: Option<AgentStatus>, next: Option<AgentStatus>, attached: bool, phase: Phase) {
    || was == cur
    || (was.Some? && cur.Some? && next.None?)
    || (was.None? && cur.Some? && next.Some? && if attached then cur == next || !phase.At? else phase.Announced?)
  }

  /** For one agent: the read is harmless, and an id that is used up is not listed. */
  ghost predicate MayFinish(s: State, id: Id)
    requires s.begun.Some?
  {
    var next := Find(Listed(s.begun.value.records), id);
    && (next.Some? ==> id !in s.gone)
    && Harmless(Find(s.begun.value.prior, id), Find(s.agents, id), next, id in s.attached, Story(About(s.log, id)))
  }

  ghost predicate Guard(s: State, op: Op)
    requires Allowed(s, op)
  {
    op.EndPoll? ==> forall id :: MayFinish(s, id)
  }

  /** The heart of it, for one agent's values. */
  lemma FinishPlaces(was: Option<AgentStatus>, cur: Option<AgentStatus>, next: Option<AgentStatus>, gone: bool,
                     attached: bool, attached': bool, phase: Phase)
    requires Placed(cur, gone, attached, phase)
    requires ReadFits(was, cur, gone, phase)
    requires attached' ==> attached || next.Some?
    ensures
      var more := Diff(was, next, attached, true);
      var left := cur.Some? && next.None?;
      var told := more != [] && more[0].AgentGone?;
      (told == left && Placed(next, gone || left, attached', if more == [] then phase else Heard(phase, more[0])))
      <==> ((next.Some? ==> !gone) && Harmless(was, cur, next, attached, phase))
  {
  }

  lemma EndStory(s: State, notes: seq<Note>, follow: set<Id>, id: Id)
    requires Allowed(s, EndPoll(notes, follow))
    ensures
      var next := Listed(s.begun.value.records);
      var more := Diff(Find(s.begun.value.prior, id), Find(next, id), id in s.attached, true);
      && Story(About(s.log + notes, id)) == (if more == [] then Story(About(s.log, id)) else Heard(Story(About(s.log, id)), more[0]))
      && Goodbyes(About(s.log + notes, id)) == Goodbyes(About(s.log, id)) + if more != [] && more[0].AgentGone? then 1 else 0
  {
    var more := Diff(Find(s.begun.value.prior, id), Find(Listed(s.begun.value.records), id), id in s.attached, true);
    AboutAppend(s.log, notes, id);
    assert About(notes, id) == more;
    StoryMore(About(s.log, id), more);
  }

  lemma EndExact(s: State, notes: seq<Note>, follow: set<Id>, id: Id)
    requires Fits(s, id) && ReadOk(s, id) && Allowed(s, EndPoll(notes, follow))
    ensures Fits(Apply(s, EndPoll(notes, follow)), id) <==> MayFinish(s, id)
  {
    var next := Listed(s.begun.value.records);
    EndStory(s, notes, follow, id);
    FinishPlaces(Find(s.begun.value.prior, id), Find(s.agents, id), Find(next, id), id in s.gone,
                 id in s.attached, id in s.attached + follow, Story(About(s.log, id)));
  }

  lemma PollReadOk(s: State, records: seq<Record>, notes: seq<Note>, follow: set<Id>, id: Id)
    requires Fits(s, id) && ReadOk(s, id) && Allowed(s, Poll(records, notes, follow))
    ensures ReadOk(Polled(s, records, notes, follow), id)
  {
    PollStory(s, records, notes, follow, id);
    if s.begun.Some? {
      DiffReadFits(Find(s.begun.value.prior, id), Find(s.agents, id), Find(Listed(records), id), id in s.gone,
                   id in s.attached, Story(About(s.log, id)));
    }
  }

  lemma RmReadOk(s: State, key: Id, id: Id)
    requires ReadOk(s, id)
    ensures ReadOk(Removed(s, key), id)
  {
    if key in s.agents {
      StoryNoted(s.log, Note(key, AgentGone), id);
    }
  }

  lemma SpawnReadOk(s: State, key: Id, follow: bool, id: Id)
    requires ReadOk(s, id) && Allowed(s, Spawn(key, follow))
    ensures ReadOk(Apply(s, Spawn(key, follow)), id)
  {
    StoryNoted(s.log, Note(key, AgentSpawned), id);
  }

  /** Steps other than the end of a poll keep the log's story of each agent. */
  lemma StepFits(s: State, op: Op, id: Id)
    requires Fits(s, id) && ReadOk(s, id) && Allowed(s, op) && !op.EndPoll?
    ensures Fits(Apply(s, op), id) && ReadOk(Apply(s, op), id)
  {
    match op
    case Spawn(key, follow) =>
      SpawnFits(s, key, follow, id);
      SpawnReadOk(s, key, follow, id);
    case Poll(records, notes, follow) =>
      PollFits(s, records, notes, follow, id);
      PollReadOk(s, records, notes, follow, id);
    case FailedPoll =>
    case Rm(key) =>
      RmFits(s, key, id);
      RmReadOk(s, key, id);
    case Detach(key) =>
    case BeginPoll(records) =>
  }

  /** Each step keeps all the stories exactly when it passes its guard. */
  lemma StepExact(s: State, op: Op)
    requires Inv(s) && Allowed(s, op)
    ensures Inv(Apply(s, op)) <==> Guard(s, op)
  {
    if op.EndPoll? {
      var s' := Apply(s, op);
      forall id ensures Fits(s', id) && ReadOk(s', id) <==> MayFinish(s, id) {
        assert Fits(s, id) && ReadOk(s, id);
        EndExact(s, op.notes, op.started, id);
      }
    } else {
      forall id ensures Fits(Apply(s, op), id) && ReadOk(Apply(s, op), id) {
        assert Fits(s, id) && ReadOk(s, id);
        StepFits(s, op, id);
      }
    }
  }

  // -------------------------------------------------------------- the results

  ghost predicate Guarded(s: State, ops: seq<Op>)
    requires Possible(s, ops)
    decreases |ops|
  {
    ops == [] || (Guard(s, ops[0]) && Guarded(Apply(s, ops[0]), ops[1..]))
  }

  ghost predicate FitsThroughout(s: State, ops: seq<Op>)
    requires Possible(s, ops)
    decreases |ops|
  {
    Inv(s) && (ops == [] || FitsThroughout(Apply(s, ops[0]), ops[1..]))
  }

  /** Throughout a run of spawns, removals, failed polls and polls whose reads and writes
      are interleaved with anything, the log's story of each agent holds together, fits
      what is served and tells each departure once: if and only if no poll finishes over
      a read that has gone stale to harm. */
  lemma {:induction false} StoriesHoldIff(s: State, ops: seq<Op>)
    requires Inv(s) && Possible(s, ops)
    ensures FitsThroughout(s, ops) <==> Guarded(s, ops)
    decreases |ops|
  {
    if ops != [] {
      StepExact(s, ops[0]);
      if Guard(s, ops[0]) {
        StoriesHoldIff(Apply(s, ops[0]), ops[1..]);
      }
    }
  }

  lemma StartHolds()
    ensures Inv(Start)
  {
  }

  lemma {:induction false} GuardedRunFits(s: State, ops: seq<Op>, id: Id)
    requires Inv(s) && Possible(s, ops) && Guarded(s, ops)
    ensures Fits(Run(s, ops), id)
    decreases |ops|
  {
    if ops != [] {
      StepExact(s, ops[0]);
      GuardedRunFits(Apply(s, ops[0]), ops[1..], id);
    }
  }

  /** A poll taken as one step: nothing happens between its reads and its write. */
  predicate Atomic(op: Op) {
    !op.BeginPoll? && !op.EndPoll?
  }

  lemma {:induction false} AtomicIsGuarded(s: State, ops: seq<Op>)
    requires Possible(s, ops) && forall i :: 0 <= i < |ops| ==> Atomic(ops[i])
    ensures Guarded(s, ops)
    decreases |ops|
  {
    if ops != [] {
      assert Atomic(ops[0]);
      assert forall i :: 0 <= i < |ops[1..]| ==> ops[1..][i] == ops[i + 1];
      AtomicIsGuarded(Apply(s, ops[0]), ops[1..]);
    }
  }

  /** Over any run of atomic polls, failed polls, spawns and removals, the log's story
      of each agent holds together, fits what is served, and tells each departure from
      the served agents exactly once. */
  lemma RunFits(ops: seq<Op>, id: Id)
    requires Possible(Start, ops) && forall i :: 0 <= i < |ops| ==> Atomic(ops[i])
    ensures Fits(Run(Start, ops), id)
  {
    StartHolds();
    AtomicIsGuarded(Start, ops);
    GuardedRunFits(Start, ops, id);
  }

  lemma RemovedStory(log: seq<Note>, id: Id)
    requires Story(About(log, id)).Here()
    ensures Story(About(log + [Note(id, AgentGone)], id)) == Departed
    ensures Goodbyes(About(log + [Note(id, AgentGone)], id)) == Goodbyes(About(log, id)) + 1
  {
    StoryNoted(log, Note(id, AgentGone), id);
  }

  lemma ToldAgain(log: seq<Note>, notes: seq<Note>, id: Id)
    requires Story(About(log, id)) == Departed && About(notes, id) == [AgentGone]
    ensures Story(About(log + notes, id)) == Contradicted
    ensures Goodbyes(About(log + notes, id)) == Goodbyes(About(log, id)) + 1
  {
    AboutAppend(log, notes, id);
    StoryOneMore(About(log, id), AgentGone);
  }

  /** The poll reports an agent that it read and does not find listed. */
  lemma SaysGone(s: State, notes: seq<Note>, follow: set<Id>, id: Id)
    requires Allowed(s, EndPoll(notes, follow)) && id in s.begun.value.prior && id !in Listed(s.begun.value.records)
    ensures About(notes, id) == [AgentGone] && Apply(s, EndPoll(notes, follow)).log == s.log + notes
  {
  }

  /** A poll reads the served agents and a listing without `id`; a removal takes `id` out
      of them and reports it; the poll, finding it in what it read and not in the listing,
      reports it again. */
  lemma GoneTwice(s: State, id: Id, notes: seq<Note>)
    requires Inv(s) && s.begun.Some? && id in s.begun.value.prior && id in s.agents && id !in Listed(s.begun.value.records)
    requires Allowed(Removed(s, id), EndPoll(notes, {}))
    ensures
      var end := Apply(Removed(s, id), EndPoll(notes, {}));
      Story(About(end.log, id)) == Contradicted && Goodbyes(About(end.log, id)) == Goodbyes(About(s.log, id)) + 2
  {
    assert Fits(s, id);
    RemovedStory(s.log, id);
    SaysGone(Removed(s, id), notes, {}, id);
    ToldAgain(s.log + [Note(id, AgentGone)], notes, id);
  }

  lemma OneNote(id: Id, kind: EventKind, key: Id)
    ensures About([Note(id, kind)], key) == if key == id then [kind] else []
  {
    AboutOneMore([], Note(id, kind), key);
    assert [] + [Note(id, kind)] == [Note(id, kind)];
  }

  function Served(id: Id): State {
    Start.(agents := map[id := Running], log := [Note(id, AgentDiscovered)])
  }

  function Discover(id: Id): Op {
    Poll([Record(id, Running)], [Note(id, AgentDiscovered)], {})
  }

  lemma ServeOne(id: Id)
    ensures Allowed(Start, Discover(id)) && Apply(Start, Discover(id)) == Served(id)
  {
    var records, notes := [Record(id, Running)], [Note(id, AgentDiscovered)];
    assert records[..0] == [];
    assert Listed(records) == map[id := Running];
    forall key
      ensures About(notes, key) == Diff(Find(map[], key), Find(Listed(records), key), false, true)
    {
      OneNote(id, AgentDiscovered, key);
    }
  }

  /** A poll has read it and a listing without it, and then it was removed. */
  function Reading(id: Id): State {
    Served(id).(begun := Some(Begun(Served(id).agents, [])))
  }

  function Goodbye(id: Id): Op {
    EndPoll([Note(id, AgentGone)], {})
  }

  lemma GoodbyeAllowed(id: Id)
    ensures Allowed(Removed(Reading(id), id), Goodbye(id))
  {
    var notes := [Note(id, AgentGone)];
    forall key
      ensures About(notes, key) == Diff(Find(Served(id).agents, key), Find(Listed([]), key), false, true)
    {
      OneNote(id, AgentGone, key);
    }
  }

  lemma GoodbyeLog(id: Id)
    ensures
      var end := Apply(Removed(Reading(id), id), Goodbye(id));
      end.log == Served(id).log + [Note(id, AgentGone)] + [Note(id, AgentGone)] && end.departures[id] == 1
  {
  }

  lemma GoodbyeTwice(id: Id)
    ensures Allowed(Removed(Reading(id), id), Goodbye(id))
    ensures
      var end := Apply(Removed(Reading(id), id), Goodbye(id));
      Goodbyes(About(end.log, id)) == 2 && end.departures[id] == 1
  {
    GoodbyeAllowed(id);
    GoodbyeLog(id);
    ServedStory(id);
    StoryNoted(Served(id).log, Note(id, AgentGone), id);
    StoryNoted(Served(id).log + [Note(id, AgentGone)], Note(id, AgentGone), id);
  }

  lemma MiddleSteps(id: Id)
    ensures Allowed(Served(id), BeginPoll([])) && Apply(Served(id), BeginPoll([])) == Reading(id)
    ensures Allowed(Reading(id), Rm(id)) && Apply(Reading(id), Rm(id)) == Removed(Reading(id), id)
  {
  }

  function TwiceOps(id: Id): seq<Op> {
    [Discover(id), BeginPoll([]), Rm(id), Goodbye(id)]
  }

  /** Such a run exists: discover an agent, begin a poll that finds it no longer listed,
      remove it, finish the poll. */
  lemma GoneTwiceHappens(id: Id)
    ensures Possible(Start, TwiceOps(id))
    ensures Goodbyes(About(Run(Start, TwiceOps(id)).log, id)) == 2 && Run(Start, TwiceOps(id)).departures[id] == 1
  {
    var ops := TwiceOps(id);
    assert ops[0] == Discover(id) && ops[1] == BeginPoll([]) && ops[2] == Rm(id) && ops[3] == Goodbye(id);
    ServeOne(id);
    MiddleSteps(id);
    GoodbyeTwice(id);
    FourSteps(ops, Served(id), Reading(id), Removed(Reading(id), id));
  }

  lemma ServedStory(id: Id)
    ensures Goodbyes(About(Served(id).log, id)) == 0
  {
    OneNote(id, AgentDiscovered, id);
    assert [AgentDiscovered][..0] == [];
  }

  lemma FourSteps(ops: seq<Op>, s1: State, s2: State, s3: State)
    requires |ops| == 4 && Allowed(Start, ops[0]) && s1 == Apply(Start, ops[0])
    requires Allowed(s1, ops[1]) && s2 == Apply(s1, ops[1])
    requires Allowed(s2, ops[2]) && s3 == Apply(s2, ops[2]) && Allowed(s3, ops[3])
    ensures Possible(Start, ops) && Run(Start, ops) == Apply(s3, ops[3])
  {
    var o1, o2, o3 := ops[1..], ops[1..][1..], ops[1..][1..][1..];
    assert o1[0] == ops[1] && o2[0] == ops[2] && o3[0] == ops[3] && o3[1..] == [];
    var s4 := Apply(s3, ops[3]);
    assert Possible(s4, o3[1..]) && Run(s4, o3[1..]) == s4;
    assert Possible(s3, o3) && Run(s3, o3) == s4;
    assert Possible(s2, o2) && Run(s2, o2) == s4;
    assert Possible(s1, o1) && Run(s1, o1) == s4;
  }
}
