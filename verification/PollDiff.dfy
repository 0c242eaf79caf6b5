/** Polling a workspace: the lifecycle events are the difference between what was
    served and what is listed now, and the log never contradicts itself. */
module PollDiff {
  import opened Common
  import opened EventLog

  type Id = string

  datatype Record = Record(id: Id, status: AgentStatus)

  /** An agent-level event of the workspace. */
  datatype Note = Note(id: Id, kind: EventKind)

  type Agents = map<Id, AgentStatus>

  // ------------------------------------------------------------- one poll

  function Find(agents: Agents, id: Id): Option<AgentStatus> {
    if id in agents then Some(agents[id]) else None
  }

  function Listed(records: seq<Record>): Agents {
    if records == [] then map[]
    else
      var last := records[|records| - 1];
      Listed(records[..|records| - 1])[last.id := last.status]
  }

  /** The registry lists an agent once. */
  ghost predicate Distinct(records: seq<Record>) {
    forall i, j :: 0 <= i < j < |records| ==> records[i].id != records[j].id
  }

  /** The events about one agent, in order. */
  function About(notes: seq<Note>, id: Id): seq<EventKind> {
    if notes == [] then []
    else
      var last := notes[|notes| - 1];
      About(notes[..|notes| - 1], id) + Said(last, id)
  }

  function Said(note: Note, id: Id): seq<EventKind> {
    if note.id == id then [note.kind] else []
  }

  lemma AboutOneMore(notes: seq<Note>, note: Note, id: Id)
    ensures About(notes + [note], id) == About(notes, id) + Said(note, id)
  {
    assert (notes + [note])[..|notes|] == notes;
  }

  lemma Associative<T>(x: seq<T>, y: seq<T>, z: seq<T>)
    ensures x + y + z == x + (y + z)
  {
  }

  lemma AppendOneMore(a: seq<Note>, b: seq<Note>, note: Note, id: Id)
    requires About(a + b, id) == About(a, id) + About(b, id)
    ensures About(a + (b + [note]), id) == About(a, id) + About(b + [note], id)
  {
    Associative(a, b, [note]);
    AboutOneMore(b, note, id);
    AboutOneMore(a + b, note, id);
    Associative(About(a, id), About(b, id), Said(note, id));
  }

  lemma {:induction false} AboutAppend(a: seq<Note>, b: seq<Note>, id: Id)
    ensures About(a + b, id) == About(a, id) + About(b, id)
    decreases |b|
  {
    if b == [] {
      assert a + b == a;
    } else {
      var init, last := b[..|b| - 1], b[|b| - 1];
      assert b == init + [last];
      AboutAppend(a, init, id);
      AppendOneMore(a, init, last, id);
    }
  }

  /** What a poll says about an agent: `was` before, `now` after. */
  function Diff(was: Option<AgentStatus>, now: Option<AgentStatus>, attached: bool, own: bool): seq<EventKind> {
    if !own then []
    else
      match (was, now)
      case (None, None) => []
      case (None, Some(_)) => if attached then [] else [AgentDiscovered]
      case (Some(old_), Some(new_)) => if old_ == new_ then [] else [StatusChanged(old_, new_)]
      case (Some(_), None) => [AgentGone]
  }

  /** The notes say of every agent what the difference says. */
  ghost predicate Reports(notes: seq<Note>, prior: Agents, next: Agents, attached: set<Id>, own: bool) {
    forall id :: About(notes, id) == Diff(Find(prior, id), Find(next, id), id in attached, own)
  }

  /** The records still to attach: live and not followed yet. */
  function ToAttach(records: seq<Record>, attached: set<Id>): seq<Id> {
    if records == [] then []
    else
      var last := records[|records| - 1];
      ToAttach(records[..|records| - 1], attached)
      + if !last.status.IsTerminal() && last.id !in attached then [last.id] else []
  }

  /** A record to attach: its agent may still do something, and nobody follows it here. */
  predicate Wanted(rec: Record, attached: set<Id>) {
    (rec.status == Spawning || rec.status == Running || rec.status == Idle) && rec.id !in attached
  }

  /** `ids` are the records to attach, one for one and in the records' order; `at` says
      where each of them stands. */
  ghost predicate Picked(records: seq<Record>, attached: set<Id>, ids: seq<Id>, at: seq<nat>) {
    && |at| == |ids| && Climbs(at, |records|)
    && (forall k :: 0 <= k < |at| ==> records[at[k]].id == ids[k])
    && forall i :: 0 <= i < |records| ==> (i in at <==> Wanted(records[i], attached))
  }

  lemma PickOneMore(records: seq<Record>, attached: set<Id>, ids: seq<Id>, at: seq<nat>, rec: Record)
    requires Picked(records, attached, ids, at)
    ensures Wanted(rec, attached) ==> Picked(records + [rec], attached, ids + [rec.id], at + [|records|])
    ensures !Wanted(rec, attached) ==> Picked(records + [rec], attached, ids, at)
  {
    var n, all, at' := |records|, records + [rec], at + [|records|];
    ClimbOneMore(at, n);
    forall i | 0 <= i < |all|
      ensures i in at' <==> i in at || i == n
      ensures i < n ==> all[i] == records[i]
    {
    }
  }

  lemma {:induction false} ToAttachPicks(records: seq<Record>, attached: set<Id>) returns (at: seq<nat>)
    ensures Picked(records, attached, ToAttach(records, attached), at)
  {
    if records == [] {
      at := [];
    } else {
      var init, rec := records[..|records| - 1], records[|records| - 1];
      at := ToAttachPicks(init, attached);
      PickOneMore(init, attached, ToAttach(init, attached), at, rec);
      assert init + [rec] == records;
      if Wanted(rec, attached) {
        at := at + [|init|];
      } else {
        assert ToAttach(init, attached) + [] == ToAttach(init, attached);
      }
    }
  }

  /** So the agents attached are those of the records to attach. */
  lemma PickedIff(records: seq<Record>, attached: set<Id>, ids: seq<Id>, at: seq<nat>, id: Id)
    requires Picked(records, attached, ids, at)
    ensures id in ids <==> exists i :: 0 <= i < |records| && records[i].id == id && Wanted(records[i], attached)
  {
    if id in ids {
      var k :| 0 <= k < |ids| && ids[k] == id;
      assert at[k] in at;
    }
    if i :| 0 <= i < |records| && records[i].id == id && Wanted(records[i], attached) {
      assert i in at;
    }
  }

  /** The notes about the listed agents come in the order of the records. */
  ghost predicate InRecordOrder(notes: seq<Note>, records: seq<Record>, at: seq<nat>) {
    && |at| == |notes| && Climbs(at, |records|)
    && forall k :: 0 <= k < |at| ==> records[at[k]].id == notes[k].id
  }

  ghost predicate AllGone(notes: seq<Note>, from: nat) {
    forall k :: from <= k < |notes| ==> notes[k].kind == AgentGone
  }

  lemma {:induction false} ListedIds(records: seq<Record>, id: Id)
    ensures id in Listed(records) <==> exists i :: 0 <= i < |records| && records[i].id == id
  {
    if records != [] {
      ListedIds(records[..|records| - 1], id);
    }
  }

  /** What the records say of an agent, one after the other. */
  function DiffEach(prior: Agents, records: seq<Record>, attached: set<Id>, own: bool, id: Id): seq<EventKind> {
    if records == [] then []
    else
      var last := records[|records| - 1];
      DiffEach(prior, records[..|records| - 1], attached, own, id)
      + if last.id == id then Diff(Find(prior, id), Some(last.status), id in attached, own) else []
  }

  /** The first loop's events: agents that are listed. */
  ghost predicate ReportsListed(notes: seq<Note>, prior: Agents, records: seq<Record>, attached: set<Id>, own: bool) {
    forall id :: About(notes, id) == DiffEach(prior, records, attached, own, id)
  }

  lemma {:induction false} NotListedSaysNothing(prior: Agents, records: seq<Record>, attached: set<Id>, own: bool, id: Id)
    requires id !in Listed(records)
    ensures DiffEach(prior, records, attached, own, id) == []
  {
    if records != [] {
      NotListedSaysNothing(prior, records[..|records| - 1], attached, own, id);
    }
  }

  /** A registry that lists an agent once has one difference to report. */
  lemma {:induction false} DistinctEach(prior: Agents, records: seq<Record>, attached: set<Id>, own: bool, id: Id)
    requires Distinct(records)
    ensures DiffEach(prior, records, attached, own, id)
         == if id in Listed(records) then Diff(Find(prior, id), Find(Listed(records), id), id in attached, own) else []
  {
    if records != [] {
      var init, last := records[..|records| - 1], records[|records| - 1];
      DistinctEach(prior, init, attached, own, id);
      ListedIds(init, last.id);
      if last.id == id {
        NotListedSaysNothing(prior, init, attached, own, id);
      }
    }
  }

  function NotesFor(prior: Agents, rec: Record, attached: set<Id>, own: bool): seq<Note> {
    if rec.id !in prior then (if own && rec.id !in attached then [Note(rec.id, AgentDiscovered)] else [])
    else if own && prior[rec.id] != rec.status then [Note(rec.id, StatusChanged(prior[rec.id], rec.status))]
    else []
  }

  lemma AboutNotesFor(notes: seq<Note>, prior: Agents, rec: Record, attached: set<Id>, own: bool, id: Id)
    ensures About(notes + NotesFor(prior, rec, attached, own), id)
         == About(notes, id) + if id == rec.id then Diff(Find(prior, id), Some(rec.status), id in attached, own) else []
  {
    var more := NotesFor(prior, rec, attached, own);
    if more == [] {
      assert notes + more == notes;
    } else {
      assert notes + more == notes + [more[0]];
      AboutOneMore(notes, more[0], id);
    }
  }

  lemma ListedOneMore(notes: seq<Note>, prior: Agents, records: seq<Record>, i: nat, attached: set<Id>, own: bool)
    requires i < |records| && ReportsListed(notes, prior, records[..i], attached, own)
    ensures ReportsListed(notes + NotesFor(prior, records[i], attached, own), prior, records[..i + 1], attached, own)
  {
    assert records[..i + 1][..i] == records[..i];
    forall id
      ensures About(notes + NotesFor(prior, records[i], attached, own), id) == DiffEach(prior, records[..i + 1], attached, own, id)
    {
      AboutNotesFor(notes, prior, records[i], attached, own, id);
      assert About(notes, id) + [] == About(notes, id);
    }
  }

  /** The agents of `ids` that the second loop reports. */
  predicate Leaves(prior: Agents, next: Agents, own: bool, ids: set<Id>, id: Id) {
    own && id in ids && id in prior && id !in next
  }

  function Gone(leaves: bool): seq<EventKind> {
    if leaves then [AgentGone] else []
  }

  /** The second loop's events, of the agents in `ids`, come after the first loop's. */
  ghost predicate ReportsGone(notes: seq<Note>, listed: seq<Note>, prior: Agents, next: Agents, own: bool, ids: set<Id>) {
    forall id :: About(notes, id) == About(listed, id) + Gone(Leaves(prior, next, own, ids, id))
  }

  lemma SaidGone(about: seq<EventKind>, key: Id, id: Id)
    ensures id == key ==> about + Gone(false) + Said(Note(key, AgentGone), id) == about + Gone(true)
    ensures id != key ==> forall leaves :: about + Gone(leaves) + Said(Note(key, AgentGone), id) == about + Gone(leaves)
  {
  }

  lemma GoneOneMore(notes: seq<Note>, listed: seq<Note>, prior: Agents, next: Agents, own: bool, ids: set<Id>, key: Id)
    requires ReportsGone(notes, listed, prior, next, own, ids) && key !in ids && key in prior
    ensures ReportsGone(if own && key !in next then notes + [Note(key, AgentGone)] else notes, listed, prior, next, own, ids + {key})
  {
    var notes' := if own && key !in next then notes + [Note(key, AgentGone)] else notes;
    forall id ensures About(notes', id) == About(listed, id) + Gone(Leaves(prior, next, own, ids + {key}, id)) {
      AboutOneMore(notes, Note(key, AgentGone), id);
      SaidGone(About(listed, id), key, id);
      assert About(notes, id) == About(listed, id) + Gone(Leaves(prior, next, own, ids, id));
    }
  }

  /** Everything a poll says: of each record in turn, then of agents no longer listed. */
  ghost predicate ReportsAll(notes: seq<Note>, prior: Agents, records: seq<Record>, attached: set<Id>, own: bool) {
    forall id :: About(notes, id) == DiffEach(prior, records, attached, own, id)
                                     + Gone(Leaves(prior, Listed(records), own, prior.Keys, id))
  }

  lemma BothLoops(notes: seq<Note>, listed: seq<Note>, prior: Agents, records: seq<Record>, attached: set<Id>, own: bool)
    requires ReportsListed(listed, prior, records, attached, own)
    requires ReportsGone(notes, listed, prior, Listed(records), own, prior.Keys)
    ensures ReportsAll(notes, prior, records, attached, own)
  {
    forall id
      ensures About(notes, id) == DiffEach(prior, records, attached, own, id)
                                  + Gone(Leaves(prior, Listed(records), own, prior.Keys, id))
    {
      assert About(listed, id) == DiffEach(prior, records, attached, own, id);
      assert About(notes, id) == About(listed, id) + Gone(Leaves(prior, Listed(records), own, prior.Keys, id));
    }
  }

  /** Over a registry that lists each agent once, that is the difference. */
  lemma OnceListed(notes: seq<Note>, prior: Agents, records: seq<Record>, attached: set<Id>, own: bool)
    requires ReportsAll(notes, prior, records, attached, own) && Distinct(records)
    ensures Reports(notes, prior, Listed(records), attached, own)
  {
    forall id
      ensures About(notes, id) == Diff(Find(prior, id), Find(Listed(records), id), id in attached, own)
    {
      DistinctEach(prior, records, attached, own, id);
      assert Diff(Find(prior, id), Find(Listed(records), id), id in attached, own) + []
          == Diff(Find(prior, id), Find(Listed(records), id), id in attached, own);
    }
  }

  /** The agents that are listed: new ones, and ones whose status moved. */
  method DiffListed(prior: Agents, records: seq<Record>, attached: set<Id>, own: bool)
    returns (notes: seq<Note>, next: Agents, toAttach: seq<Id>, ghost at: seq<nat>, ghost said: seq<nat>)
    ensures next == Listed(records) && toAttach == ToAttach(records, attached)
    ensures Picked(records, attached, toAttach, at)
    ensures ReportsListed(notes, prior, records, attached, own) && InRecordOrder(notes, records, said)
  {
    notes, next, toAttach, said := [], map[], [], [];
    for i := 0 to |records|
      invariant InRecordOrder(notes, records[..i], said)
      invariant next == Listed(records[..i]) && toAttach == ToAttach(records[..i], attached)
      invariant ReportsListed(notes, prior, records[..i], attached, own)
    {
      var rec := records[i];
      assert records[..i + 1][..i] == records[..i];
      ListedOneMore(notes, prior, records, i, attached, own);
      if NotesFor(prior, rec, attached, own) != [] {
        said := said + [i];
      }
      notes := notes + NotesFor(prior, rec, attached, own);
      if !rec.status.IsTerminal() && rec.id !in attached {
        toAttach := toAttach + [rec.id];
      }
      next := next[rec.id := rec.status];
    }
    assert records[..|records|] == records;
    at := ToAttachPicks(records, attached);
  }

  /** The agents that are no longer listed. */
  method DiffGone(prior: Agents, next: Agents, own: bool, listed: seq<Note>) returns (notes: seq<Note>)
    ensures ReportsGone(notes, listed, prior, next, own, prior.Keys)
    ensures listed <= notes && AllGone(notes, |listed|)
  {
    notes := listed;
    var ids := prior.Keys;
    while ids != {}
      invariant listed <= notes && AllGone(notes, |listed|)
      invariant ids <= prior.Keys && ReportsGone(notes, listed, prior, next, own, prior.Keys - ids)
      decreases ids
    {
      var id :| id in ids;
      GoneOneMore(notes, listed, prior, next, own, prior.Keys - ids, id);
      assert prior.Keys - ids + {id} == prior.Keys - (ids - {id});
      ids := ids - {id};
      if own && id !in next {
        notes := notes + [Note(id, AgentGone)];
      }
    }
    assert prior.Keys - {} == prior.Keys;
  }

  /** One poll, over the registry's records.  It starts to follow exactly the listed agents
      that are live and not followed yet, in the registry's order, and the notes of
      departures come after all others. */
  method Reconcile(prior: Agents, records: seq<Record>, attached: set<Id>, own: bool)
    returns (notes: seq<Note>, next: Agents, toAttach: seq<Id>, ghost at: seq<nat>, ghost said: seq<nat>)
    ensures next == Listed(records) && toAttach == ToAttach(records, attached)
    ensures Picked(records, attached, toAttach, at)
    ensures forall id :: id in toAttach <==> exists i :: 0 <= i < |records| && records[i].id == id && Wanted(records[i], attached)
    ensures |said| <= |notes| && InRecordOrder(notes[..|said|], records, said) && AllGone(notes, |said|)
    ensures ReportsAll(notes, prior, records, attached, own)
    ensures Distinct(records) ==> Reports(notes, prior, next, attached, own)
  {
    var listed;
    listed, next, toAttach, at, said := DiffListed(prior, records, attached, own);
    forall id
      ensures id in toAttach <==> exists i :: 0 <= i < |records| && records[i].id == id && Wanted(records[i], attached)
    {
      PickedIff(records, attached, toAttach, at, id);
    }
    notes := DiffGone(prior, next, own, listed);
    assert notes[..|said|] == listed;
    BothLoops(notes, listed, prior, records, attached, own);
    if Distinct(records) {
      OnceListed(notes, prior, records, attached, own);
    }
  }

  // ------------------------------------------------ the events as a patch

  /** What a reader of the events knows of an agent that is there. */
  datatype Known = Unknown | Is(status: AgentStatus)

  type View = map<Id, Known>

  function Viewed(agents: Agents): View {
    map id | id in agents :: Is(agents[id])
  }

  /** Apply one event to a reader's view of the agents. */
  function Patch(v: View, note: Note): View {
    match note.kind
    case AgentSpawned => v[note.id := Unknown]
    case AgentDiscovered => v[note.id := Unknown]
    case StatusChanged(_, to) => v[note.id := Is(to)]
    case AgentGone => v - {note.id}
    case _ => v
  }

  function PatchAll(v: View, notes: seq<Note>): View {
    if notes == [] then v else Patch(PatchAll(v, notes[..|notes| - 1]), notes[|notes| - 1])
  }

  /** The event fits the view it is applied to: a new agent is new, a status moves from
      where it was, and an agent that leaves was there. */
  predicate Applies(v: View, note: Note) {
    match note.kind
    case AgentSpawned => note.id !in v
    case AgentDiscovered => note.id !in v
    case StatusChanged(from, _) => note.id in v && v[note.id] == Is(from)
    case AgentGone => note.id in v
    case _ => true
  }

  ghost predicate Clean(v: View, notes: seq<Note>) {
    notes == [] ||
    (Clean(v, notes[..|notes| - 1]) && Applies(PatchAll(v, notes[..|notes| - 1]), notes[|notes| - 1]))
  }

  function Lookup(v: View, id: Id): Option<Known> {
    if id in v then Some(v[id]) else None
  }

  /** One agent's entry under one event about it. */
  function PatchEntry(e: Option<Known>, kind: EventKind): Option<Known> {
    match kind
    case AgentSpawned => Some(Unknown)
    case AgentDiscovered => Some(Unknown)
    case StatusChanged(_, to) => Some(Is(to))
    case AgentGone => None
    case _ => e
  }

  lemma PatchOne(v: View, note: Note, id: Id)
    ensures Lookup(Patch(v, note), id) == if note.id == id then PatchEntry(Lookup(v, id), note.kind) else Lookup(v, id)
  {
  }

  /** An entry under the events said of its agent, of which there is one at most. */
  function Told(e: Option<Known>, said: seq<EventKind>): Option<Known> {
    if said == [] then e else PatchEntry(e, said[0])
  }

  /** Only the events about an agent touch its entry. */
  lemma {:induction false} PatchAt(v: View, notes: seq<Note>, id: Id)
    requires |About(notes, id)| <= 1
    ensures Lookup(PatchAll(v, notes), id) == Told(Lookup(v, id), About(notes, id))
  {
    if notes != [] {
      var init, last := notes[..|notes| - 1], notes[|notes| - 1];
      PatchAt(v, init, id);
      PatchOne(PatchAll(v, init), last, id);
    }
  }

  /** Where each agent has at most one event, and it fits the view, the whole patch is clean. */
  lemma {:induction false} CleanEach(v: View, notes: seq<Note>)
    requires forall id :: |About(notes, id)| <= 1
    requires forall id :: About(notes, id) != [] ==> Applies(v, Note(id, About(notes, id)[0]))
    ensures Clean(v, notes)
  {
    if notes != [] {
      var init, last := notes[..|notes| - 1], notes[|notes| - 1];
      forall id
        ensures |About(init, id)| <= 1
        ensures About(init, id) != [] ==> Applies(v, Note(id, About(init, id)[0]))
      {
        assert |About(notes, id)| <= 1;
        if About(init, id) != [] {
          assert About(notes, id)[0] == About(init, id)[0];
        }
      }
      CleanEach(v, init);
      assert About(notes, last.id) == About(init, last.id) + [last.kind];
      assert About(init, last.id) == [];
      PatchAt(v, init, last.id);
      SameEntryApplies(PatchAll(v, init), v, last);
    }
  }

  lemma SameEntryApplies(v: View, w: View, note: Note)
    requires Lookup(v, note.id) == Lookup(w, note.id) && Applies(w, note)
    ensures Applies(v, note)
  {
  }

  /** What a reader knows after the owner's poll: of an agent that was served, what is
      served now; that a newcomer is there; and nothing of a newcomer that is followed
      already, which its spawn has announced. */
  function Expected(prior: Agents, next: Agents, attached: set<Id>): View {
    map id | id in next && (id in prior || id !in attached) :: if id in prior then Is(next[id]) else Unknown
  }

  function KnownAs(was: Option<AgentStatus>): Option<Known> {
    if was.Some? then Some(Is(was.value)) else None
  }

  lemma ViewedEntry(agents: Agents, id: Id)
    ensures Lookup(Viewed(agents), id) == KnownAs(Find(agents, id))
  {
  }

  lemma ExpectedEntry(prior: Agents, next: Agents, attached: set<Id>, id: Id)
    ensures Lookup(Expected(prior, next, attached), id) ==
      Told(KnownAs(Find(prior, id)), Diff(Find(prior, id), Find(next, id), id in attached, true))
  {
  }

  lemma PatchedEntry(notes: seq<Note>, prior: Agents, next: Agents, attached: set<Id>, id: Id)
    requires About(notes, id) == Diff(Find(prior, id), Find(next, id), id in attached, true)
    ensures Lookup(PatchAll(Viewed(prior), notes), id) == Lookup(Expected(prior, next, attached), id)
    ensures About(notes, id) != [] ==> Applies(Viewed(prior), Note(id, About(notes, id)[0]))
    ensures |About(notes, id)| <= 1
  {
    ViewedEntry(prior, id);
    ExpectedEntry(prior, next, attached, id);
    PatchAt(Viewed(prior), notes, id);
  }

  lemma SameView(v: View, w: View)
    requires forall id :: Lookup(v, id) == Lookup(w, id)
    ensures v == w
  {
    forall id ensures id in v <==> id in w {
      assert Lookup(v, id) == Lookup(w, id);
    }
    forall id | id in v ensures v[id] == w[id] {
      assert Lookup(v, id) == Lookup(w, id);
    }
  }

  /** A poll's events are a correct patch: applied one after the other to what was
      served, in whatever order they came, each of them fits, and they give exactly the
      agents served now (but for newcomers that are followed already), with the status of
      every agent that was served before. */
  lemma PollIsAPatch(notes: seq<Note>, prior: Agents, next: Agents, attached: set<Id>)
    requires Reports(notes, prior, next, attached, true)
    ensures Clean(Viewed(prior), notes)
    ensures PatchAll(Viewed(prior), notes) == Expected(prior, next, attached)
  {
    forall id
      ensures |About(notes, id)| <= 1
      ensures About(notes, id) != [] ==> Applies(Viewed(prior), Note(id, About(notes, id)[0]))
      ensures Lookup(PatchAll(Viewed(prior), notes), id) == Lookup(Expected(prior, next, attached), id)
    {
      PatchedEntry(notes, prior, next, attached, id);
    }
    CleanEach(Viewed(prior), notes);
    SameView(PatchAll(Viewed(prior), notes), Expected(prior, next, attached));
  }

  /** New in this poll, and followed before it. */
  predicate FollowedNewcomer(prior: Agents, next: Agents, attached: set<Id>, id: Id) {
    id in next && id !in prior && id in attached
  }

  lemma ExpectedMisses(prior: Agents, next: Agents, attached: set<Id>, id: Id)
    ensures id in next && id !in Expected(prior, next, attached) <==> FollowedNewcomer(prior, next, attached, id)
    ensures id in Expected(prior, next, attached) ==> id in next
  {
  }

  /** A reader who follows the events alone knows of exactly the agents that are served if
      and only if no newcomer was followed before the poll saw it; the ones it misses are
      those, and it never keeps one that is gone. */
  lemma PatchCompleteIff(notes: seq<Note>, prior: Agents, next: Agents, attached: set<Id>)
    requires Reports(notes, prior, next, attached, true)
    ensures
      var view := PatchAll(Viewed(prior), notes);
      && (forall id :: id in next && id !in view <==> FollowedNewcomer(prior, next, attached, id))
      && (forall id :: id in view ==> id in next)
      && (view.Keys == next.Keys <==> forall id :: !FollowedNewcomer(prior, next, attached, id))
  {
    PollIsAPatch(notes, prior, next, attached);
    var view := Expected(prior, next, attached);
    forall id
      ensures id in next && id !in view <==> FollowedNewcomer(prior, next, attached, id)
      ensures id in view ==> id in next
    {
      ExpectedMisses(prior, next, attached, id);
    }
    SameKeys(view.Keys, next.Keys);
  }

  lemma SameKeys(a: set<Id>, b: set<Id>)
    requires a <= b
    ensures a == b <==> forall id :: id in b ==> id in a
  {
  }

  /** A replica that does not own the workspace says nothing. */
  lemma {:induction false} PeersAreSilent(notes: seq<Note>, prior: Agents, next: Agents, attached: set<Id>)
    requires Reports(notes, prior, next, attached, false)
    ensures notes == []
  {
    if notes != [] {
      var last := notes[|notes| - 1];
      assert About(notes, last.id) == About(notes[..|notes| - 1], last.id) + [last.kind];
    }
  }
}
