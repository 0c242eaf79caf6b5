/** The shared configuration tables, and one replica's pass over the automations. */
module ConfigStore {
  import opened Common
  import opened Timestamps
  import opened UsageWindow
  import opened Schedule
  import opened Automations
  import opened RunHistory

  datatype Listed = Listed(id: Id, row: Row)

  /** `listed` is the table, in the order of the ids. */
  ghost predicate Lists(listed: seq<Listed>, table: Table) {
    && (forall i :: 0 <= i < |listed| ==> listed[i].id in table && table[listed[i].id] == listed[i].row)
    && (forall id :: id in table ==> ListedIn(listed, id))
    && InOrder(listed)
  }

  ghost predicate InOrder(listed: seq<Listed>) {
    forall i, j :: 0 <= i < j < |listed| ==> Before(listed[i].id, listed[j].id)
  }

  /** The first of some ids. */
  method First(ids: set<Id>) returns (id: Id)
    requires ids != {}
    ensures id in ids && forall key :: key in ids && key != id ==> Before(id, key)
  {
    id :| id in ids;
    var rest := ids - {id};
    while rest != {}
      invariant rest <= ids && id in ids && id !in rest
      invariant forall key :: key in ids && key !in rest && key != id ==> Before(id, key)
      decreases rest
    {
      var key :| key in rest;
      rest := rest - {key};
      BeforeTotal(id, key);
      if Before(key, id) {
        forall other | other in ids && other !in rest && other != key
          ensures Before(key, other)
        {
          if other != id {
            BeforeTransitive(key, id, other);
          }
        }
        id := key;
      }
    }
  }

  /** The listing so far: in order, and every automation of the table but those in `ids`,
      which all come later. */
  ghost predicate ListsAllBut(listed: seq<Listed>, table: Table, ids: set<Id>) {
    && ids <= table.Keys
    && (forall i :: 0 <= i < |listed| ==> listed[i].id in table && table[listed[i].id] == listed[i].row)
    && InOrder(listed)
    && (forall i, key :: 0 <= i < |listed| && key in ids ==> Before(listed[i].id, key))
    && (forall id :: id in table && id !in ids ==> ListedIn(listed, id))
  }

  ghost predicate ListedIn(listed: seq<Listed>, id: Id) {
    exists i :: 0 <= i < |listed| && listed[i].id == id
  }

  lemma ListedStays(listed: seq<Listed>, more: Listed, id: Id)
    requires ListedIn(listed, id) || more.id == id
    ensures ListedIn(listed + [more], id)
  {
    if more.id == id {
      assert (listed + [more])[|listed|].id == id;
    } else {
      var i :| 0 <= i < |listed| && listed[i].id == id;
      assert (listed + [more])[i].id == id;
    }
  }

  lemma InOrderOneMore(listed: seq<Listed>, more: Listed)
    requires InOrder(listed) && forall i :: 0 <= i < |listed| ==> Before(listed[i].id, more.id)
    ensures InOrder(listed + [more])
  {
  }

  lemma ListOneMore(listed: seq<Listed>, table: Table, ids: set<Id>, id: Id)
    requires ListsAllBut(listed, table, ids) && id in ids
    requires forall key :: key in ids && key != id ==> Before(id, key)
    ensures ListsAllBut(listed + [Listed(id, table[id])], table, ids - {id})
  {
    var more := listed + [Listed(id, table[id])];
    InOrderOneMore(listed, Listed(id, table[id]));
    forall key | key in table && key !in ids - {id} ensures ListedIn(more, key) {
      ListedStays(listed, Listed(id, table[id]), key);
    }
  }

  /** What one listed automation owes at `now`, and asks for unless the database refuses
      the statement, which is logged and skipped. */
  function DueFor(reader: Reader, l: Listed, now: Instant, refused: set<Id>): Option<Win> {
    if l.id in refused then None
    else
      match Due(reader, l.row, now)
      case None => None
      case Some(t) => Some(Win(l.id, t, Spell(t)))
  }

  /** The table and the wins once `due` was claimed. */
  datatype Claims = Claims(table: Table, won: seq<Win>)

  function ClaimOne(c: Claims, due: Option<Win>): Claims {
    match due
    case None => c
    case Some(w) => if Claimable(c.table, w.id, w.at) then Claims(Claimed(c.table, w.id, w.at), c.won + [w]) else c
  }

  function ClaimAll(reader: Reader, listed: seq<Listed>, now: Instant, refused: set<Id>, table: Table): Claims {
    if listed == [] then Claims(table, [])
    else ClaimOne(ClaimAll(reader, listed[..|listed| - 1], now, refused, table), DueFor(reader, listed[|listed| - 1], now, refused))
  }

  lemma ClaimOneMore(reader: Reader, listed: seq<Listed>, i: nat, now: Instant, refused: set<Id>, table: Table)
    requires i < |listed|
    ensures ClaimAll(reader, listed[..i + 1], now, refused, table)
         == ClaimOne(ClaimAll(reader, listed[..i], now, refused, table), DueFor(reader, listed[i], now, refused))
  {
    assert listed[..i + 1][..i] == listed[..i];
  }

  // --------------------------------------------------- what a pass comes to

  /** The win of an automation whose row nobody else touched. */
  function WinOf(table: Table, due: Option<Win>): Option<Win> {
    if due.Some? && Claimable(table, due.value.id, due.value.at) then due else None
  }

  function Settled(row: Row, win: Option<Win>): Row {
    if win.Some? then row.(lastFired := Some(win.value.at)) else row
  }

  lemma ClaimOneElsewhere(c: Claims, due: Option<Win>, id: Id)
    requires due.Some? ==> due.value.id != id
    ensures id in ClaimOne(c, due).table <==> id in c.table
    ensures id in c.table ==> ClaimOne(c, due).table[id] == c.table[id]
    ensures forall w: Win :: w.id == id ==> (w in ClaimOne(c, due).won <==> w in c.won)
  {
  }

  /** Automations not listed are left alone and win nothing. */
  lemma {:induction false} ClaimAllElsewhere(reader: Reader, listed: seq<Listed>, now: Instant, refused: set<Id>, table: Table, id: Id)
    requires forall i :: 0 <= i < |listed| ==> listed[i].id != id
    ensures var c := ClaimAll(reader, listed, now, refused, table);
      && (id in c.table <==> id in table) && (id in table ==> c.table[id] == table[id])
      && forall w: Win :: w in c.won ==> w.id != id
  {
    if listed != [] {
      var init, l := listed[..|listed| - 1], listed[|listed| - 1];
      ClaimAllElsewhere(reader, init, now, refused, table, id);
      ClaimOneElsewhere(ClaimAll(reader, init, now, refused, table), DueFor(reader, l, now, refused), id);
    }
  }

  lemma ClaimOneHere(c: Claims, due: Option<Win>, id: Id, row: Row)
    requires due.Some? ==> due.value.id == id
    requires id in c.table && c.table[id] == row && forall w: Win :: w in c.won ==> w.id != id
    ensures var win := WinOf(map[id := row], due);
      && id in ClaimOne(c, due).table && ClaimOne(c, due).table[id] == Settled(row, win)
      && forall w: Win :: w in ClaimOne(c, due).won && w.id == id <==> win == Some(w)
  {
  }

  /** A pass deals with each automation once: it fires if it owes a tick that can be
      claimed, and then its fire time is that tick's; otherwise it is as it was. */
  lemma {:induction false} PassSettles(reader: Reader, listed: seq<Listed>, now: Instant, refused: set<Id>, table: Table, k: nat)
    requires k < |listed| && listed[k].id in table && table[listed[k].id] == listed[k].row
    requires forall i, j :: 0 <= i < j < |listed| ==> listed[i].id != listed[j].id
    ensures var c := ClaimAll(reader, listed, now, refused, table);
      var id := listed[k].id;
      var win := WinOf(map[id := listed[k].row], DueFor(reader, listed[k], now, refused));
      && id in c.table && c.table[id] == Settled(listed[k].row, win)
      && forall w: Win :: w in c.won && w.id == id <==> win == Some(w)
    decreases |listed|
  {
    var init, l := listed[..|listed| - 1], listed[|listed| - 1];
    var c := ClaimAll(reader, init, now, refused, table);
    if k < |init| {
      PassSettles(reader, init, now, refused, table, k);
      ClaimOneElsewhere(c, DueFor(reader, l, now, refused), listed[k].id);
    } else {
      ClaimAllElsewhere(reader, init, now, refused, table, l.id);
      ClaimOneHere(c, DueFor(reader, l, now, refused), l.id, l.row);
    }
  }

  /** So over the whole table, as listed. */
  lemma PassSettlesAll(reader: Reader, listed: seq<Listed>, now: Instant, refused: set<Id>, table: Table, id: Id)
    requires Lists(listed, table) && id in table
    ensures var c := ClaimAll(reader, listed, now, refused, table);
      var win := WinOf(map[id := table[id]], DueFor(reader, Listed(id, table[id]), now, refused));
      && id in c.table && c.table[id] == Settled(table[id], win)
      && forall w: Win :: w in c.won && w.id == id <==> win == Some(w)
  {
    var k :| 0 <= k < |listed| && listed[k].id == id;
    forall i, j | 0 <= i < j < |listed| ensures listed[i].id != listed[j].id {
      BeforeAsymmetric(listed[i].id, listed[j].id);
    }
    PassSettles(reader, listed, now, refused, table, k);
  }

  /** A win's run was recorded, or the database refused it and it is lost. */
  ghost predicate Kept(rows: seq<Run>, win: Win, spawn: Win -> string, unsaved: set<Id>, rows': seq<Run>) {
    if win.id in unsaved then rows' == rows else Recorded(rows, Run(win.id, win.at, spawn(win)), rows')
  }

  /** The runs of `won` were recorded one after the other. */
  ghost predicate Saved(before: seq<Run>, won: seq<Win>, spawn: Win -> string, unsaved: set<Id>, after: seq<Run>) {
    if won == [] then after == before
    else
      var init, win := won[..|won| - 1], won[|won| - 1];
      exists mid :: Saved(before, init, spawn, unsaved, mid) && Kept(mid, win, spawn, unsaved, after)
  }

  lemma SavedOneMore(before: seq<Run>, won: seq<Win>, spawn: Win -> string, unsaved: set<Id>, mid: seq<Run>, win: Win, after: seq<Run>)
    requires Saved(before, won, spawn, unsaved, mid) && Kept(mid, win, spawn, unsaved, after)
    ensures Saved(before, won + [win], spawn, unsaved, after)
  {
    var all := won + [win];
    assert all[..|all| - 1] == won && all[|all| - 1] == win;
    assert Saved(before, all[..|all| - 1], spawn, unsaved, mid);
  }

  // ------------------------------------------------ the pass, written out

  /** The tick of `win` is one its automation owes, and later than when it last fired. */
  ghost predicate Wins(reader: Reader, table: Table, now: Instant, refused: set<Id>, win: Win) {
    && win.id in table && win.id !in refused && win.at == Spell(win.tick) && Owes(reader, table[win.id], now, win.tick)
    && (table[win.id].lastFired.None? || Before(table[win.id].lastFired.value, win.at))
  }

  lemma WinOfIff(reader: Reader, table: Table, now: Instant, refused: set<Id>, w: Win)
    requires w.id in table
    ensures WinOf(map[w.id := table[w.id]], DueFor(reader, Listed(w.id, table[w.id]), now, refused)) == Some(w) <==> Wins(reader, table, now, refused, w)
  {
    DueIff(reader, table[w.id], now, w.tick);
  }

  /** A pass wins exactly the ticks owed that are later than the stored fire times. */
  lemma PassWinsIff(reader: Reader, listed: seq<Listed>, now: Instant, refused: set<Id>, table: Table, w: Win)
    requires Lists(listed, table)
    ensures w in ClaimAll(reader, listed, now, refused, table).won <==> Wins(reader, table, now, refused, w)
  {
    if w.id in table {
      PassSettlesAll(reader, listed, now, refused, table, w.id);
      WinOfIff(reader, table, now, refused, w);
    } else {
      ClaimAllElsewhere(reader, listed, now, refused, table, w.id);
    }
  }

  /** Nothing else happens to the table: a winner's fire time becomes the tick it won,
      every other row stays as it was, and no row comes or goes. */
  lemma PassMovesWinners(reader: Reader, listed: seq<Listed>, now: Instant, refused: set<Id>, table: Table, id: Id)
    requires Lists(listed, table)
    ensures var c := ClaimAll(reader, listed, now, refused, table);
      && (id in c.table <==> id in table)
      && (id in table && (forall w: Win :: w in c.won ==> w.id != id) ==> c.table[id] == table[id])
      && forall w: Win :: w in c.won && w.id == id && id in table ==> c.table[id] == table[id].(lastFired := Some(w.at))
  {
    if id in table {
      PassSettlesAll(reader, listed, now, refused, table, id);
    } else {
      ClaimAllElsewhere(reader, listed, now, refused, table, id);
    }
  }

  ghost predicate WonInOrder(won: seq<Win>) {
    forall i, j :: 0 <= i < j < |won| ==> Before(won[i].id, won[j].id)
  }

  /** The wins come in the order of the ids, so at most one for each. */
  lemma {:induction false} PassWinsInOrder(reader: Reader, listed: seq<Listed>, now: Instant, refused: set<Id>, table: Table)
    requires InOrder(listed)
    ensures var won := ClaimAll(reader, listed, now, refused, table).won;
      WonInOrder(won) && forall w: Win :: w in won ==> ListedIn(listed, w.id)
  {
    if listed != [] {
      var init, l := listed[..|listed| - 1], listed[|listed| - 1];
      PassWinsInOrder(reader, init, now, refused, table);
      var before := ClaimAll(reader, init, now, refused, table).won;
      forall w: Win | w in before
        ensures Before(w.id, l.id) && ListedIn(listed, w.id)
      {
        var i :| 0 <= i < |init| && init[i].id == w.id;
        assert listed[i] == init[i];
      }
      assert listed[|listed| - 1].id == l.id;
      var after := ClaimAll(reader, listed, now, refused, table).won;
      forall i, j | 0 <= i < j < |after|
        ensures Before(after[i].id, after[j].id)
      {
        if j == |before| {
          assert after[i] in before;
        }
      }
    }
  }

  /** What a pass comes to: the table it leaves and the ticks it won, from the table it
      found alone. */
  ghost predicate PassedOver(reader: Reader, now: Instant, refused: set<Id>, before: Table, after: Table, won: seq<Win>) {
    && WonInOrder(won)
    && (forall w: Win :: w in won <==> Wins(reader, before, now, refused, w))
    && after.Keys == before.Keys
    && (forall id :: id in before && (forall w: Win :: w in won ==> w.id != id) ==> after[id] == before[id])
    && forall w: Win :: w in won ==> w.id in before && after[w.id] == before[w.id].(lastFired := Some(w.at))
  }

  lemma PassIs(reader: Reader, listed: seq<Listed>, now: Instant, refused: set<Id>, table: Table)
    requires Lists(listed, table)
    ensures var c := ClaimAll(reader, listed, now, refused, table); PassedOver(reader, now, refused, table, c.table, c.won)
  {
    var c := ClaimAll(reader, listed, now, refused, table);
    PassWinsInOrder(reader, listed, now, refused, table);
    forall w: Win
      ensures w in c.won <==> Wins(reader, table, now, refused, w)
    {
      PassWinsIff(reader, listed, now, refused, table, w);
    }
    forall id: Id
      ensures id in c.table <==> id in table
      ensures id in table && (forall w: Win :: w in c.won ==> w.id != id) ==> c.table[id] == table[id]
      ensures forall w: Win :: w in c.won && w.id == id && id in table ==> c.table[id] == table[id].(lastFired := Some(w.at))
    {
      PassMovesWinners(reader, listed, now, refused, table, id);
    }
  }

  /** An automation that is disabled, on a webhook or anchored at a text that does not
      parse wins nothing, so it keeps its row. */
  lemma PassLeavesAlone(reader: Reader, now: Instant, refused: set<Id>, before: Table, after: Table, won: seq<Win>, id: Id)
    requires PassedOver(reader, now, refused, before, after, won) && id in before
    requires
      || !before[id].enabled || before[id].trigger.Webhook?
      || reader.parse(if before[id].lastFired.Some? then before[id].lastFired.value else before[id].createdAt) == None
    ensures forall w: Win :: w in won ==> w.id != id
    ensures id in after && after[id] == before[id]
  {
  }

  // ------------------------------------------------------ the runs of a pass

  lemma KeptElsewhere(rows: seq<Run>, win: Win, spawn: Win -> string, unsaved: set<Id>, rows': seq<Run>, id: Id)
    requires Kept(rows, win, spawn, unsaved, rows') && win.id != id
    ensures RunsOf(rows', id) == RunsOf(rows, id)
  {
    OthersInclude(rows, win.id, id);
    OthersInclude(rows', win.id, id);
  }

  /** An automation that won nothing has no run recorded and none removed. */
  lemma {:induction false} SavedElsewhere(before: seq<Run>, won: seq<Win>, spawn: Win -> string, unsaved: set<Id>, after: seq<Run>, id: Id)
    requires Saved(before, won, spawn, unsaved, after) && forall w: Win :: w in won ==> w.id != id
    ensures RunsOf(after, id) == RunsOf(before, id)
    decreases |won|
  {
    if won != [] {
      var mid := LastSaved(before, won, spawn, unsaved, after);
      assert won[|won| - 1] in won;
      SavedElsewhere(before, won[..|won| - 1], spawn, unsaved, mid, id);
      KeptElsewhere(mid, won[|won| - 1], spawn, unsaved, after, id);
    }
  }

  lemma LastSaved(before: seq<Run>, won: seq<Win>, spawn: Win -> string, unsaved: set<Id>, after: seq<Run>) returns (mid: seq<Run>)
    requires Saved(before, won, spawn, unsaved, after) && won != []
    ensures Saved(before, won[..|won| - 1], spawn, unsaved, mid) && Kept(mid, won[|won| - 1], spawn, unsaved, after)
  {
    var init, win := won[..|won| - 1], won[|won| - 1];
    mid :| Saved(before, init, spawn, unsaved, mid) && Kept(mid, win, spawn, unsaved, after);
  }

  /** A winner has one run recorded, of the tick it won and what came of acting on it,
      and of its earlier ones only the newest are left. */
  lemma {:induction false} SavedHere(before: seq<Run>, won: seq<Win>, spawn: Win -> string, unsaved: set<Id>, after: seq<Run>, k: nat, w: Win)
    returns (mid: seq<Run>, mid': seq<Run>)
    requires Saved(before, won, spawn, unsaved, after) && k < |won| && won[k] == w
    requires forall i :: 0 <= i < |won| && i != k ==> won[i].id != w.id
    ensures RunsOf(mid, w.id) == RunsOf(before, w.id) && RunsOf(after, w.id) == RunsOf(mid', w.id)
    ensures Kept(mid, w, spawn, unsaved, mid')
    decreases |won|
  {
    var init := won[..|won| - 1];
    var last := LastSaved(before, won, spawn, unsaved, after);
    if k == |init| {
      SavedElsewhere(before, init, spawn, unsaved, last, w.id);
      mid, mid' := last, after;
    } else {
      mid, mid' := SavedHere(before, init, spawn, unsaved, last, k, w);
      KeptElsewhere(last, won[|won| - 1], spawn, unsaved, after, w.id);
    }
  }

  class Store {
    var automations: Table
    var runs: seq<Run>

    constructor ()
      ensures automations == map[] && runs == []
    {
      automations, runs := map[], [];
    }

    /** `SELECT .. ORDER BY id`. */
    method ListAutomations() returns (listed: seq<Listed>)
      ensures Lists(listed, automations)
    {
      listed := [];
      var ids := automations.Keys;
      while ids != {}
        invariant ListsAllBut(listed, automations, ids)
        decreases ids
      {
        var id := First(ids);
        ListOneMore(listed, automations, ids, id);
        listed := listed + [Listed(id, automations[id])];
        ids := ids - {id};
      }
    }

    method ClaimAutomationFire(id: Id, at: string) returns (won: bool)
      modifies this`automations
      ensures automations == Claimed(old(automations), id, at)
      ensures won == Claimable(old(automations), id, at)
      ensures won <==> id in old(automations) && (old(automations)[id].lastFired.None? || Before(old(automations)[id].lastFired.value, at))
      ensures automations == if won then old(automations)[id := old(automations)[id].(lastFired := Some(at))] else old(automations)
    {
      won := id in automations && (automations[id].lastFired.None? || Before(automations[id].lastFired.value, at));
      if won {
        automations := automations[id := automations[id].(lastFired := Some(at))];
      }
    }

    method UpsertAutomation(id: Id, row: Row)
      modifies this`automations
      ensures automations == Upserted(old(automations), id, row)
      ensures automations == old(automations)[id :=
                Row(row.trigger, row.enabled, row.createdAt, if id in old(automations) then old(automations)[id].lastFired else None)]
    {
      if id in automations {
        automations := automations[id := row.(lastFired := automations[id].lastFired)];
      } else {
        automations := automations[id := row.(lastFired := None)];
      }
    }

    /** Deleting an automation takes its run history with it, and nobody else's. */
    method DeleteAutomation(id: Id) returns (found: bool)
      modifies this
      ensures found == (id in old(automations)) && automations == old(automations) - {id}
      ensures runs == Others(old(runs), id)
      ensures RunsOf(runs, id) == [] && forall other :: other != id ==> RunsOf(runs, other) == RunsOf(old(runs), other)
    {
      NoneOfIt(runs, id);
      forall other | other != id
        ensures RunsOf(Others(runs, id), other) == RunsOf(runs, other)
      {
        OthersInclude(runs, id, other);
      }
      found := id in automations;
      runs := Others(runs, id);
      automations := automations - {id};
    }

    /** A run that cannot be recorded is logged, and lost. */
    method SaveRun(run: Run, fault: bool)
      modifies this`runs
      ensures if fault then runs == old(runs) else Recorded(old(runs), run, runs)
    {
      if !fault {
        runs := RecordRun(runs, run);
      }
    }

    /** Claim what is owed and, if that wins, act on it. */
    method FireOne(due: Option<Win>, spawn: Win -> string, unsaved: set<Id>, ghost before: seq<Run>, won: seq<Win>) returns (won': seq<Win>)
      requires Saved(before, won, spawn, unsaved, runs)
      modifies this
      ensures Claims(automations, won') == ClaimOne(Claims(old(automations), won), due)
      ensures Saved(before, won', spawn, unsaved, runs)
    {
      won' := won;
      if due.Some? {
        var win := due.value;
        var claimed := ClaimAutomationFire(win.id, win.at);
        if claimed {
          ghost var mid := runs;
          SaveRun(Run(win.id, win.at, spawn(win)), win.id in unsaved);
          SavedOneMore(before, won, spawn, unsaved, mid, win, runs);
          won' := won + [win];
        }
      }
    }

    /** One pass over the automations.  `spawn` is the agent, or the error, that comes of
        acting on a win; the database refuses the claims of `refused` and the runs of
        `unsaved`, and with `unlisted` the list itself, which ends the pass. */
    method TickAutomations(reader: Reader, now: Instant, spawn: Win -> string, unlisted: bool, refused: set<Id>, unsaved: set<Id>)
      returns (ghost listed: seq<Listed>, won: seq<Win>)
      modifies this
      ensures Lists(listed, old(automations))
      ensures unlisted ==> won == [] && automations == old(automations) && runs == old(runs)
      ensures !unlisted ==> Claims(automations, won) == ClaimAll(reader, listed, now, refused, old(automations))
      ensures !unlisted ==> PassedOver(reader, now, refused, old(automations), automations, won)
      ensures Saved(old(runs), won, spawn, unsaved, runs)
      ensures forall id :: (forall w: Win :: w in won ==> w.id != id) ==> RunsOf(runs, id) == RunsOf(old(runs), id)
    {
      var list := ListAutomations();
      listed, won := list, [];
      if unlisted {
        return;
      }
      for i := 0 to |list|
        invariant Claims(automations, won) == ClaimAll(reader, list[..i], now, refused, old(automations))
        invariant Saved(old(runs), won, spawn, unsaved, runs)
      {
        ClaimOneMore(reader, list, i, now, refused, old(automations));
        won := FireOne(DueFor(reader, list[i], now, refused), spawn, unsaved, old(runs), won);
      }
      assert list[..|list|] == list;
      PassIs(reader, listed, now, refused, old(automations));
      forall id | forall w: Win :: w in won ==> w.id != id
        ensures RunsOf(runs, id) == RunsOf(old(runs), id)
      {
        SavedElsewhere(old(runs), won, spawn, unsaved, runs, id);
      }
    }
  }
}
