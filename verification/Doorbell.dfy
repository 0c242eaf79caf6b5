/** The clustered bus: a notification names a stream, the subscriber reads the
    stream's new events from the log.  Notifications may be lost, doubled, late or
    for other streams, and a read may fail. */
module Doorbell {
  import opened Common
  import opened EventLog

  // ------------------------------------------------------------- the payload

  /** A seq in decimal. */
  function Decimal(n: nat): (s: string)
    ensures |s| > 0
    ensures forall i :: 0 <= i < |s| ==> '0' <= s[i] <= '9'
  {
    var last := [('0' as int + n % 10) as char];
    if n < 10 then last else Decimal(n / 10) + last
  }

  /** `publish`'s payload names the event and does not carry it. */
  function Payload(key: string, no: nat): string {
    key + ":" + Decimal(no)
  }

  /** `rsplit_once(':')`. */
  function SplitLast(s: string): Option<(string, string)> {
    if s == [] then None
    else if s[|s| - 1] == ':' then Some((s[..|s| - 1], ""))
    else
      match SplitLast(s[..|s| - 1])
      case None => None
      case Some((before, after)) => Some((before, after + [s[|s| - 1]]))
  }

  lemma {:induction false} SplitAfterColon(before: string, after: string)
    requires ':' !in after
    ensures SplitLast(before + ":" + after) == Some((before, after))
    decreases |after|
  {
    var s := before + ":" + after;
    if after == [] {
      assert s[..|s| - 1] == before;
    } else {
      var init := after[..|after| - 1];
      assert s[..|s| - 1] == before + ":" + init;
      SplitAfterColon(before, init);
      assert init + [s[|s| - 1]] == after;
    }
  }

  /** Without a colon there is nothing to split. */
  lemma {:induction false} NoColonNoSplit(s: string)
    ensures SplitLast(s) == None <==> ':' !in s
  {
    if s != "" {
      NoColonNoSplit(s[..|s| - 1]);
      assert s == s[..|s| - 1] + [s[|s| - 1]];
    }
  }

  /** The decimals read back as the number, and there is no zero in front. */
  lemma {:induction false} DecimalReads(n: nat)
    ensures Numeral(Decimal(n)) == n && (Decimal(n)[0] == '0' <==> n == 0)
  {
    var last := [('0' as int + n % 10) as char];
    if n < 10 {
      assert last[..0] == "";
    } else {
      DecimalReads(n / 10);
      assert Decimal(n)[..|Decimal(n / 10)|] == Decimal(n / 10);
    }
  }

  /** Splitting on the last colon recovers key and seq for every key, colons in the
      key included. */
  lemma PayloadRoundTrip(key: string, no: nat)
    ensures SplitLast(Payload(key, no)) == Some((key, Decimal(no)))
    ensures Numeral(SplitLast(Payload(key, no)).value.1) == no
  {
    SplitAfterColon(key, Decimal(no));
    DecimalReads(no);
  }

  // ------------------------------------------------------------ subscribing

  /** One notification and the log as the replay it causes finds it, if it does. */
  datatype Bell = Bell(payload: string, log: Option<Rows>)

  function LastNo(last: nat, events: seq<Event>): nat {
    if events == [] then last else events[|events| - 1].no
  }

  /** What one replay adds for a subscriber that has delivered up to `last`. */
  function Delta(log: Option<Rows>, key: string, last: nat): seq<Event> {
    match log
    case None => []
    case Some(rows) => Replay(rows, key, last + 1)
  }

  predicate Rings(bell: Bell, key: string) {
    var split := SplitLast(bell.payload);
    split.Some? && split.value.0 == key
  }

  /** Everything delivered to a subscriber of `key`, bell by bell. */
  function Delivered(bells: seq<Bell>, key: string): seq<Event> {
    if bells == [] then []
    else
      var before := Delivered(bells[..|bells| - 1], key);
      var bell := bells[|bells| - 1];
      if Rings(bell, key) then before + Delta(bell.log, key, LastNo(0, before)) else before
  }

  ghost predicate Sound(bells: seq<Bell>) {
    forall i :: 0 <= i < |bells| && bells[i].log.Some? ==> UniqueSlots(bells[i].log.value)
  }

  /** The inner loop of both subscriptions: yield what is past the high-water and
      advance it, skipping anything at or below. */
  method YieldNew(events: seq<Event>, last: nat) returns (news: seq<Event>, last': nat)
    requires Ascending(events) && forall i :: 0 <= i < |events| ==> events[i].no > last
    ensures news == events && last' == LastNo(last, events)
  {
    news, last' := [], last;
    for j := 0 to |events|
      invariant news == events[..j]
      invariant last' == if j == 0 then last else events[j - 1].no
    {
      if events[j].no > last' {
        last' := events[j].no;
        news := news + [events[j]];
      }
    }
    assert events[..|events|] == events;
  }

  lemma ReplayIsNew(rows: Rows, key: string, last: nat)
    requires UniqueSlots(rows)
    ensures
      var events := Replay(rows, key, last + 1);
      Ascending(events) && forall i :: 0 <= i < |events| ==> events[i].no > last && events[i].Key() == key
  {
    ReplayExact(rows, key, last + 1);
    var events := Replay(rows, key, last + 1);
    assert forall i :: 0 <= i < |events| ==> events[i] in events;
  }

  /** What one notification brings: a replay of the stream, if it names the stream. */
  function News(bell: Bell, key: string, last: nat): seq<Event> {
    if Rings(bell, key) then Delta(bell.log, key, last) else []
  }

  lemma DeliveredOneMore(bells: seq<Bell>, i: nat, key: string, before: seq<Event>)
    requires i < |bells| && before == Delivered(bells[..i], key)
    ensures Delivered(bells[..i + 1], key) == before + News(bells[i], key, LastNo(0, before))
  {
    assert bells[..i + 1][..i] == bells[..i];
    assert before + [] == before;
  }

  lemma LastNoAppend(out: seq<Event>, news: seq<Event>)
    ensures LastNo(0, out + news) == LastNo(LastNo(0, out), news)
  {
    assert out + [] == out;
  }

  method AnswerBell(bell: Bell, key: string, last: nat) returns (news: seq<Event>, last': nat)
    requires bell.log.Some? ==> UniqueSlots(bell.log.value)
    ensures news == News(bell, key, last) && last' == LastNo(last, news)
  {
    news, last' := [], last;
    var split := SplitLast(bell.payload);
    if split.Some? && split.value.0 == key && bell.log.Some? {
      var events := Replay(bell.log.value, key, last + 1);
      ReplayIsNew(bell.log.value, key, last);
      news, last' := YieldNew(events, last);
    }
  }

  /** The subscription loop. */
  method Subscribe(bells: seq<Bell>, key: string) returns (out: seq<Event>)
    requires Sound(bells)
    ensures out == Delivered(bells, key)
  {
    out := [];
    var last := 0;
    for i := 0 to |bells|
      invariant out == Delivered(bells[..i], key)
      invariant last == LastNo(0, out)
    {
      DeliveredOneMore(bells, i, key, out);
      var news;
      news, last := AnswerBell(bells[i], key, last);
      LastNoAppend(out, news);
      out := out + news;
    }
    assert bells[..|bells|] == bells;
  }

  ghost predicate FromLogs(bells: seq<Bell>, key: string, e: Event) {
    exists i :: 0 <= i < |bells| && bells[i].log.Some? && Stores(bells[i].log.value, e) && e.Key() == key
  }

  lemma FromLogsGrows(bells: seq<Bell>, key: string, e: Event)
    requires bells != [] && FromLogs(bells[..|bells| - 1], key, e)
    ensures FromLogs(bells, key, e)
  {
    var init := bells[..|bells| - 1];
    var i :| 0 <= i < |init| && init[i].log.Some? && Stores(init[i].log.value, e) && e.Key() == key;
    assert bells[i] == init[i];
  }

  /** What a replay adds goes on where delivery stopped. */
  lemma DeltaGoesOn(before: seq<Event>, log: Option<Rows>, key: string)
    requires Ascending(before) && (log.Some? ==> UniqueSlots(log.value))
    ensures Ascending(before + Delta(log, key, LastNo(0, before)))
  {
    if log.Some? {
      ReplayIsNew(log.value, key, LastNo(0, before));
    }
  }

  lemma DeltaIsStored(log: Option<Rows>, key: string, last: nat, e: Event)
    requires (log.Some? ==> UniqueSlots(log.value)) && e in Delta(log, key, last)
    ensures log.Some? && Stores(log.value, e) && e.Key() == key
  {
    ReplayExact(log.value, key, last + 1);
  }

  lemma {:induction false} DeliveredIsStored(bells: seq<Bell>, key: string, e: Event)
    requires Sound(bells) && e in Delivered(bells, key)
    ensures FromLogs(bells, key, e)
  {
    var init, bell := bells[..|bells| - 1], bells[|bells| - 1];
    var before := Delivered(init, key);
    if e in before {
      DeliveredIsStored(init, key, e);
      FromLogsGrows(bells, key, e);
    } else {
      DeltaIsStored(bell.log, key, LastNo(0, before), e);
    }
  }

  /** Whatever bells are lost, doubled or reordered and whichever replays fail, a
      subscriber sees its own stream's durable events in strictly increasing seq,
      so none twice. */
  lemma {:induction false} DeliveryIsOrdered(bells: seq<Bell>, key: string)
    requires Sound(bells)
    ensures Ascending(Delivered(bells, key))
    ensures forall e :: e in Delivered(bells, key) ==> FromLogs(bells, key, e)
  {
    forall e | e in Delivered(bells, key)
      ensures FromLogs(bells, key, e)
    {
      DeliveredIsStored(bells, key, e);
    }
    if bells != [] {
      DeliveryIsOrdered(bells[..|bells| - 1], key);
      DeltaGoesOn(Delivered(bells[..|bells| - 1], key), bells[|bells| - 1].log, key);
    }
  }

  // ---------------------------------------------- delivery of the whole stream

  /** The stream as one ordered read of the log. */
  function Whole(rows: Rows, key: string): seq<Event> {
    Replay(rows, key, 1)
  }

  ghost predicate Extends(rows: Rows, rows': Rows) {
    forall e :: Stores(rows, e) ==> Stores(rows', e)
  }

  /** Every event of the stream that is new in `rows'` has a higher seq than all the
      old ones: the stream's appends were committed in seq order. */
  ghost predicate InSeqOrder(rows: Rows, rows': Rows, key: string) {
    forall e :: Stores(rows', e) && !Stores(rows, e) && e.Key() == key && e.no >= 1 ==>
      e.no > LastNo(0, Whole(rows, key))
  }

  lemma JoinIsWhole(before: seq<Event>, delta: seq<Event>, whole: seq<Event>)
    requires Ascending(before + delta) && Ascending(whole)
    requires forall e :: e in before || e in delta <==> e in whole
    ensures before + delta == whole
  {
    AscendingUnique(before + delta, whole);
  }

  lemma CatchesUp(rows: Rows, rows': Rows, key: string)
    requires UniqueSlots(rows) && UniqueSlots(rows') && Extends(rows, rows') && InSeqOrder(rows, rows', key)
    ensures
      var before := Whole(rows, key);
      before + Replay(rows', key, LastNo(0, before) + 1) == Whole(rows', key)
  {
    var before := Whole(rows, key);
    var last := LastNo(0, before);
    var delta := Replay(rows', key, last + 1);
    var whole := Whole(rows', key);
    ReplayExact(rows, key, 1);
    ReplayExact(rows', key, 1);
    ReplayExact(rows', key, last + 1);
    DeltaGoesOn(before, Some(rows'), key);
    forall e
      ensures e in before || e in delta <==> e in whole
    {
      if e in before {
        assert Stores(rows', e);
      }
    }
    JoinIsWhole(before, delta, whole);
  }

  lemma FallsBehind(rows: Rows, rows': Rows, key: string, e: Event)
    requires UniqueSlots(rows) && UniqueSlots(rows')
    requires Stores(rows', e) && !Stores(rows, e) && e.Key() == key && 1 <= e.no <= LastNo(0, Whole(rows, key))
    ensures
      var before := Whole(rows, key);
      e in Whole(rows', key) && e !in before + Replay(rows', key, LastNo(0, before) + 1)
  {
    ReplayExact(rows, key, 1);
    ReplayExact(rows', key, 1);
    ReplayExact(rows', key, LastNo(0, Whole(rows, key)) + 1);
  }

  /** The exact condition: a subscriber that has everything in `rows` has everything
      in the grown log after the next successful replay if and only if the stream's
      new events committed in seq order. */
  lemma ReplayCatchesUpIff(rows: Rows, rows': Rows, key: string)
    requires UniqueSlots(rows) && UniqueSlots(rows') && Extends(rows, rows')
    ensures
      var before := Whole(rows, key);
      before + Replay(rows', key, LastNo(0, before) + 1) == Whole(rows', key) <==> InSeqOrder(rows, rows', key)
  {
    if InSeqOrder(rows, rows', key) {
      CatchesUp(rows, rows', key);
    } else {
      var e :| Stores(rows', e) && !Stores(rows, e) && e.Key() == key && 1 <= e.no <= LastNo(0, Whole(rows, key));
      FallsBehind(rows, rows', key, e);
    }
  }

  /** A run of bells over a growing log whose stream commits in order. */
  ghost predicate OrderedGrowth(bells: seq<Bell>, key: string) {
    && Sound(bells)
    && forall i, j :: 0 <= i < j < |bells| && bells[i].log.Some? && bells[j].log.Some? ==>
         Extends(bells[i].log.value, bells[j].log.value) && InSeqOrder(bells[i].log.value, bells[j].log.value, key)
  }

  /** The last replay of the subscriber's stream that succeeded, -1 when none did. */
  function LastRead(bells: seq<Bell>, key: string): (i: int)
    ensures -1 <= i < |bells|
    ensures i >= 0 ==> Rings(bells[i], key) && bells[i].log.Some?
  {
    if bells == [] then -1
    else if Rings(bells[|bells| - 1], key) && bells[|bells| - 1].log.Some? then |bells| - 1
    else LastRead(bells[..|bells| - 1], key)
  }

  /** Two appends of one stream commit in the wrong order: a subscriber told of the
      second one has gone past the first and never delivers it. */
  lemma LateCommitIsMissed(early: Event, late: Event) returns (rows: Rows, rows': Rows)
    requires early.Key() == late.Key() && 1 <= early.no < late.no
    ensures UniqueSlots(rows) && UniqueSlots(rows') && Extends(rows, rows')
    ensures
      var before := Whole(rows, early.Key());
      early in Whole(rows', early.Key()) && early !in before + Replay(rows', early.Key(), LastNo(0, before) + 1)
  {
    var key := early.Key();
    rows, rows' := [Row(1, late)], [Row(1, late), Row(2, early)];
    assert rows[..0] == [] && rows[0].event == late;
    assert Replay(rows[..0], key, 1) == [];
    assert Matches(late, key, 1);
    assert Whole(rows, key) == InsertByNo([], late) == [late];
    assert Stores(rows', early) by {
      assert rows'[1].event == early;
    }
    assert rows'[0] == rows[0];
    FallsBehind(rows, rows', key, early);
  }

  /** Doorbell delivery: over a log that only grows and whose stream commits in seq
      order, what a subscriber has received is at every moment the whole stream as of
      its last successful replay, in order and once each: lost and repeated bells and
      failed replays cost latency, never an event. */
  lemma {:induction false} DeliveryIsComplete(bells: seq<Bell>, key: string)
    requires OrderedGrowth(bells, key)
    ensures
      var i := LastRead(bells, key);
      Delivered(bells, key) == if i < 0 then [] else Whole(bells[i].log.value, key)
  {
    if bells != [] {
      var init := bells[..|bells| - 1];
      var bell := bells[|bells| - 1];
      DeliveryIsComplete(init, key);
      if Rings(bell, key) && bell.log.Some? {
        var i := LastRead(init, key);
        if i < 0 {
          assert [] + Replay(bell.log.value, key, 1) == Whole(bell.log.value, key);
        } else {
          assert bells[i] == init[i];
          ReplayCatchesUpIff(bells[i].log.value, bell.log.value, key);
        }
      }
    }
  }

  // ------------------------------------------------- when rows are pruned meanwhile

  /** Replay `i` of the subscriber's stream found `e`. */
  ghost predicate Seen(bells: seq<Bell>, i: nat, key: string, e: Event) {
    i < |bells| && Rings(bells[i], key) && bells[i].log.Some? && Stores(bells[i].log.value, e) && e.Key() == key && e.no >= 1
  }

  /** Every replay left the subscriber with all that it found, received then or before. */
  ghost predicate ReceivedAll(bells: seq<Bell>, key: string) {
    forall j, e :: Seen(bells, j, key, e) ==> e in Delivered(bells[..j + 1], key)
  }

  ghost predicate SeenBy(bells: seq<Bell>, i: nat, key: string, e: Event) {
    exists h: nat :: h <= i && Seen(bells, h, key, e)
  }

  /** What a replay finds at or below a seq that an earlier one found was there by then:
      no event is committed late, and no seq is given again after a prune. */
  ghost predicate NoLatecomer(bells: seq<Bell>, key: string) {
    forall i, j, d, e :: i < j && Seen(bells, i, key, d) && Seen(bells, j, key, e) && e.no <= d.no ==> SeenBy(bells, i, key, e)
  }

  lemma {:induction false} DeliveredGrows(bells: seq<Bell>, key: string, i: nat, j: nat)
    requires i <= j <= |bells|
    ensures Delivered(bells[..i], key) <= Delivered(bells[..j], key)
    decreases j
  {
    if i < j {
      DeliveredGrows(bells, key, i, j - 1);
      DeliveredOneMore(bells, j - 1, key, Delivered(bells[..j - 1], key));
    }
  }

  lemma {:induction false} DeliveredWasSeen(bells: seq<Bell>, key: string, n: nat, e: Event) returns (h: nat)
    requires Sound(bells) && n <= |bells| && e in Delivered(bells[..n], key)
    ensures h < n && Seen(bells, h, key, e)
    decreases n
  {
    var before := Delivered(bells[..n - 1], key);
    DeliveredOneMore(bells, n - 1, key, before);
    if e in before {
      h := DeliveredWasSeen(bells, key, n - 1, e);
    } else {
      h := n - 1;
      ReplayExact(bells[h].log.value, key, LastNo(0, before) + 1);
    }
  }

  lemma AtMostLast(events: seq<Event>, e: Event)
    requires Ascending(events) && e in events
    ensures e.no <= LastNo(0, events)
  {
    var i :| 0 <= i < |events| && events[i] == e;
  }

  lemma SoundPart(bells: seq<Bell>, n: nat)
    requires Sound(bells) && n <= |bells|
    ensures Sound(bells[..n])
  {
  }

  /** A replay delivers what it finds past the subscriber's high-water. */
  lemma ReceivesNew(bells: seq<Bell>, key: string, j: nat, e: Event)
    requires Sound(bells) && Seen(bells, j, key, e) && e.no > LastNo(0, Delivered(bells[..j], key))
    ensures e in Delivered(bells[..j + 1], key)
  {
    var before := Delivered(bells[..j], key);
    DeliveredOneMore(bells, j, key, before);
    ReplayExact(bells[j].log.value, key, LastNo(0, before) + 1);
  }

  lemma {:induction false} ReceivesIt(bells: seq<Bell>, key: string, j: nat, e: Event)
    requires Sound(bells) && NoLatecomer(bells, key) && Seen(bells, j, key, e)
    ensures e in Delivered(bells[..j + 1], key)
    decreases j
  {
    var before := Delivered(bells[..j], key);
    if e.no > LastNo(0, before) {
      ReceivesNew(bells, key, j, e);
    } else {
      var d := before[|before| - 1];
      var i := DeliveredWasSeen(bells, key, j, d);
      assert SeenBy(bells, i, key, e);
      var h: nat :| h <= i && Seen(bells, h, key, e);
      ReceivesIt(bells, key, h, e);
      DeliveredGrows(bells, key, h + 1, j + 1);
    }
  }

  /** What was received after `events`, in order, lies past them. */
  lemma ReceivedEarlier(events: seq<Event>, all: seq<Event>, e: Event)
    requires events <= all && Ascending(all) && e in all && e.no <= LastNo(0, events) && events != []
    ensures e in events
  {
    var k :| 0 <= k < |all| && all[k] == e;
    assert all[|events| - 1] == events[|events| - 1];
  }

  lemma SawItBefore(bells: seq<Bell>, key: string, i: nat, j: nat, d: Event, e: Event)
    requires Sound(bells) && ReceivedAll(bells, key)
    requires i < j && Seen(bells, i, key, d) && Seen(bells, j, key, e) && e.no <= d.no
    ensures SeenBy(bells, i, key, e)
  {
    var events, all := Delivered(bells[..i + 1], key), Delivered(bells[..j + 1], key);
    DeliveredGrows(bells, key, i + 1, j + 1);
    SoundPart(bells, i + 1);
    SoundPart(bells, j + 1);
    DeliveryIsOrdered(bells[..i + 1], key);
    DeliveryIsOrdered(bells[..j + 1], key);
    AtMostLast(events, d);
    ReceivedEarlier(events, all, e);
    var h := DeliveredWasSeen(bells, key, i + 1, e);
  }

  /** The exact condition over whole runs, with rows pruned at will between replays: every
      replay leaves the subscriber with all that it found if and only if no replay finds,
      at or below a seq found before, an event that was not there by then. */
  lemma ReceivedAllIff(bells: seq<Bell>, key: string)
    requires Sound(bells)
    ensures ReceivedAll(bells, key) <==> NoLatecomer(bells, key)
  {
    if NoLatecomer(bells, key) {
      forall j, e | Seen(bells, j, key, e) ensures e in Delivered(bells[..j + 1], key) {
        ReceivesIt(bells, key, j, e);
      }
    }
    if ReceivedAll(bells, key) {
      forall i, j, d, e | i < j && Seen(bells, i, key, d) && Seen(bells, j, key, e) && e.no <= d.no
        ensures SeenBy(bells, i, key, e)
      {
        SawItBefore(bells, key, i, j, d, e);
      }
    }
  }

  /** A prune that empties the stream lets its seqs be given again: a subscriber that is
      past them never receives the new events. */
  lemma ReusedSeqIsMissed(payload: string, old_: Event, new_: Event) returns (bells: seq<Bell>)
    requires old_.Key() == new_.Key() && 1 <= new_.no <= old_.no && new_ != old_
    requires SplitLast(payload).Some? && SplitLast(payload).value.0 == old_.Key()
    ensures |bells| == 2 && Sound(bells) && Seen(bells, 0, old_.Key(), old_) && Seen(bells, 1, old_.Key(), new_)
    ensures !ReceivedAll(bells, old_.Key())
  {
    var key := old_.Key();
    bells := [Bell(payload, Some([Row(1, old_)])), Bell(payload, Some([Row(2, new_)]))];
    assert bells[0].log.value[0].event == old_ && bells[1].log.value[0].event == new_;
    assert Seen(bells, 0, key, old_) && Seen(bells, 1, key, new_);
    assert !Seen(bells, 0, key, new_);
    assert !NoLatecomer(bells, key);
    ReceivedAllIff(bells, key);
  }

  // ------------------------------------------------------ all streams at once

  function Mark(marks: map<string, nat>, key: string): nat {
    if key in marks then marks[key] else 0
  }

  datatype Drain = Drain(out: seq<Event>, marks: map<string, nat>)

  function Yield(d: Drain, key: string, news: seq<Event>): Drain {
    if news == [] then d else Drain(d.out + news, d.marks[key := news[|news| - 1].no])
  }

  /** One notification answered, whatever stream it names. */
  function Answer(d: Drain, bell: Bell): Drain {
    match SplitLast(bell.payload)
    case None => d
    case Some((key, _)) => Yield(d, key, Delta(bell.log, key, Mark(d.marks, key)))
  }

  function Drained(bells: seq<Bell>): Drain {
    if bells == [] then Drain([], map[]) else Answer(Drained(bells[..|bells| - 1]), bells[|bells| - 1])
  }

  lemma DrainedOneMore(bells: seq<Bell>, i: nat)
    requires i < |bells|
    ensures Drained(bells[..i + 1]) == Answer(Drained(bells[..i]), bells[i])
  {
    assert bells[..i + 1][..i] == bells[..i];
  }

  method AnswerAny(d: Drain, bell: Bell) returns (d': Drain)
    requires bell.log.Some? ==> UniqueSlots(bell.log.value)
    ensures d' == Answer(d, bell)
  {
    var split := SplitLast(bell.payload);
    if split.None? || bell.log.None? {
      return d;
    }
    var key := split.value.0;
    var last := Mark(d.marks, key);
    ReplayIsNew(bell.log.value, key, last);
    var news, last' := YieldNew(Replay(bell.log.value, key, last + 1), last);
    d' := d;
    if news != [] {
      d' := Drain(d.out + news, d.marks[key := last']);
    }
  }

  /** The unfiltered loop, one high-water per key. */
  method DrainDoorbell(bells: seq<Bell>) returns (out: seq<Event>)
    requires Sound(bells)
    ensures out == Drained(bells).out
    ensures forall key :: Project(out, key) == Delivered(bells, key)
  {
    var d := Drain([], map[]);
    for i := 0 to |bells|
      invariant d == Drained(bells[..i])
    {
      DrainedOneMore(bells, i);
      d := AnswerAny(d, bells[i]);
    }
    assert bells[..|bells|] == bells;
    out := d.out;
    forall key ensures Project(out, key) == Delivered(bells, key) {
      DrainProjects(bells, key);
    }
  }

  lemma YieldProjects(d: Drain, k: string, news: seq<Event>, key: string, before: seq<Event>)
    requires forall i :: 0 <= i < |news| ==> news[i].Key() == k
    requires Project(d.out, key) == before && Mark(d.marks, key) == LastNo(0, before)
    ensures
      var after := if k == key then before + news else before;
      Project(Yield(d, k, news).out, key) == after && Mark(Yield(d, k, news).marks, key) == LastNo(0, after)
  {
    if news == [] {
      assert before + news == before;
    } else {
      ProjectAppend(d.out, news, k, key);
    }
  }

  lemma AnswerProjects(d: Drain, bell: Bell, key: string, before: seq<Event>)
    requires bell.log.Some? ==> UniqueSlots(bell.log.value)
    requires Project(d.out, key) == before && Mark(d.marks, key) == LastNo(0, before)
    ensures
      var after := if Rings(bell, key) then before + Delta(bell.log, key, LastNo(0, before)) else before;
      Project(Answer(d, bell).out, key) == after && Mark(Answer(d, bell).marks, key) == LastNo(0, after)
  {
    match SplitLast(bell.payload)
    case None =>
    case Some((k, _)) =>
      var news := Delta(bell.log, k, Mark(d.marks, k));
      if bell.log.Some? {
        ReplayIsNew(bell.log.value, k, Mark(d.marks, k));
      }
      YieldProjects(d, k, news, key, before);
  }

  /** Projected to any one stream, the unfiltered loop delivers exactly what a
      subscription to that stream delivers. */
  lemma {:induction false} DrainProjects(bells: seq<Bell>, key: string)
    requires Sound(bells)
    ensures Project(Drained(bells).out, key) == Delivered(bells, key)
    ensures Mark(Drained(bells).marks, key) == LastNo(0, Delivered(bells, key))
  {
    if bells != [] {
      var init := bells[..|bells| - 1];
      DrainProjects(init, key);
      AnswerProjects(Drained(init), bells[|bells| - 1], key, Delivered(init, key));
    }
  }

  /** Each notification adds at the end, and only events of the stream it names. */
  lemma DrainAppends(bells: seq<Bell>)
    requires Sound(bells) && bells != []
    ensures
      var before, after := Drained(bells[..|bells| - 1]).out, Drained(bells).out;
      before <= after && forall i :: |before| <= i < |after| ==> Rings(bells[|bells| - 1], after[i].Key())
  {
    var d, bell := Drained(bells[..|bells| - 1]), bells[|bells| - 1];
    if bell.log.Some? && SplitLast(bell.payload).Some? {
      ReplayIsNew(bell.log.value, SplitLast(bell.payload).value.0, Mark(d.marks, SplitLast(bell.payload).value.0));
    }
  }

  /** One key's part of a mixed stream. */
  function Project(es: seq<Event>, key: string): seq<Event> {
    if es == [] then []
    else
      var rest := Project(es[..|es| - 1], key);
      if es[|es| - 1].Key() == key then rest + [es[|es| - 1]] else rest
  }

  lemma ProjectOneMore(es: seq<Event>, e: Event, key: string)
    ensures Project(es + [e], key) == Project(es, key) + if e.Key() == key then [e] else []
  {
    assert (es + [e])[..|es|] == es;
  }

  lemma {:induction false} ProjectAppend(a: seq<Event>, b: seq<Event>, key: string, k: string)
    requires forall i :: 0 <= i < |b| ==> b[i].Key() == key
    ensures Project(a + b, k) == if k == key then Project(a, k) + b else Project(a, k)
    decreases |b|
  {
    if b == [] {
      assert a + b == a;
    } else {
      var init, e := b[..|b| - 1], b[|b| - 1];
      assert b == init + [e];
      assert a + b == (a + init) + [e];
      ProjectAppend(a, init, key, k);
      ProjectOneMore(a + init, e, k);
      assert Project(a, k) + init + [e] == Project(a, k) + b;
    }
  }
}
