/** When a cron automation is due. */
module Schedule {
  import opened Common
  import opened Timestamps
  import opened UsageWindow

  /** A whole second since the start of year 0000, up to the end of year 9999. */
  type Second = n: nat | n < 3_652_425 * 86_400

  /** A schedule's ticks: which seconds a cron text names.  A text that does not parse
      names none. */
  type Ticks = (string, nat) -> bool

  /** Fire times as the claim compares them. */
  function Spell(t: Second): string {
    Stamp(CivilAt(t * 1_000_000_000))
  }

  lemma SecondsOfWhole(t: Second)
    ensures Seconds(CivilAt(t * 1_000_000_000)) == t
  {
    var c := CivilAt(t * 1_000_000_000);
    assert Nanos(c) == Seconds(c) * 1_000_000_000 + c.nano;
    assert c.nano < 1_000_000_000;
  }

  /** String order on fire times is time order. */
  lemma SpellOrder(a: Second, b: Second)
    ensures Before(Spell(a), Spell(b)) <==> a < b
  {
    SecondsOfWhole(a);
    SecondsOfWhole(b);
    StampOrder(CivilAt(a * 1_000_000_000), CivilAt(b * 1_000_000_000));
  }

  /** How many whole seconds lie strictly before `now`. */
  function SecondsBefore(now: Instant): (n: nat)
    ensures n <= 3_652_425 * 86_400
    ensures forall t: nat :: t < n <==> t * 1_000_000_000 < now
  {
    (now + 999_999_999) / 1_000_000_000
  }

  /** Walk backwards to the newest tick before second `n`. */
  function NewestBelow(ticks: Ticks, schedule: string, n: nat): (t: Option<nat>)
    ensures t.Some? ==> t.value < n
  {
    if n == 0 then None
    else if ticks(schedule, n - 1) then Some(n - 1)
    else NewestBelow(ticks, schedule, n - 1)
  }

  function DueFire(ticks: Ticks, schedule: string, since: int, now: Instant): Option<Second> {
    match NewestBelow(ticks, schedule, SecondsBefore(now))
    case Some(t) => if t > since then Some(t) else None
    case None => None
  }

  lemma {:induction false} NewestIsNewest(ticks: Ticks, schedule: string, n: nat, t: nat)
    ensures NewestBelow(ticks, schedule, n) == Some(t) <==>
              t < n && ticks(schedule, t) && forall u :: t < u < n ==> !ticks(schedule, u)
    ensures NewestBelow(ticks, schedule, n) == None <==> forall u :: 0 <= u < n ==> !ticks(schedule, u)
  {
    if n > 0 {
      NewestIsNewest(ticks, schedule, n - 1, t);
      if ticks(schedule, n - 1) {
        assert t < n - 1 ==> !(forall u :: t < u < n ==> !ticks(schedule, u));
      }
    }
  }

  /** What is due is exactly the newest tick after the anchor and before now: missed
      ticks coalesce into one, and nothing is due only if there is no such tick. */
  lemma DueIsNewestTick(ticks: Ticks, schedule: string, since: int, now: Instant, t: Second)
    ensures DueFire(ticks, schedule, since, now) == Some(t) <==>
              && ticks(schedule, t) && since < t && t * 1_000_000_000 < now
              && forall u: nat :: t < u < SecondsBefore(now) ==> !ticks(schedule, u)
    ensures DueFire(ticks, schedule, since, now) == None <==>
              forall u: nat :: since < u < SecondsBefore(now) ==> !ticks(schedule, u)
  {
    var n := SecondsBefore(now);
    NewestIsNewest(ticks, schedule, n, t);
    match NewestBelow(ticks, schedule, n)
    case Some(m) => NewestIsNewest(ticks, schedule, n, m);
    case None =>
  }

  /** `t` is the newest of the schedule's ticks before `now`, and after the anchor. */
  ghost predicate NewestTick(ticks: Ticks, schedule: string, since: int, now: Instant, t: nat) {
    && ticks(schedule, t) && since < t && t * 1_000_000_000 < now
    && forall u: nat :: t < u && ticks(schedule, u) ==> now <= u * 1_000_000_000
  }

  lemma DueFireIff(ticks: Ticks, schedule: string, since: int, now: Instant, t: Second)
    ensures DueFire(ticks, schedule, since, now) == Some(t) <==> NewestTick(ticks, schedule, since, now, t)
  {
    DueIsNewestTick(ticks, schedule, since, now, t);
    assert forall u: nat :: u < SecondsBefore(now) <==> u * 1_000_000_000 < now;
  }
}
