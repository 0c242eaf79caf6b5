/** Following one agent's stream: every connection replays the agent's frames from
    the start and may break anywhere; what was already seen is skipped. */
module Attach {
  import opened Common
  import opened EventLog

  type Frame = string

  /** What a frame means to the fleet; `Garbled` is a line that does not parse. */
  datatype Normalized = Emits(kind: EventKind) | Dropped | Unknown | Garbled

  /** How a connection stopped delivering frames; `NoStream` is one never opened. */
  datatype End = Eof | ReadError | Shutdown | NoStream

  /** One attempt to attach: the frames it delivered, blank lines left out and a line that
      the end of the stream cut short included, and its end. */
  datatype Conn = Conn(frames: seq<Frame>, end: End)

  datatype Outcome = Finished | Disconnected | Broken

  // ------------------------------------------------------------- the events

  /** The events that frames `i` up to `j` stand for, in order. */
  function Events(norm: Frame -> Normalized, frames: seq<Frame>, i: nat, j: nat): seq<EventKind>
    requires j <= |frames|
  {
    if j <= i then []
    else
      match norm(frames[j - 1])
      case Emits(kind) => Events(norm, frames, i, j - 1) + [kind]
      case _ => Events(norm, frames, i, j - 1)
  }

  /** `at` lists, going up, the frames from `i` up to `j` that stand for events; theirs are
      the events, one for one. */
  ghost predicate StandFor(norm: Frame -> Normalized, frames: seq<Frame>, i: nat, j: nat, events: seq<EventKind>, at: seq<nat>)
    requires j <= |frames|
  {
    && |at| == |events| && Climbs(at, j)
    && (forall k :: 0 <= k < |at| ==> i <= at[k] && norm(frames[at[k]]) == Emits(events[k]))
    && forall k :: i <= k < j && norm(frames[k]).Emits? ==> k in at
  }

  lemma OneMoreStands(norm: Frame -> Normalized, frames: seq<Frame>, i: nat, j: nat, at: seq<nat>)
    requires i <= j < |frames| && StandFor(norm, frames, i, j, Events(norm, frames, i, j), at) && norm(frames[j]).Emits?
    ensures StandFor(norm, frames, i, j + 1, Events(norm, frames, i, j + 1), at + [j])
  {
    ClimbOneMore(at, j);
    assert Events(norm, frames, i, j + 1) == Events(norm, frames, i, j) + [norm(frames[j]).kind];
    forall k
      ensures k in at + [j] <==> k in at || k == j
    {
    }
  }

  lemma NoMoreStands(norm: Frame -> Normalized, frames: seq<Frame>, i: nat, j: nat, at: seq<nat>)
    requires i <= j < |frames| && StandFor(norm, frames, i, j, Events(norm, frames, i, j), at) && !norm(frames[j]).Emits?
    ensures StandFor(norm, frames, i, j + 1, Events(norm, frames, i, j + 1), at)
  {
    ClimbOneMore(at, j);
    assert Events(norm, frames, i, j + 1) == Events(norm, frames, i, j);
  }

  lemma {:induction false} EventsStandFor(norm: Frame -> Normalized, frames: seq<Frame>, i: nat, j: nat) returns (at: seq<nat>)
    requires j <= |frames|
    ensures StandFor(norm, frames, i, j, Events(norm, frames, i, j), at)
  {
    if j <= i {
      at := [];
    } else {
      at := EventsStandFor(norm, frames, i, j - 1);
      if norm(frames[j - 1]).Emits? {
        OneMoreStands(norm, frames, i, j - 1, at);
        at := at + [j - 1];
      } else {
        NoMoreStands(norm, frames, i, j - 1, at);
      }
    }
  }

  lemma {:induction false} EventsSplit(norm: Frame -> Normalized, frames: seq<Frame>, i: nat, j: nat)
    requires i <= j <= |frames|
    ensures Events(norm, frames, 0, j) == Events(norm, frames, 0, i) + Events(norm, frames, i, j)
  {
    if i < j {
      EventsSplit(norm, frames, i, j - 1);
    }
  }

  lemma {:induction false} EventsOfSame(norm: Frame -> Normalized, frames: seq<Frame>, other: seq<Frame>, i: nat, j: nat)
    requires j <= |frames| && j <= |other| && forall k :: i <= k < j ==> frames[k] == other[k]
    ensures Events(norm, frames, i, j) == Events(norm, other, i, j)
  {
    if i < j {
      EventsOfSame(norm, frames, other, i, j - 1);
    }
  }

  /** Some event says that the agent finished. */
  predicate SawTerminal(events: seq<EventKind>) {
    exists i :: 0 <= i < |events| && events[i].AgentFinished?
  }

  /** The frame says that the agent finished. */
  predicate Finishing(norm: Frame -> Normalized, frame: Frame) {
    norm(frame).Emits? && norm(frame).kind.AgentFinished?
  }

  lemma SawMore(events: seq<EventKind>, kind: EventKind)
    ensures SawTerminal(events + [kind]) <==> SawTerminal(events) || kind.AgentFinished?
  {
    assert (events + [kind])[|events|] == kind;
    assert forall k :: 0 <= k < |events| ==> (events + [kind])[k] == events[k];
  }

  lemma {:induction false} SawTerminalIff(norm: Frame -> Normalized, frames: seq<Frame>, i: nat, j: nat)
    requires j <= |frames|
    ensures SawTerminal(Events(norm, frames, i, j)) <==> exists k :: i <= k < j && Finishing(norm, frames[k])
  {
    if i < j {
      SawTerminalIff(norm, frames, i, j - 1);
      match norm(frames[j - 1]) {
        case Emits(kind) => SawMore(Events(norm, frames, i, j - 1), kind);
        case _ =>
      }
      if Finishing(norm, frames[j - 1]) {
        assert i <= j - 1 < j;
      }
    }
  }

  function Max(a: nat, b: nat): nat {
    if a < b then b else a
  }

  /** How `attach_once` reports a connection. */
  function Reported(end: End, terminal: bool): Outcome {
    match end
    case NoStream => Broken
    case ReadError => Broken
    case Shutdown => Finished
    case Eof => if terminal then Finished else Disconnected
  }

  /** The stream could not be opened, or reading it failed. */
  predicate Unreadable(end: End) {
    end == NoStream || end == ReadError
  }

  /** The agent's end, as far as a connection can tell: a shutdown stopped it, or it
      reached the end of the stream and a frame past `seen` says so. */
  ghost predicate CameToEnd(norm: Frame -> Normalized, conn: Conn, seen: nat) {
    conn.end == Shutdown || (conn.end == Eof && exists k :: seen <= k < |conn.frames| && Finishing(norm, conn.frames[k]))
  }

  /** What the report of a connection means. */
  lemma ReportedIff(norm: Frame -> Normalized, conn: Conn, seen: nat)
    ensures var reported := Reported(conn.end, SawTerminal(Events(norm, conn.frames, seen, |conn.frames|)));
      && (reported == Finished <==> CameToEnd(norm, conn, seen))
      && (reported == Broken <==> Unreadable(conn.end))
  {
    SawTerminalIff(norm, conn.frames, seen, |conn.frames|);
  }

  /** One connection read to its end: only frames past `seen` are normalized and
      emitted, and `seen` becomes the longest prefix read so far. */
  method AttachOnce(norm: Frame -> Normalized, conn: Conn, seen: nat)
    returns (seen': nat, events: seq<EventKind>, outcome: Outcome)
    ensures seen' == Max(seen, |conn.frames|)
    ensures events == Events(norm, conn.frames, seen, |conn.frames|)
    ensures outcome == Reported(conn.end, SawTerminal(events))
    ensures outcome == Finished <==> CameToEnd(norm, conn, seen)
    ensures outcome == Broken <==> Unreadable(conn.end)
  {
    seen', events := seen, [];
    var idx := 0;
    var sawTerminal := false;
    while idx < |conn.frames|
      invariant idx <= |conn.frames| && seen' == Max(seen, idx)
      invariant events == Events(norm, conn.frames, seen, idx)
      invariant sawTerminal == SawTerminal(events)
    {
      var frame := conn.frames[idx];
      idx := idx + 1;
      if idx > seen' {
        seen' := idx;
        match norm(frame)
        case Emits(kind) =>
          sawTerminal := sawTerminal || kind.AgentFinished?;
          assert forall k :: 0 <= k < |events| ==> (events + [kind])[k] == events[k];
          assert (events + [kind])[|events|] == kind;
          events := events + [kind];
        case _ =>
      }
    }
    outcome := Reported(conn.end, sawTerminal);
    ReportedIff(norm, conn, seen);
  }

  // -------------------------------------------------------------- the backoff

  datatype Backoff = Backoff(base: real, max: real, maxRetries: nat)

  function Doubled(base: real, n: nat): (r: real)
    ensures 0.0 <= base ==> base <= r
  {
    if n == 0 then base else 2.0 * Doubled(base, n - 1)
  }

  ghost predicate Sane(b: Backoff) {
    0.0 <= b.base && 0.0 <= b.max
  }

  function Exponent(attempt: nat): nat {
    if attempt < 31 then attempt else 31
  }

  /** The exponential delay before jitter. */
  function Capped(b: Backoff, attempt: nat): (r: real)
    ensures Sane(b) ==> 0.0 <= r <= b.max
  {
    var exp := Doubled(b.base, Exponent(attempt));
    if exp < b.max then exp else b.max
  }

  function Pow2(n: nat): nat {
    if n == 0 then 1 else 2 * Pow2(n - 1)
  }

  /** `base` times two to the power of `n`. */
  function Scaled2(base: real, n: nat): real {
    base * Pow2(n) as real
  }

  lemma {:induction false} DoubledIsPower(base: real, n: nat)
    ensures Doubled(base, n) == Scaled2(base, n)
  {
    if n > 0 {
      DoubledIsPower(base, n - 1);
      assert Pow2(n) as real == 2.0 * Pow2(n - 1) as real;
    }
  }

  /** It is the lesser of the ceiling and the base times two to the power of the attempt,
      or of 31 from then on. */
  lemma CappedIs(b: Backoff, attempt: nat)
    ensures
      var power := Scaled2(b.base, if attempt < 31 then attempt else 31);
      && (power < b.max ==> Capped(b, attempt) == power)
      && (power >= b.max ==> Capped(b, attempt) == b.max)
  {
    DoubledIsPower(b.base, Exponent(attempt));
  }

  /** Attempt by attempt: it starts from the base and doubles until the ceiling. */
  lemma CappedDoubles(b: Backoff, attempt: nat)
    requires Sane(b)
    ensures Capped(b, 0) == if b.base < b.max then b.base else b.max
    ensures attempt < 31 ==>
              Capped(b, attempt + 1) == if 2.0 * Capped(b, attempt) < b.max then 2.0 * Capped(b, attempt) else b.max
    ensures attempt >= 31 ==> Capped(b, attempt) == Capped(b, 31)
  {
  }

  /** The jitter factor, from the per-agent, per-attempt hash. */
  function Jitter(hash: nat): (f: real)
    ensures 0.5 <= f < 1.0 && 2000.0 * f == (1000 + hash % 1000) as real
  {
    0.5 + 0.5 * ((hash % 1000) as real / 1000.0)
  }

  function Scaled(x: real, f: real): real {
    x * f
  }

  lemma ProductBelow(x: real, f: real, g: real)
    requires 0.0 <= x && f <= g
    ensures x * f <= x * g
  {
  }

  lemma ScaledBounds(x: real, f: real)
    requires 0.0 <= x && 0.5 <= f < 1.0
    ensures 0.5 * x <= Scaled(x, f) <= x
  {
    ProductBelow(x, 0.5, f);
    ProductBelow(x, f, 1.0);
  }

  function DelayFor(b: Backoff, attempt: nat, jitter: real): real {
    Scaled(Capped(b, attempt), jitter)
  }

  /** A delay is at least half the capped exponential and never above the ceiling. */
  lemma DelayBounds(b: Backoff, attempt: nat, jitter: real)
    requires Sane(b) && 0.5 <= jitter < 1.0
    ensures DelayFor(b, attempt, jitter) == Capped(b, attempt) * jitter
    ensures 0.0 <= 0.5 * Capped(b, attempt) <= DelayFor(b, attempt, jitter) <= Capped(b, attempt) <= b.max
  {
    ScaledBounds(Capped(b, attempt), jitter);
  }

  // ----------------------------------------------------------------- the loop

  /** What the outside does in one turn: how the connection goes, whether a shutdown
      is seen after it or in the sleep that follows, and the jitter's hash. */
  datatype Turn = Turn(conn: Conn, stopAfter: bool, stopSleep: bool, hash: nat)

  /** No connection delivers more than `most` frames. */
  ghost predicate Fits(turns: seq<Turn>, most: nat) {
    forall i :: 0 <= i < |turns| ==> |turns[i].conn.frames| <= most
  }

  /** The longest prefix any of the first `n` connections delivered. */
  function Longest(turns: seq<Turn>, n: nat): nat
    requires n <= |turns|
  {
    if n == 0 then 0 else Max(Longest(turns, n - 1), |turns[n - 1].conn.frames|)
  }

  lemma {:induction false} LongestFits(turns: seq<Turn>, most: nat, n: nat)
    requires Fits(turns, most) && n <= |turns|
    ensures Longest(turns, n) <= most
  {
    if n > 0 {
      LongestFits(turns, most, n - 1);
    }
  }

  lemma {:induction false} LongestGrows(turns: seq<Turn>, n: nat, m: nat)
    requires n <= m <= |turns|
    ensures Longest(turns, n) <= Longest(turns, m)
  {
    if n < m {
      LongestGrows(turns, n, m - 1);
    }
  }

  /** The frames of the first `n` connections, each as the first one to reach it delivered it. */
  function FirstRead(turns: seq<Turn>, n: nat): (frames: seq<Frame>)
    requires n <= |turns|
    ensures |frames| == Longest(turns, n)
  {
    if n == 0 then []
    else
      var before, now := FirstRead(turns, n - 1), turns[n - 1].conn.frames;
      if |before| < |now| then before + now[|before|..] else before
  }

  /** One sleep: how many frames had been seen, and for how long. */
  datatype Sleep = Sleep(seen: nat, delay: real)

  function SleptAt(sleeps: seq<Sleep>, seen: nat): real {
    if sleeps == [] then 0.0
    else
      var last := sleeps[|sleeps| - 1];
      SleptAt(sleeps[..|sleeps| - 1], seen) + if last.seen == seen then last.delay else 0.0
  }

  lemma {:induction false} NotSleptAt(sleeps: seq<Sleep>, seen: nat)
    requires forall i :: 0 <= i < |sleeps| ==> sleeps[i].seen < seen
    ensures SleptAt(sleeps, seen) == 0.0
  {
    if sleeps != [] {
      NotSleptAt(sleeps[..|sleeps| - 1], seen);
    }
  }

  /** A connection adds the events of the frames it is the first to reach. */
  lemma NewEvents(norm: Frame -> Normalized, turns: seq<Turn>, n: nat)
    requires n < |turns|
    ensures
      var before, now, seen := FirstRead(turns, n), turns[n].conn.frames, Longest(turns, n);
      Events(norm, before, 0, seen) + Events(norm, now, seen, |now|) == Events(norm, FirstRead(turns, n + 1), 0, Longest(turns, n + 1))
  {
    var before, now, after := FirstRead(turns, n), turns[n].conn.frames, FirstRead(turns, n + 1);
    var seen := |before|;
    if seen < |now| {
      EventsOfSame(norm, before, after, 0, seen);
      EventsOfSame(norm, now, after, seen, |now|);
      EventsSplit(norm, after, seen, |now|);
    }
  }

  /** `n` sleeps at the ceiling. */
  ghost function Budget(b: Backoff, n: nat): real {
    if n == 0 then 0.0 else Budget(b, n - 1) + b.max
  }

  lemma {:induction false} BudgetGrows(b: Backoff, m: nat, n: nat)
    requires Sane(b) && m <= n
    ensures 0.0 <= Budget(b, m) <= Budget(b, n)
    decreases n
  {
    if n > m {
      BudgetGrows(b, m, n - 1);
    } else if n > 0 {
      BudgetGrows(b, m - 1, n - 1);
    }
  }

  lemma {:induction false} BudgetIsProduct(b: Backoff, n: nat)
    ensures Budget(b, n) == n as real * b.max
  {
    if n > 0 {
      BudgetIsProduct(b, n - 1);
      assert n as real * b.max == (n - 1) as real * b.max + b.max;
    }
  }

  /** The sleeps so far fit their budgets. */
  ghost predicate Rested(b: Backoff, sleeps: seq<Sleep>, seen: nat, attempt: nat) {
    && (forall i :: 0 <= i < |sleeps| ==> sleeps[i].seen <= seen)
    && SleptAt(sleeps, seen) <= Budget(b, attempt)
    && forall s :: SleptAt(sleeps, s) <= Budget(b, b.maxRetries)
  }

  lemma RestedStart(b: Backoff)
    requires Sane(b)
    ensures Rested(b, [], 0, 0)
  {
    BudgetGrows(b, 0, b.maxRetries);
  }

  lemma RestedProgress(b: Backoff, sleeps: seq<Sleep>, before: nat, seen: nat, attempt: nat)
    requires Rested(b, sleeps, before, attempt) && before < seen
    ensures Rested(b, sleeps, seen, 0)
  {
    NotSleptAt(sleeps, seen);
  }

  /** Sleeping once more without progress. */
  lemma RestedSleep(b: Backoff, sleeps: seq<Sleep>, seen: nat, attempt: nat, delay: real)
    requires Sane(b) && 0.0 <= delay <= b.max && attempt < b.maxRetries
    requires Rested(b, sleeps, seen, attempt)
    ensures Rested(b, sleeps + [Sleep(seen, delay)], seen, attempt + 1)
  {
    var sleeps' := sleeps + [Sleep(seen, delay)];
    assert sleeps'[..|sleeps|] == sleeps;
    BudgetGrows(b, attempt + 1, b.maxRetries);
    forall s ensures SleptAt(sleeps', s) <= Budget(b, b.maxRetries) {
      assert SleptAt(sleeps, s) <= Budget(b, b.maxRetries);
    }
  }

  /** `retries` connections for each of `n` steps. */
  ghost function Calls(n: nat, retries: nat): nat {
    if n == 0 then 0 else Calls(n - 1, retries) + retries
  }

  lemma {:induction false} CallsGrow(m: nat, n: nat, retries: nat)
    requires m < n
    ensures Calls(m, retries) + retries <= Calls(n, retries)
  {
    if m + 1 < n {
      CallsGrow(m, n - 1, retries);
    }
  }

  lemma {:induction false} CallsIsProduct(n: nat, retries: nat)
    ensures Calls(n, retries) == n * retries
  {
    if n > 0 {
      CallsIsProduct(n - 1, retries);
    }
  }

  /** The `n`-th connection ends the loop: the agent finished on it, or a shutdown
      was seen after it or in the sleep that followed. */
  ghost predicate Ends(norm: Frame -> Normalized, turns: seq<Turn>, n: nat)
    requires 0 < n <= |turns|
  {
    || CameToEnd(norm, turns[n - 1].conn, Longest(turns, n - 1))
    || turns[n - 1].stopAfter
    || turns[n - 1].stopSleep
  }

  /** How many connections in a row, the `n`-th the last of them, brought nothing new; the
      very first one does not count. */
  function Idle(turns: seq<Turn>, n: nat): nat
    requires n <= |turns|
  {
    if n <= 1 || Longest(turns, n) > Longest(turns, n - 1) then 0 else Idle(turns, n - 1) + 1
  }

  /** The retries are used up. */
  predicate Spent(b: Backoff, turns: seq<Turn>, n: nat)
    requires 0 < n <= |turns|
  {
    Idle(turns, n) >= b.maxRetries
  }

  ghost predicate Stops(norm: Frame -> Normalized, b: Backoff, turns: seq<Turn>, n: nat)
    requires 0 < n <= |turns|
  {
    Ends(norm, turns, n) || Spent(b, turns, n)
  }

  /** The loop gives up with an error: the retries are used up, no shutdown was seen, and
      the last connection could not be opened or read. */
  predicate Fails(b: Backoff, turns: seq<Turn>, n: nat)
    requires 0 < n <= |turns|
  {
    Spent(b, turns, n) && !turns[n - 1].stopAfter && Unreadable(turns[n - 1].conn.end)
  }

  /** The loop does not stop at any of the first `n` connections. */
  ghost predicate NoneStops(norm: Frame -> Normalized, b: Backoff, turns: seq<Turn>, n: nat)
    requires n <= |turns|
  {
    forall m :: 0 < m <= n ==> !Stops(norm, b, turns, m)
  }

  /** A run of idle connections leaves the longest prefix as it was. */
  lemma {:induction false} IdleIff(turns: seq<Turn>, n: nat, m: nat)
    requires 0 < n <= |turns|
    ensures Idle(turns, n) >= m <==> m < n && Longest(turns, n) == Longest(turns, n - m)
  {
    LongestGrows(turns, n - 1, n);
    if Idle(turns, n) > 0 && m > 0 {
      IdleIff(turns, n - 1, m - 1);
    } else if 0 < m < n {
      LongestGrows(turns, n - m, n - 1);
    }
  }

  /** The sleep after the `i`-th connection: its delay goes by the connections since the
      last progress. */
  function Rest(b: Backoff, turns: seq<Turn>, i: nat): Sleep
    requires i < |turns|
  {
    Sleep(Longest(turns, i + 1), DelayFor(b, Idle(turns, i + 1), Jitter(turns[i].hash)))
  }

  /** The loop slept like that after each of the first `n` connections. */
  ghost predicate Slumbered(b: Backoff, turns: seq<Turn>, sleeps: seq<Sleep>, n: nat) {
    |sleeps| == n <= |turns| && forall i :: 0 <= i < n ==> sleeps[i] == Rest(b, turns, i)
  }

  /** The loop gets to the sleep after the `n`-th connection. */
  ghost predicate GoesToSleep(norm: Frame -> Normalized, b: Backoff, turns: seq<Turn>, n: nat)
    requires 0 < n <= |turns|
  {
    !CameToEnd(norm, turns[n - 1].conn, Longest(turns, n - 1)) && !turns[n - 1].stopAfter && !Spent(b, turns, n)
  }

  /** The loop's variables: frames seen, attempts since progress, connections made,
      events emitted and sleeps taken. */
  datatype Progress = Progress(seen: nat, attempt: nat, used: nat, events: seq<EventKind>, sleeps: seq<Sleep>)

  /** Attach exactly once: the events emitted over the connections made are the
      normalization of the longest prefix any of them delivered, each frame as it was
      first read, in order and none twice.  The connections number at most (frames + 1) x retries + 1, the sleeps
      between two steps of progress add up to at most retries x ceiling, and the loop had
      no reason to stop before the last one. */
  ghost predicate Followed(norm: Frame -> Normalized, most: nat, b: Backoff, turns: seq<Turn>, p: Progress) {
    && 0 < p.used <= |turns| && p.seen == Longest(turns, p.used) <= most
    && p.events == Events(norm, FirstRead(turns, p.used), 0, p.seen)
    && p.used <= Calls(most + 1, b.maxRetries) + 1
    && (forall s :: SleptAt(p.sleeps, s) <= Budget(b, b.maxRetries))
    && NoneStops(norm, b, turns, p.used - 1)
  }

  /** What holds before each connection; `attempt` counts the connections since the
      last progress, and the one that made it. */
  ghost predicate Between(norm: Frame -> Normalized, most: nat, b: Backoff, turns: seq<Turn>, p: Progress) {
    && p.used <= |turns| && p.seen == Longest(turns, p.used) <= most
    && p.events == Events(norm, FirstRead(turns, p.used), 0, p.seen)
    && p.attempt <= p.used && (p.used > 0 ==> p.attempt > 0)
    && (p.used > 0 ==> p.attempt == Idle(turns, p.used) + 1)
    && p.attempt <= b.maxRetries && p.used <= Calls(p.seen, b.maxRetries) + p.attempt
    && NoneStops(norm, b, turns, p.used)
    && Rested(b, p.sleeps, p.seen, p.attempt)
    && Slumbered(b, turns, p.sleeps, p.used)
  }

  lemma ConnectOnce(norm: Frame -> Normalized, most: nat, b: Backoff, turns: seq<Turn>, p: Progress, q: Progress)
    requires Fits(turns, most) && Between(norm, most, b, turns, p) && p.used < |turns|
    requires q.seen == Max(p.seen, |turns[p.used].conn.frames|) && q.used == p.used + 1 && q.sleeps == p.sleeps
    requires q.events == p.events + Events(norm, turns[p.used].conn.frames, p.seen, |turns[p.used].conn.frames|)
    ensures Followed(norm, most, b, turns, q)
  {
    LongestFits(turns, most, q.used);
    NewEvents(norm, turns, p.used);
    CallsGrow(p.seen, most + 1, b.maxRetries);
  }

  lemma IdleNow(norm: Frame -> Normalized, most: nat, b: Backoff, turns: seq<Turn>, p: Progress)
    requires Between(norm, most, b, turns, p) && p.used < |turns|
    ensures Idle(turns, p.used + 1) == if Longest(turns, p.used + 1) > p.seen then 0 else p.attempt
  {
  }

  lemma RestedAfter(b: Backoff, sleeps: seq<Sleep>, before: nat, seen: nat, attempt: nat, attempt': nat, delay: real)
    requires Sane(b) && Rested(b, sleeps, before, attempt) && before <= seen && 0.0 <= delay <= b.max
    requires attempt' == (if seen > before then 0 else attempt) < b.maxRetries
    ensures Rested(b, sleeps + [Sleep(seen, delay)], seen, attempt' + 1)
  {
    if seen > before {
      RestedProgress(b, sleeps, before, seen, attempt);
    }
    RestedSleep(b, sleeps, seen, attempt', delay);
  }

  lemma SlumberedAfter(b: Backoff, turns: seq<Turn>, sleeps: seq<Sleep>, n: nat)
    requires Slumbered(b, turns, sleeps, n) && n < |turns|
    ensures Slumbered(b, turns, sleeps + [Rest(b, turns, n)], n + 1)
  {
  }

  lemma NoneStopsAfter(norm: Frame -> Normalized, b: Backoff, turns: seq<Turn>, n: nat)
    requires n < |turns| && NoneStops(norm, b, turns, n) && !Stops(norm, b, turns, n + 1)
    ensures NoneStops(norm, b, turns, n + 1)
  {
  }

  lemma SleptStillFollows(norm: Frame -> Normalized, most: nat, b: Backoff, turns: seq<Turn>, q: Progress, sleeps: seq<Sleep>, attempt: nat)
    requires Followed(norm, most, b, turns, q) && forall s :: SleptAt(sleeps, s) <= Budget(b, b.maxRetries)
    ensures Followed(norm, most, b, turns, q.(sleeps := sleeps, attempt := attempt))
  {
  }

  lemma CallsAfter(b: Backoff, used: nat, seen: nat, seen': nat, attempt: nat)
    requires used <= Calls(seen, b.maxRetries) + attempt && attempt <= b.maxRetries && seen <= seen'
    ensures used + 1 <= Calls(seen', b.maxRetries) + (if seen' > seen then 0 else attempt) + 1
  {
    if seen' > seen {
      CallsGrow(seen, seen', b.maxRetries);
    }
  }

  lemma SleptIsBetween(norm: Frame -> Normalized, most: nat, b: Backoff, turns: seq<Turn>, q: Progress)
    requires Followed(norm, most, b, turns, q) && NoneStops(norm, b, turns, q.used)
    requires 0 < q.attempt <= b.maxRetries && q.attempt <= q.used && q.attempt == Idle(turns, q.used) + 1
    requires q.used <= Calls(q.seen, b.maxRetries) + q.attempt
    requires Rested(b, q.sleeps, q.seen, q.attempt) && Slumbered(b, turns, q.sleeps, q.used)
    ensures Between(norm, most, b, turns, q)
  {
  }

  /** Sleeping after a connection that did not use up the retries. */
  lemma SleepFollows(norm: Frame -> Normalized, most: nat, b: Backoff, turns: seq<Turn>, p: Progress, q: Progress, rest: Sleep)
    requires Sane(b) && Between(norm, most, b, turns, p) && Followed(norm, most, b, turns, q)
    requires q.used == p.used + 1 && q.sleeps == p.sleeps && p.used < |turns|
    requires p.seen <= q.seen && q.attempt == (if q.seen > p.seen then 0 else p.attempt) < b.maxRetries
    requires rest == Rest(b, turns, p.used) && 0.0 <= rest.delay <= b.max
    ensures Idle(turns, q.used) == q.attempt && rest.seen == q.seen
    ensures Rested(b, q.sleeps + [rest], q.seen, q.attempt + 1)
    ensures Followed(norm, most, b, turns, q.(sleeps := q.sleeps + [rest]))
    ensures Followed(norm, most, b, turns, q.(attempt := q.attempt + 1, sleeps := q.sleeps + [rest]))
  {
    IdleNow(norm, most, b, turns, p);
    RestedAfter(b, p.sleeps, p.seen, q.seen, p.attempt, q.attempt, rest.delay);
    SleptStillFollows(norm, most, b, turns, q, q.sleeps + [rest], q.attempt);
    SleptStillFollows(norm, most, b, turns, q, q.sleeps + [rest], q.attempt + 1);
  }

  /** And one that did not end the loop either. */
  lemma SleepOnce(norm: Frame -> Normalized, most: nat, b: Backoff, turns: seq<Turn>, p: Progress, q: Progress, rest: Sleep)
    requires Sane(b) && Between(norm, most, b, turns, p) && Followed(norm, most, b, turns, q)
    requires q.used == p.used + 1 && q.sleeps == p.sleeps && p.used < |turns|
    requires p.seen <= q.seen && q.attempt == (if q.seen > p.seen then 0 else p.attempt) < b.maxRetries
    requires rest == Rest(b, turns, p.used) && 0.0 <= rest.delay <= b.max
    requires !Ends(norm, turns, q.used)
    ensures Between(norm, most, b, turns, q.(attempt := q.attempt + 1, sleeps := q.sleeps + [rest]))
  {
    SleepFollows(norm, most, b, turns, p, q, rest);
    CallsAfter(b, p.used, p.seen, q.seen, p.attempt);
    SlumberedAfter(b, turns, p.sleeps, p.used);
    NoneStopsAfter(norm, b, turns, p.used);
    SleptIsBetween(norm, most, b, turns, q.(attempt := q.attempt + 1, sleeps := q.sleeps + [rest]));
  }

  lemma MoreTurns(norm: Frame -> Normalized, most: nat, b: Backoff, turns: seq<Turn>, p: Progress)
    requires Between(norm, most, b, turns, p)
    ensures p.used <= Calls(most + 1, b.maxRetries)
  {
    CallsGrow(p.seen, most + 1, b.maxRetries);
  }

  /** Whether the loop goes on, and if not what it returns. */
  datatype Verdict = Again | Quit | Fail

  /** The loop's variables after a connection. */
  function Connected(norm: Frame -> Normalized, conn: Conn, p: Progress): Progress {
    var seen := Max(p.seen, |conn.frames|);
    Progress(seen, if seen > p.seen then 0 else p.attempt, p.used + 1,
             p.events + Events(norm, conn.frames, p.seen, |conn.frames|), p.sleeps)
  }

  function Ending(norm: Frame -> Normalized, conn: Conn, p: Progress): Outcome {
    Reported(conn.end, SawTerminal(Events(norm, conn.frames, p.seen, |conn.frames|)))
  }

  function Slept(b: Backoff, turn: Turn, q: Progress): Progress {
    q.(sleeps := q.sleeps + [Sleep(q.seen, DelayFor(b, q.attempt, Jitter(turn.hash)))])
  }

  /** One turn of the loop: a connection and, unless that ends the loop, a sleep. */
  function TurnVerdict(norm: Frame -> Normalized, b: Backoff, turn: Turn, p: Progress): Verdict {
    var ending := Ending(norm, turn.conn, p);
    if ending == Finished || turn.stopAfter then Quit
    else if Connected(norm, turn.conn, p).attempt >= b.maxRetries then (if ending == Broken then Fail else Quit)
    else if turn.stopSleep then Quit
    else Again
  }

  function Turned(norm: Frame -> Normalized, b: Backoff, turn: Turn, p: Progress): Progress {
    var q := Connected(norm, turn.conn, p);
    if Ending(norm, turn.conn, p) == Finished || turn.stopAfter || q.attempt >= b.maxRetries then q
    else if turn.stopSleep then Slept(b, turn, q)
    else Slept(b, turn, q).(attempt := q.attempt + 1)
  }

  method TakeTurn(norm: Frame -> Normalized, b: Backoff, turn: Turn, p: Progress) returns (q: Progress, verdict: Verdict)
    ensures q == Turned(norm, b, turn, p) && verdict == TurnVerdict(norm, b, turn, p)
  {
    var seen, news, outcome := AttachOnce(norm, turn.conn, p.seen);
    var attempt := if seen > p.seen then 0 else p.attempt;
    q := Progress(seen, attempt, p.used + 1, p.events + news, p.sleeps);
    if outcome == Finished || turn.stopAfter {
      return q, Quit;
    }
    if attempt >= b.maxRetries {
      return q, if outcome == Broken then Fail else Quit;
    }
    var delay := DelayFor(b, attempt, Jitter(turn.hash));
    q := q.(sleeps := q.sleeps + [Sleep(seen, delay)]);
    if turn.stopSleep {
      return q, Quit;
    }
    return q.(attempt := attempt + 1), Again;
  }

  lemma TurnSleeps(norm: Frame -> Normalized, most: nat, b: Backoff, turns: seq<Turn>, p: Progress, q: Progress)
    requires Sane(b) && Between(norm, most, b, turns, p) && Followed(norm, most, b, turns, q) && p.used < |turns|
    requires q.used == p.used + 1 && q.sleeps == p.sleeps
    requires p.seen <= q.seen && q.attempt == (if q.seen > p.seen then 0 else p.attempt) < b.maxRetries
    ensures Followed(norm, most, b, turns, Slept(b, turns[p.used], q))
    ensures Followed(norm, most, b, turns, Slept(b, turns[p.used], q).(attempt := q.attempt + 1))
    ensures !Ends(norm, turns, q.used) ==> Between(norm, most, b, turns, Slept(b, turns[p.used], q).(attempt := q.attempt + 1))
  {
    var jitter := Jitter(turns[p.used].hash);
    DelayBounds(b, q.attempt, jitter);
    IdleNow(norm, most, b, turns, p);
    var rest := Sleep(q.seen, DelayFor(b, q.attempt, jitter));
    SleepFollows(norm, most, b, turns, p, q, rest);
    if !Ends(norm, turns, q.used) {
      SleepOnce(norm, most, b, turns, p, q, rest);
    }
  }

  /** How a turn that does not end at its connection ends. */
  lemma TurnRests(norm: Frame -> Normalized, b: Backoff, turn: Turn, p: Progress)
    ensures var q := Connected(norm, turn.conn, p);
      Turned(norm, b, turn, p) ==
        if Ending(norm, turn.conn, p) == Finished || turn.stopAfter || q.attempt >= b.maxRetries then q
        else if turn.stopSleep then Slept(b, turn, q)
        else Slept(b, turn, q).(attempt := q.attempt + 1)
  {
  }

  lemma ConnectedFollows(norm: Frame -> Normalized, most: nat, b: Backoff, turns: seq<Turn>, p: Progress)
    requires Fits(turns, most) && Between(norm, most, b, turns, p) && p.used < |turns|
    ensures
      var q := Connected(norm, turns[p.used].conn, p);
      && Followed(norm, most, b, turns, q) && q.used == p.used + 1 && q.sleeps == p.sleeps
      && p.seen <= q.seen && q.attempt == if q.seen > p.seen then 0 else p.attempt
  {
    ConnectOnce(norm, most, b, turns, p, Connected(norm, turns[p.used].conn, p));
  }

  lemma SleptFollows(norm: Frame -> Normalized, most: nat, b: Backoff, turns: seq<Turn>, p: Progress)
    requires Sane(b) && Fits(turns, most) && Between(norm, most, b, turns, p) && p.used < |turns|
    requires Connected(norm, turns[p.used].conn, p).attempt < b.maxRetries
    ensures
      var q := Connected(norm, turns[p.used].conn, p);
      && Followed(norm, most, b, turns, Slept(b, turns[p.used], q))
      && Followed(norm, most, b, turns, Slept(b, turns[p.used], q).(attempt := q.attempt + 1))
  {
    var q := Connected(norm, turns[p.used].conn, p);
    ConnectedFollows(norm, most, b, turns, p);
    TurnSleeps(norm, most, b, turns, p, q);
  }

  lemma TurnFollows(norm: Frame -> Normalized, most: nat, b: Backoff, turns: seq<Turn>, p: Progress)
    requires Sane(b) && Fits(turns, most) && Between(norm, most, b, turns, p) && p.used < |turns|
    ensures Followed(norm, most, b, turns, Turned(norm, b, turns[p.used], p))
  {
    ConnectedFollows(norm, most, b, turns, p);
    TurnRests(norm, b, turns[p.used], p);
    if Connected(norm, turns[p.used].conn, p).attempt < b.maxRetries {
      SleptFollows(norm, most, b, turns, p);
    }
  }

  lemma WhenEnds(norm: Frame -> Normalized, turns: seq<Turn>, p: Progress)
    requires p.used < |turns| && p.seen == Longest(turns, p.used)
    ensures var turn := turns[p.used];
      && (Ending(norm, turn.conn, p) == Finished <==> CameToEnd(norm, turn.conn, p.seen))
      && (Ends(norm, turns, p.used + 1) <==> Ending(norm, turn.conn, p) == Finished || turn.stopAfter || turn.stopSleep)
      && (Ending(norm, turn.conn, p) == Broken <==> Unreadable(turn.conn.end))
  {
    ReportedIff(norm, turns[p.used].conn, p.seen);
  }

  lemma TurnAgain(norm: Frame -> Normalized, b: Backoff, turn: Turn, p: Progress)
    requires TurnVerdict(norm, b, turn, p) == Again
    ensures var q := Connected(norm, turn.conn, p);
      && Turned(norm, b, turn, p) == Slept(b, turn, q).(attempt := q.attempt + 1) && q.attempt < b.maxRetries
      && Ending(norm, turn.conn, p) != Finished && !turn.stopAfter && !turn.stopSleep
  {
  }

  lemma AgainIsBetween(norm: Frame -> Normalized, most: nat, b: Backoff, turns: seq<Turn>, p: Progress, q: Progress)
    requires Sane(b) && Between(norm, most, b, turns, p) && Followed(norm, most, b, turns, q) && p.used < |turns|
    requires q == Connected(norm, turns[p.used].conn, p) && q.attempt < b.maxRetries
    requires Ending(norm, turns[p.used].conn, p) != Finished && !turns[p.used].stopAfter && !turns[p.used].stopSleep
    ensures Between(norm, most, b, turns, Slept(b, turns[p.used], q).(attempt := q.attempt + 1))
  {
    WhenEnds(norm, turns, p);
    TurnSleeps(norm, most, b, turns, p, q);
  }

  lemma TurnGoesOn(norm: Frame -> Normalized, most: nat, b: Backoff, turns: seq<Turn>, p: Progress)
    requires Sane(b) && Fits(turns, most) && Between(norm, most, b, turns, p) && p.used < |turns|
    requires TurnVerdict(norm, b, turns[p.used], p) == Again
    ensures Between(norm, most, b, turns, Turned(norm, b, turns[p.used], p))
  {
    var q := Connected(norm, turns[p.used].conn, p);
    ConnectedFollows(norm, most, b, turns, p);
    TurnAgain(norm, b, turns[p.used], p);
    AgainIsBetween(norm, most, b, turns, p, q);
  }

  /** How many sleeps a turn leaves behind. */
  lemma TurnSlumbers(norm: Frame -> Normalized, most: nat, b: Backoff, turns: seq<Turn>, p: Progress)
    requires Between(norm, most, b, turns, p) && p.used < |turns|
    ensures
      Slumbered(b, turns, Turned(norm, b, turns[p.used], p).sleeps,
                if GoesToSleep(norm, b, turns, p.used + 1) then p.used + 1 else p.used)
  {
    WhenEnds(norm, turns, p);
    IdleNow(norm, most, b, turns, p);
    TurnRests(norm, b, turns[p.used], p);
  }

  lemma TurnStops(norm: Frame -> Normalized, most: nat, b: Backoff, turns: seq<Turn>, p: Progress)
    requires Fits(turns, most) && Between(norm, most, b, turns, p) && p.used < |turns|
    ensures Stopped(norm, b, turns, p.used + 1, TurnVerdict(norm, b, turns[p.used], p))
  {
    WhenEnds(norm, turns, p);
    IdleNow(norm, most, b, turns, p);
  }

  /** Whether the loop goes on after the `n`-th connection, and what it returns if not. */
  ghost predicate Stopped(norm: Frame -> Normalized, b: Backoff, turns: seq<Turn>, n: nat, verdict: Verdict)
    requires 0 < n <= |turns|
  {
    && (verdict == Again <==> !Stops(norm, b, turns, n))
    && (verdict == Fail <==> Fails(b, turns, n))
  }

  /** The loop stops after `p`: its last connection gave it a reason, and none before did. */
  ghost predicate StopsAt(norm: Frame -> Normalized, most: nat, b: Backoff, turns: seq<Turn>, p: Progress) {
    && Followed(norm, most, b, turns, p)
    && Stops(norm, b, turns, p.used) && NoneStops(norm, b, turns, p.used - 1)
    && Slumbered(b, turns, p.sleeps, if GoesToSleep(norm, b, turns, p.used) then p.used else p.used - 1)
  }

  /** One more turn of the loop. */
  lemma LoopTurn(norm: Frame -> Normalized, most: nat, b: Backoff, turns: seq<Turn>, p: Progress)
    requires Sane(b) && Fits(turns, most) && |turns| > Calls(most + 1, b.maxRetries)
    requires Between(norm, most, b, turns, p)
    ensures p.used < |turns| && p.seen <= most && p.attempt <= b.maxRetries
    ensures
      var q, verdict := Turned(norm, b, turns[p.used], p), TurnVerdict(norm, b, turns[p.used], p);
      && (verdict == Again ==>
            && Between(norm, most, b, turns, q)
            && (p.seen < q.seen <= most || (p.seen == q.seen && p.attempt < q.attempt <= b.maxRetries)))
      && (verdict != Again ==>
            StopsAt(norm, most, b, turns, q) && (verdict == Fail <==> Fails(b, turns, q.used)))
  {
    MoreTurns(norm, most, b, turns, p);
    TurnFollows(norm, most, b, turns, p);
    TurnStops(norm, most, b, turns, p);
    TurnSlumbers(norm, most, b, turns, p);
    if TurnVerdict(norm, b, turns[p.used], p) == Again {
      TurnGoesOn(norm, most, b, turns, p);
      TurnAgain(norm, b, turns[p.used], p);
    }
  }

  /** For any behaviour of the connections the loop stops, at the first connection
      that ends it or uses up the retries, and it returns an error exactly when that one
      used them up on a stream that could not be opened or read. */
  method AttachLoop(norm: Frame -> Normalized, ghost most: nat, backoff: Backoff, turns: seq<Turn>)
    returns (p: Progress, ok: bool)
    requires Sane(backoff) && Fits(turns, most) && |turns| > Calls(most + 1, backoff.maxRetries)
    ensures StopsAt(norm, most, backoff, turns, p)
    ensures !ok <==> Fails(backoff, turns, p.used)
  {
    p := Progress(0, 0, 0, [], []);
    RestedStart(backoff);
    while true
      invariant Between(norm, most, backoff, turns, p)
      decreases most - p.seen, backoff.maxRetries - p.attempt
    {
      LoopTurn(norm, most, backoff, turns, p);
      var verdict;
      p, verdict := TakeTurn(norm, backoff, turns[p.used], p);
      if verdict != Again {
        return p, verdict == Quit;
      }
    }
  }

  lemma ProductBounds(most: nat, b: Backoff, used: nat, sleeps: seq<Sleep>)
    requires used <= Calls(most + 1, b.maxRetries) + 1 && forall s :: SleptAt(sleeps, s) <= Budget(b, b.maxRetries)
    ensures used <= (most + 1) * b.maxRetries + 1
    ensures forall s :: SleptAt(sleeps, s) <= b.maxRetries as real * b.max
  {
    CallsIsProduct(most + 1, b.maxRetries);
    BudgetIsProduct(b, b.maxRetries);
  }

  /** The loop's bounds as products. */
  lemma FollowedBounds(norm: Frame -> Normalized, most: nat, b: Backoff, turns: seq<Turn>, p: Progress)
    requires Followed(norm, most, b, turns, p)
    ensures p.used <= (most + 1) * b.maxRetries + 1
    ensures forall s :: SleptAt(p.sleeps, s) <= b.maxRetries as real * b.max
  {
    ProductBounds(most, b, p.used, p.sleeps);
  }

  // ---------------------------------------------------- lines that are cut short

  /** A connection replays the agent's frames from the start; where the stream ends in the
      middle of a line, what there is of the line counts as a frame. */
  ghost predicate Replays(conn: Conn, all: seq<Frame>) {
    && |conn.frames| <= |all|
    && forall i :: 0 <= i < |conn.frames| ==>
         conn.frames[i] == all[i] || (i == |conn.frames| - 1 && conn.end == Eof && "" < conn.frames[i] < all[i])
  }

  ghost predicate AllReplay(turns: seq<Turn>, all: seq<Frame>) {
    forall i :: 0 <= i < |turns| ==> Replays(turns[i].conn, all)
  }

  /** What there is of a line that is cut short does not parse. */
  ghost predicate CutsAreGarbled(norm: Frame -> Normalized, all: seq<Frame>) {
    forall i, cut :: 0 <= i < |all| && cut < all[i] ==> norm(cut).Garbled?
  }

  /** Each frame is whole, or a cut one that does not parse. */
  ghost predicate WholeOrGarbled(norm: Frame -> Normalized, frames: seq<Frame>, all: seq<Frame>) {
    |frames| <= |all| && forall i :: 0 <= i < |frames| ==> frames[i] == all[i] || norm(frames[i]).Garbled?
  }

  lemma ConnWholeOrGarbled(norm: Frame -> Normalized, conn: Conn, all: seq<Frame>)
    requires Replays(conn, all) && CutsAreGarbled(norm, all)
    ensures WholeOrGarbled(norm, conn.frames, all)
  {
  }

  lemma GoesOnWhole(norm: Frame -> Normalized, before: seq<Frame>, now: seq<Frame>, all: seq<Frame>)
    requires WholeOrGarbled(norm, before, all) && WholeOrGarbled(norm, now, all) && |before| < |now|
    ensures WholeOrGarbled(norm, before + now[|before|..], all)
  {
    var frames := before + now[|before|..];
    assert forall i :: 0 <= i < |frames| ==> frames[i] == if i < |before| then before[i] else now[i];
  }

  lemma {:induction false} ReadWholeOrGarbled(norm: Frame -> Normalized, turns: seq<Turn>, all: seq<Frame>, n: nat)
    requires AllReplay(turns, all) && CutsAreGarbled(norm, all) && n <= |turns|
    ensures WholeOrGarbled(norm, FirstRead(turns, n), all)
  {
    if n > 0 {
      var before, now := FirstRead(turns, n - 1), turns[n - 1].conn.frames;
      ReadWholeOrGarbled(norm, turns, all, n - 1);
      ConnWholeOrGarbled(norm, turns[n - 1].conn, all);
      if |before| < |now| {
        GoesOnWhole(norm, before, now, all);
      }
    }
  }

  /** A frame whose event was lost: it stands for one, but was cut short when it was read. */
  predicate LostAt(norm: Frame -> Normalized, frames: seq<Frame>, all: seq<Frame>, i: nat)
    requires i < |frames| <= |all|
  {
    norm(all[i]).Emits? && frames[i] != all[i]
  }

  ghost predicate NoneLost(norm: Frame -> Normalized, frames: seq<Frame>, all: seq<Frame>, n: nat)
    requires n <= |frames| <= |all|
  {
    forall i :: 0 <= i < n ==> !LostAt(norm, frames, all, i)
  }

  lemma {:induction false} EventsLost(norm: Frame -> Normalized, frames: seq<Frame>, all: seq<Frame>, n: nat)
    requires WholeOrGarbled(norm, frames, all) && n <= |frames|
    ensures NoneLost(norm, frames, all, n) ==> Events(norm, frames, 0, n) == Events(norm, all, 0, n)
    ensures !NoneLost(norm, frames, all, n) ==> |Events(norm, frames, 0, n)| < |Events(norm, all, 0, n)|
    ensures |Events(norm, frames, 0, n)| <= |Events(norm, all, 0, n)|
  {
    if n > 0 {
      EventsLost(norm, frames, all, n - 1);
      assert NoneLost(norm, frames, all, n) <==> NoneLost(norm, frames, all, n - 1) && !LostAt(norm, frames, all, n - 1);
    }
  }

  /** What the loop has emitted is all that the frames it has seen stand for if and only
      if no frame that stands for an event was cut short on the connection that reached it
      first: a later connection that has the whole line skips it. */
  lemma NothingLostIff(norm: Frame -> Normalized, all: seq<Frame>, b: Backoff, turns: seq<Turn>, p: Progress)
    requires AllReplay(turns, all) && CutsAreGarbled(norm, all) && Followed(norm, |all|, b, turns, p)
    ensures p.events == Events(norm, all, 0, p.seen) <==> NoneLost(norm, FirstRead(turns, p.used), all, p.seen)
  {
    ReadWholeOrGarbled(norm, turns, all, p.used);
    EventsLost(norm, FirstRead(turns, p.used), all, p.seen);
  }

  /** The stream of one frame ends in the middle of it and is then replayed whole: the
      frame counts as seen, and its event is never emitted. */
  lemma CutLineIsLost(norm: Frame -> Normalized, cut: Frame, line: Frame, first: Turn, second: Turn)
    requires norm(cut).Garbled? && norm(line).Emits? && "" < cut < line
    requires first.conn == Conn([cut], Eof) && second.conn == Conn([line], Eof)
    ensures
      var turns := [first, second];
      && AllReplay(turns, [line]) && Longest(turns, 2) == 1
      && Events(norm, FirstRead(turns, 2), 0, 1) == [] && Events(norm, [line], 0, 1) == [norm(line).kind]
  {
    var turns := [first, second];
    assert Longest(turns, 0) == 0 && FirstRead(turns, 0) == [];
    assert Longest(turns, 1) == 1 && FirstRead(turns, 1) == [] + [cut][0..];
    assert Longest(turns, 2) == 1 && FirstRead(turns, 2) == FirstRead(turns, 1) == [cut];
    assert Events(norm, [cut], 0, 0) == [];
  }

  // ------------------------------------------------------ knowing it finished

  /** Once the frames that say so have been read, on connections that did not end cleanly,
      no later end of the stream is taken as the agent's end: the loop uses up its
      retries on an agent that has finished. */
  lemma FinishIsMissed(norm: Frame -> Normalized, all: seq<Frame>, turns: seq<Turn>, n: nat, m: nat)
    requires AllReplay(turns, all) && CutsAreGarbled(norm, all) && n < m <= |turns| && turns[m - 1].conn.end == Eof
    requires forall k :: Longest(turns, n) <= k < |all| ==> !Finishing(norm, all[k])
    ensures !CameToEnd(norm, turns[m - 1].conn, Longest(turns, m - 1))
  {
    LongestGrows(turns, n, m - 1);
    ConnWholeOrGarbled(norm, turns[m - 1].conn, all);
  }
}
