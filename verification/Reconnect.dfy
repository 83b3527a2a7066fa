/** The reconnect driver: which sessions are retried, how long it waits, and when it
    gives up. */
module Reconnect {
  import opened Common

  const MAX_RECONNECT_ATTEMPTS: nat := 30
  const BASE_BACKOFF_MS: nat := 500
  const MAX_BACKOFF_MS: nat := 5000
  const POLL_MS: nat := 100

  // ----- the backoff schedule -----

  function Pow(b: nat, e: nat): (p: nat)
    ensures b > 0 ==> p > 0
  {
    if e == 0 then 1 else b * Pow(b, e - 1)
  }

  /** 500 * 1.6^k in exact arithmetic, truncated to whole milliseconds. */
  function Ramp(k: nat): nat { BASE_BACKOFF_MS * Pow(8, k) / Pow(5, k) }

  function BackoffDelay(attempt: nat): nat {
    if attempt <= 1 then BASE_BACKOFF_MS else Min(Ramp(attempt - 1), MAX_BACKOFF_MS)
  }

  lemma {:induction false} MulStep(d: nat, r: nat, q: nat)
    ensures r < q ==> d * r + d <= d * q
  {
    if r < q {
      assert d * q == d * r + d * (q - r);
      assert d * (q - r) == d + d * (q - r - 1);
    }
  }

  lemma {:induction false} DivAtLeast(x: nat, d: nat, q: nat)
    requires d > 0 && d * q <= x
    ensures x / d >= q
  {
    assert x == d * (x / d) + x % d;
    MulStep(d, x / d, q);
  }

  lemma DivGrows(a: nat, b: nat)
    requires b > 0
    ensures a / b <= 8 * a / (5 * b)
  {
    var q := a / b;
    assert a == b * q + a % b;
    assert (5 * b) * q == 5 * (b * q);
    DivAtLeast(8 * a, 5 * b, q);
  }

  lemma {:induction false} RampGrows(k: nat)
    ensures Ramp(k) <= Ramp(k + 1)
  {
    var a := BASE_BACKOFF_MS * Pow(8, k);
    assert BASE_BACKOFF_MS * Pow(8, k + 1) == 8 * a;
    DivGrows(a, Pow(5, k));
  }

  lemma RampStart()
    ensures Ramp(1) == 800 && Ramp(2) == 1280 && Ramp(3) == 2048 && Ramp(4) == 3276 && Ramp(5) == 5242
  {
  }

  lemma {:induction false} RampCapped(k: nat)
    requires k >= 5
    ensures Ramp(k) >= MAX_BACKOFF_MS
  {
    RampStart();
    if k > 5 {
      RampCapped(k - 1);
      RampGrows(k - 1);
    }
  }

  /** The schedule never shrinks, starts at 500 ms and stays at 5 s from the sixth
      attempt on. */
  lemma {:induction false} BackoffMonotone(attempt: nat)
    ensures BASE_BACKOFF_MS <= BackoffDelay(attempt) <= BackoffDelay(attempt + 1) <= MAX_BACKOFF_MS
    ensures BackoffDelay(attempt) == MAX_BACKOFF_MS <==> attempt >= 6
  {
    RampStart();
    if attempt >= 5 {
      RampCapped(attempt);
    }
    if attempt >= 6 {
      RampCapped(attempt - 1);
    }
  }

  function TotalBackoff(attempts: nat): nat {
    if attempts == 0 then 0 else TotalBackoff(attempts - 1) + BackoffDelay(attempts)
  }

  lemma {:induction false} TotalBackoffClosedForm(attempts: nat)
    requires attempts >= 5
    ensures TotalBackoff(attempts) == 7904 + 5000 * (attempts - 5)
  {
    RampStart();
    if attempts == 5 {
      assert TotalBackoff(1) == 500 && TotalBackoff(2) == 1300 && TotalBackoff(3) == 2580 && TotalBackoff(4) == 4628;
    } else {
      TotalBackoffClosedForm(attempts - 1);
      BackoffMonotone(attempts);
    }
  }

  // ----- the driver -----

  datatype SessionOutcome = Shutdown | Dropped(connected: bool)

  /** One turn of the loop: how the session ended, and whether the following backoff
      was cut short by a shutdown. */
  datatype Round = Round(session: SessionOutcome, stopInBackoff: bool)

  datatype Event = Disconnected | Reconnecting(attempt: nat) | ReconnectFailed

  datatype Status = Running | Stopped | Failed

  datatype Drive = Drive(attempt: nat, events: seq<Event>, slept: nat, status: Status)

  const BEGIN := Drive(0, [], 0, Running)

  function Turn(d: Drive, r: Round): Drive {
    if d.status != Running then d
    else if r.session.Shutdown? then d.(status := Stopped)
    else
      var first := r.session.connected || d.attempt == 0;
      var attempt := (if r.session.connected then 0 else d.attempt) + 1;
      var events := d.events + if first then [Disconnected] else [];
      if attempt > MAX_RECONNECT_ATTEMPTS then Drive(attempt, events + [ReconnectFailed], d.slept, Failed)
      else if r.stopInBackoff then Drive(attempt, events, d.slept, Stopped)
      else Drive(attempt, events + [Reconnecting(attempt)], d.slept + BackoffDelay(attempt), Running)
  }

  function Driven(rounds: seq<Round>): Drive {
    if rounds == [] then BEGIN else Turn(Driven(rounds[..|rounds| - 1]), rounds[|rounds| - 1])
  }

  /** The driver as a loop over the rounds that the world deals it. */
  method NetworkLoop(blankToken: bool, rounds: seq<Round>) returns (d: Drive)
    ensures blankToken ==> d.status == Failed && d.events == [Disconnected, ReconnectFailed] && d.slept == 0
    ensures !blankToken ==> d == Driven(rounds)
  {
    if blankToken {
      return Drive(0, [Disconnected, ReconnectFailed], 0, Failed);
    }
    var attempt: nat, slept: nat, i: nat := 0, 0, 0;
    var events: seq<Event> := [];
    while i < |rounds|
      invariant i <= |rounds| && Driven(rounds[..i]) == Drive(attempt, events, slept, Running)
    {
      assert rounds[..i + 1][..i] == rounds[..i];
      var r := rounds[i];
      i := i + 1;
      if r.session.Shutdown? {
        SettledStays(rounds, i);
        return Drive(attempt, events, slept, Stopped);
      }
      if r.session.connected {
        attempt := 0;
        events := events + [Disconnected];
      } else if attempt == 0 {
        events := events + [Disconnected];
      }
      attempt := attempt + 1;
      if attempt > MAX_RECONNECT_ATTEMPTS {
        SettledStays(rounds, i);
        return Drive(attempt, events + [ReconnectFailed], slept, Failed);
      }
      if r.stopInBackoff {
        SettledStays(rounds, i);
        return Drive(attempt, events, slept, Stopped);
      }
      slept := slept + BackoffDelay(attempt);
      events := events + [Reconnecting(attempt)];
    }
    assert rounds[..i] == rounds;
    d := Drive(attempt, events, slept, Running);
  }

  lemma {:induction false} SettledStays(rounds: seq<Round>, i: nat)
    requires i <= |rounds|
    ensures Driven(rounds[..i]).status != Running ==> Driven(rounds) == Driven(rounds[..i])
    decreases |rounds| - i
  {
    if i < |rounds| {
      SettledStays(rounds, i + 1);
      assert rounds[..i + 1][..i] == rounds[..i];
    } else {
      assert rounds[..i] == rounds;
    }
  }

  // ----- what an observer of the events sees -----

  /** Each event follows the one the protocol allows before it. */
  predicate Follows(events: seq<Event>, i: nat)
    requires i < |events|
  {
    match events[i]
    case Disconnected => i == 0 || events[i - 1].Reconnecting?
    case Reconnecting(n) =>
      1 <= n <= MAX_RECONNECT_ATTEMPTS && i > 0 && events[i - 1] == if n == 1 then Disconnected else Reconnecting(n - 1)
    case ReconnectFailed => i == |events| - 1 && i > 0 && events[i - 1] == Reconnecting(MAX_RECONNECT_ATTEMPTS)
  }

  predicate Settled(d: Drive) {
    && (forall i :: 0 <= i < |d.events| ==> Follows(d.events, i))
    && (d.status == Failed <==> ReconnectFailed in d.events)
    && (d.status == Running ==>
          if d.attempt == 0 then d.events == []
          else
            && d.attempt <= MAX_RECONNECT_ATTEMPTS && d.events != []
            && d.events[|d.events| - 1] == Reconnecting(d.attempt))
  }

  lemma FollowsKept(events: seq<Event>, more: seq<Event>)
    requires ReconnectFailed !in events && forall i :: 0 <= i < |events| ==> Follows(events, i)
    ensures forall i :: 0 <= i < |events| ==> Follows(events + more, i)
  {
    forall i | 0 <= i < |events|
      ensures Follows(events + more, i)
    {
      assert Follows(events, i) && events[i] in events;
    }
  }

  /** Main result: the Reconnecting numbers between Disconnected events are 1, 2, ...,
      at most 30, and ReconnectFailed comes last, right after Reconnecting(30). */
  lemma {:induction false} EventsFollowProtocol(rounds: seq<Round>)
    ensures Settled(Driven(rounds))
  {
    if rounds != [] {
      var n := |rounds| - 1;
      EventsFollowProtocol(rounds[..n]);
      TurnKeepsSettled(Driven(rounds[..n]), rounds[n]);
    }
  }

  lemma {:induction false} TurnKeepsSettled(d: Drive, r: Round)
    requires Settled(d)
    ensures Settled(Turn(d, r))
  {
    if d.status == Running {
      var first := if r.session.Dropped? && (r.session.connected || d.attempt == 0) then [Disconnected] else [];
      var d' := Turn(d, r);
      FollowsKept(d.events, first);
      var events := d.events + first;
      assert forall i :: 0 <= i < |events| ==> Follows(events, i);
      if |d'.events| > |events| {
        var last := d'.events[|events|];
        assert d'.events == events + [last];
        FollowsKept(events, [last]);
        assert Follows(d'.events, |events|);
      }
    }
  }

  predicate NoStop(rounds: seq<Round>) {
    forall i :: 0 <= i < |rounds| ==> rounds[i].session.Dropped? && !rounds[i].stopInBackoff
  }

  /** A losing streak: 31 rounds in a row of which none but the first joined a scene. */
  predicate LosingStreak(rounds: seq<Round>, i: nat) {
    i + MAX_RECONNECT_ATTEMPTS < |rounds| &&
    forall j :: i < j <= i + MAX_RECONNECT_ATTEMPTS ==> j < |rounds| && !Joined(rounds[j])
  }

  predicate Joined(r: Round) { r.session.Dropped? && r.session.connected }

  /** Rounds since the last join, that one included. */
  function Since(rounds: seq<Round>): nat {
    if rounds == [] then 0
    else if Joined(rounds[|rounds| - 1]) then 1
    else Since(rounds[..|rounds| - 1]) + 1
  }

  lemma {:induction false} SinceIff(rounds: seq<Round>, m: nat)
    requires m >= 1
    ensures Since(rounds) >= m <==>
      |rounds| >= m && forall j :: |rounds| - m < j < |rounds| ==> !Joined(rounds[j])
  {
    if rounds != [] && m > 1 {
      var n := |rounds| - 1;
      SinceIff(rounds[..n], m - 1);
      if |rounds| >= m && !Joined(rounds[n]) {
        assert (forall j :: |rounds| - m < j < |rounds| ==> !Joined(rounds[j])) <==>
               (forall j :: n - (m - 1) < j < n ==> !Joined(rounds[..n][j]));
      }
    }
  }

  lemma {:induction false} AttemptCounts(rounds: seq<Round>)
    requires NoStop(rounds)
    ensures var d := Driven(rounds);
      && d.status != Stopped
      && (d.status == Running ==> d.attempt == Since(rounds) <= MAX_RECONNECT_ATTEMPTS)
      && (d.status == Failed <==> exists k :: 0 <= k <= |rounds| && Since(rounds[..k]) > MAX_RECONNECT_ATTEMPTS)
  {
    if rounds != [] {
      var n := |rounds| - 1;
      AttemptCounts(rounds[..n]);
      assert forall k :: 0 <= k <= n ==> rounds[..n][..k] == rounds[..k];
      assert rounds[..n + 1] == rounds;
    } else {
      assert forall k :: 0 <= k <= |rounds| ==> rounds[..k] == [];
    }
  }

  /** Main result: unless the application stops it, the driver gives up exactly when
      31 rounds in a row go by of which none but the first joined a scene; so it always
      ends once joins stop. */
  lemma {:induction false} GivesUpIff(rounds: seq<Round>)
    requires NoStop(rounds)
    ensures ReconnectFailed in Driven(rounds).events <==> exists i: nat :: LosingStreak(rounds, i)
  {
    AttemptCounts(rounds);
    EventsFollowProtocol(rounds);
    var m := MAX_RECONNECT_ATTEMPTS + 1;
    if k :| 0 <= k <= |rounds| && Since(rounds[..k]) >= m {
      SinceIff(rounds[..k], m);
      assert LosingStreak(rounds, k - m) by {
        assert forall j :: 0 <= j < k ==> rounds[..k][j] == rounds[j];
      }
    }
    if i: nat :| LosingStreak(rounds, i) {
      SinceIff(rounds[..i + m], m);
      assert forall j :: 0 <= j < i + m ==> rounds[..i + m][j] == rounds[j];
    }
  }

  lemma {:induction false} NeverJoiningSlept(rounds: seq<Round>)
    requires NoStop(rounds) && |rounds| <= MAX_RECONNECT_ATTEMPTS + 1
    requires forall j :: 0 <= j < |rounds| ==> !Joined(rounds[j])
    ensures var d := Driven(rounds);
      && d.attempt == |rounds|
      && (if |rounds| <= MAX_RECONNECT_ATTEMPTS then d.status == Running else d.status == Failed)
      && d.slept == TotalBackoff(Min(|rounds|, MAX_RECONNECT_ATTEMPTS))
  {
    if rounds != [] {
      var n := |rounds| - 1;
      NeverJoiningSlept(rounds[..n]);
      assert !Joined(rounds[n]);
    }
  }

  /** A run that never joins waits 132904 ms in all before it gives up, which it does
      with its 31st session. */
  lemma {:induction false} FailingRunSleeps(rounds: seq<Round>)
    requires NoStop(rounds) && |rounds| <= MAX_RECONNECT_ATTEMPTS + 1
    requires forall j :: 0 <= j < |rounds| ==> !Joined(rounds[j])
    ensures var d := Driven(rounds);
      && d.attempt == |rounds|
      && (d.status == Failed <==> |rounds| == MAX_RECONNECT_ATTEMPTS + 1)
      && d.slept == TotalBackoff(Min(|rounds|, MAX_RECONNECT_ATTEMPTS))
      && (d.status == Failed ==> d.slept == 132904)
  {
    NeverJoiningSlept(rounds);
    TotalBackoffClosedForm(MAX_RECONNECT_ATTEMPTS);
  }

  /** The application stops the driver in this round. */
  predicate Quits(r: Round) { r.session.Shutdown? || r.stopInBackoff }

  /** A shutdown, in a session or in the wait after it, ends the driver: no event and no
      sleep comes of it or after it, but for the end of the session and giving up. */
  lemma {:induction false} QuittingEnds(rounds: seq<Round>, r: Round, more: seq<Round>)
    requires Driven(rounds).status == Running && Quits(r)
    ensures var d, e := Driven(rounds), Driven(rounds + [r] + more);
      && e.status != Running && e.slept == d.slept
      && (r.session.Shutdown? ==> e.status == Stopped && e.events == d.events)
      && (r.session.Dropped? ==>
            e.events == d.events
              + (if r.session.connected || d.attempt == 0 then [Disconnected] else [])
              + (if e.status == Failed then [ReconnectFailed] else []))
      && (e.status == Failed <==>
            r.session.Dropped? && !r.session.connected && d.attempt == MAX_RECONNECT_ATTEMPTS)
  {
    var all := rounds + [r] + more;
    EventsFollowProtocol(rounds);
    assert all[..|rounds| + 1] == rounds + [r] && (rounds + [r])[..|rounds|] == rounds;
    SettledStays(all, |rounds| + 1);
  }

  lemma {:induction false} RunningNeverQuit(rounds: seq<Round>)
    requires Driven(rounds).status == Running
    ensures forall i :: 0 <= i < |rounds| ==> !Quits(rounds[i])
  {
    if rounds != [] {
      var n := |rounds| - 1;
      RunningNeverQuit(rounds[..n]);
      assert forall i :: 0 <= i < n ==> rounds[..n][i] == rounds[i];
    }
  }

  /** Main result: the driver goes on exactly as long as the application has not stopped it
      and 31 rounds in a row without a join after the first have not gone by. */
  lemma {:induction false} GoesOnIff(rounds: seq<Round>)
    ensures Driven(rounds).status == Running <==> NoStop(rounds) && !(exists i: nat :: LosingStreak(rounds, i))
  {
    if NoStop(rounds) {
      GivesUpIff(rounds);
      AttemptCounts(rounds);
      EventsFollowProtocol(rounds);
    } else if Driven(rounds).status == Running {
      RunningNeverQuit(rounds);
      assert false;
    }
  }

  // ----- the interruptible sleep -----

  /** One poll: the commands waiting (true for Shutdown), whether the channel is closed
      behind them, and by how much the following sleep overshoots. */
  datatype Poll = Poll(shutdowns: seq<bool>, closed: bool, overshoot: nat)

  predicate Stops(p: Poll) { true in p.shutdowns || p.closed }

  method DrainCommands(p: Poll) returns (stop: bool)
    ensures stop <==> Stops(p)
  {
    for i := 0 to |p.shutdowns|
      invariant true !in p.shutdowns[..i]
    {
      if p.shutdowns[i] {
        return true;
      }
    }
    stop := p.closed;
  }

  function Overshoots(polls: seq<Poll>): nat {
    if polls == [] then 0 else Overshoots(polls[..|polls| - 1]) + polls[|polls| - 1].overshoot
  }

  /** Sleeps for `total`, and stops early exactly when a poll sees a reason to; the
      polls are at most 100 ms (and the scheduler's overshoot) apart. */
  method SleepWithShutdown(total: nat, polls: seq<Poll>) returns (stopped: bool, used: nat, elapsed: nat)
    requires |polls| >= total / POLL_MS + 2
    ensures 0 < used <= total / POLL_MS + 2
    ensures stopped <==> exists i :: 0 <= i < used && Stops(polls[i])
    ensures stopped ==> Stops(polls[used - 1]) && forall i :: 0 <= i < used - 1 ==> !Stops(polls[i])
    ensures !stopped ==> elapsed >= total
    ensures elapsed <= Min(total, POLL_MS * (used - 1)) + Overshoots(polls[..used - 1])
  {
    used, elapsed := 0, 0;
    while true
      invariant used <= |polls| && (elapsed < total ==> elapsed >= POLL_MS * used)
      invariant used > 0 && elapsed >= total ==> POLL_MS * (used - 1) < total
      invariant forall i :: 0 <= i < used ==> !Stops(polls[i])
      invariant elapsed <= Min(total, POLL_MS * used) + Overshoots(polls[..used])
      decreases total - elapsed, 1 + total / POLL_MS + 2 - used
    {
      var stop := DrainCommands(polls[used]);
      used := used + 1;
      assert polls[..used][..used - 1] == polls[..used - 1];
      if stop {
        return true, used, elapsed;
      }
      if elapsed >= total {
        return false, used, elapsed;
      }
      elapsed := elapsed + Min(total - elapsed, POLL_MS) + polls[used - 1].overshoot;
    }
  }
}
