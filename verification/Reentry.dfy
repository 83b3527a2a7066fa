/** Joining a scene a second time: a run from a new runtime that starts two cooldowns
    within a second, because the second joining comes early. */
module Reentry {
  import opened Common
  import opened FastLane
  import opened Runtime
  import opened RuntimeRuns
  import opened FastLaneRates

  /** The inputs, in time order, lead a new runtime to this tally, state and clock. */
  ghost predicate Reaches(inputs: seq<Input>, t: Tally, rt: Rt, clock: nat) {
    Run(NEW, inputs) == rt && Tallied(inputs) == t && TimeOrdered(0, inputs) && ClockAfter(0, inputs) == clock
  }

  lemma ReachesSnoc(inputs: seq<Input>, t: Tally, rt: Rt, clock: nat, i: Input)
    requires Reaches(inputs, t, rt, clock) && clock <= TimeOf(i, clock)
    ensures Reaches(inputs + [i], Count(t, rt, i, Step(rt, i)), Step(rt, i).rt, TimeOf(i, clock))
  {
    assert (inputs + [i])[..|inputs|] == inputs;
  }

  /** The same for a step whose effect is known. */
  lemma SnocReaches(inputs: seq<Input>, t: Tally, rt: Rt, clock: nat, i: Input, t': Tally, rt': Rt, clock': nat)
    requires Reaches(inputs, t, rt, clock) && clock <= clock' == TimeOf(i, clock)
    requires Step(rt, i).rt == rt' && Count(t, rt, i, Step(rt, i)) == t'
    ensures Reaches(inputs + [i], t', rt', clock')
  {
    ReachesSnoc(inputs, t, rt, clock, i);
  }

  const REASON := "udp attach failed"

  /** In scene, with this next id and lane and nothing else going on. */
  function InSceneWith(nextId: nat, lane: Lane): Rt {
    Rt(true, InScene, nextId, Some(2), map[], (0, 0), map[], lane, 0)
  }

  /** Waiting for the ticket of bootstrap request `id` after so many failed attempts. */
  function Bootstrapping(id: nat, attempts: nat): Rt {
    InSceneWith(id + 1, Lane(Some(id), None, None, None, false, None, attempts, None, None))
  }

  /** Waiting for the answer to the attach that its ticket led to. */
  function Attaching(id: nat, attempts: nat): Rt {
    InSceneWith(id + 2, Lane(None, Some(id + 1), Some(1), Some("t"), false, None, attempts, None, None))
  }

  function CoolingDown(id: nat, until: nat): Rt {
    InSceneWith(id, Lane(None, None, None, None, false, Some(REASON), MAX_REBOOTSTRAP_ATTEMPTS, None, Some(until)))
  }

  /** The ticket arrives and the UDP socket cannot be opened. */
  function FailedAttach(id: nat, now: nat): seq<Input> {
    [FromServer(Tcp, FastLaneResult(id, true, Some(1), Some("t")), now)] + [SocketFailed(REASON, now)]
  }

  function Join(now: nat): Input { FromServer(Tcp, EnterSceneResult(2, true, true, Some(0)), now) }

  lemma TicketReaches(inputs: seq<Input>, t: Tally, id: nat, attempts: nat, clock: nat, now: nat)
    requires Reaches(inputs, t, Bootstrapping(id, attempts), clock) && clock <= now
    ensures Reaches(inputs + [FromServer(Tcp, FastLaneResult(id, true, Some(1), Some("t")), now)], t,
                    Attaching(id, attempts), now)
  {
    ReachesSnoc(inputs, t, Bootstrapping(id, attempts), clock,
                FromServer(Tcp, FastLaneResult(id, true, Some(1), Some("t")), now));
  }

  function Waiting(id: nat, attempts: nat, due: nat): Rt {
    InSceneWith(id, Lane(None, None, None, None, false, Some(REASON), attempts, Some(due), None))
  }

  lemma FailureStep(t: Tally, id: nat, attempts: nat, now: nat)
    requires attempts < MAX_REBOOTSTRAP_ATTEMPTS
    ensures var o := Step(Attaching(id, attempts), SocketFailed(REASON, now));
      && o.rt == Waiting(id + 2, attempts + 1, now + REBOOTSTRAP_BACKOFF_MS[attempts])
      && Count(t, Attaching(id, attempts), SocketFailed(REASON, now), o) == t
  {
  }

  lemma FailureReaches(inputs: seq<Input>, t: Tally, id: nat, attempts: nat, clock: nat, now: nat)
    requires Reaches(inputs, t, Bootstrapping(id, attempts), clock) && clock <= now
      && attempts < MAX_REBOOTSTRAP_ATTEMPTS
    ensures Reaches(inputs + FailedAttach(id, now), t,
                    Waiting(id + 2, attempts + 1, now + REBOOTSTRAP_BACKOFF_MS[attempts]), now)
  {
    var ticket := FromServer(Tcp, FastLaneResult(id, true, Some(1), Some("t")), now);
    TicketReaches(inputs, t, id, attempts, clock, now);
    FailureStep(t, id, attempts, now);
    SnocReaches(inputs + [ticket], t, Attaching(id, attempts), now, SocketFailed(REASON, now), t,
                Waiting(id + 2, attempts + 1, now + REBOOTSTRAP_BACKOFF_MS[attempts]), now);
    assert inputs + [ticket] + [SocketFailed(REASON, now)] == inputs + FailedAttach(id, now);
  }

  /** A failed attach and the retry that follows it. */
  lemma RoundReaches(inputs: seq<Input>, t: Tally, id: nat, attempts: nat, clock: nat, now: nat)
    requires Reaches(inputs, t, Bootstrapping(id, attempts), clock) && clock <= now
      && attempts < MAX_REBOOTSTRAP_ATTEMPTS
    ensures var due := now + REBOOTSTRAP_BACKOFF_MS[attempts];
      Reaches(inputs + FailedAttach(id, now) + [RetryTimer(due)], t.(sends := t.sends + 1),
              Bootstrapping(id + 2, attempts + 1), due)
  {
    var due := now + REBOOTSTRAP_BACKOFF_MS[attempts];
    FailureReaches(inputs, t, id, attempts, clock, now);
    ReachesSnoc(inputs + FailedAttach(id, now), t, Waiting(id + 2, attempts + 1, due), now, RetryTimer(due));
  }

  /** A failed attach with the retries used up starts a cooldown. */
  lemma CooldownReaches(inputs: seq<Input>, t: Tally, id: nat, clock: nat, now: nat)
    requires Reaches(inputs, t, Bootstrapping(id, MAX_REBOOTSTRAP_ATTEMPTS), clock) && clock <= now
    ensures Reaches(inputs + FailedAttach(id, now), t.(cooldowns := t.cooldowns + 1, lastStart := now),
                    CoolingDown(id + 2, now + REBOOTSTRAP_COOLDOWN_MS), now)
  {
    var ticket := FromServer(Tcp, FastLaneResult(id, true, Some(1), Some("t")), now);
    TicketReaches(inputs, t, id, MAX_REBOOTSTRAP_ATTEMPTS, clock, now);
    ReachesSnoc(inputs + [ticket], t, Attaching(id, MAX_REBOOTSTRAP_ATTEMPTS), now, SocketFailed(REASON, now));
    assert inputs + [ticket] + [SocketFailed(REASON, now)] == inputs + FailedAttach(id, now);
  }

  lemma RejoinReaches(inputs: seq<Input>, t: Tally, id: nat, until: nat, clock: nat, now: nat)
    requires Reaches(inputs, t, CoolingDown(id, until), clock) && clock <= now
    ensures Reaches(inputs + [Join(now)], t.(entries := t.entries + 1), Bootstrapping(id, MAX_REBOOTSTRAP_ATTEMPTS),
                    now)
  {
    ReachesSnoc(inputs, t, CoolingDown(id, until), clock, Join(now));
  }

  lemma FirstJoinReaches()
    ensures Reaches([FromServer(Tcp, Result(AUTH_REQUEST_ID, true), 0)] + [Join(0)], Tally(1, 0, 0, 0, 0),
                    Bootstrapping(3, 0), 0)
  {
    var auth := FromServer(Tcp, Result(AUTH_REQUEST_ID, true), 0);
    ReachesSnoc([], Tally(0, 0, 0, 0, 0), NEW, 0, auth);
    assert [] + [auth] == [auth];
    var entering := Step(NEW, auth).rt;
    assert entering == NEW.(phase := AwaitingEnterScene, enterId := Some(2), nextId := 3);
    ReachesSnoc([auth], Tally(0, 0, 0, 0, 0), entering, 0, Join(0));
  }

  /** One join, four failed attaches, a cooldown at 4250 ms. */
  lemma FirstCooldown() returns (inputs: seq<Input>)
    ensures Reaches(inputs, Tally(1, 3, 0, 1, 4250), CoolingDown(11, 19250), 4250)
  {
    var s0 := [FromServer(Tcp, Result(AUTH_REQUEST_ID, true), 0)] + [Join(0)];
    FirstJoinReaches();
    var s1 := s0 + FailedAttach(3, 0) + [RetryTimer(250)];
    RoundReaches(s0, Tally(1, 0, 0, 0, 0), 3, 0, 0, 0);
    var s2 := s1 + FailedAttach(5, 250) + [RetryTimer(1250)];
    RoundReaches(s1, Tally(1, 1, 0, 0, 0), 5, 1, 250, 250);
    var s3 := s2 + FailedAttach(7, 1250) + [RetryTimer(4250)];
    RoundReaches(s2, Tally(1, 2, 0, 0, 0), 7, 2, 1250, 1250);
    inputs := s3 + FailedAttach(9, 4250);
    CooldownReaches(s3, Tally(1, 3, 0, 0, 0), 9, 4250, 4250);
  }

  lemma ApartUnlessEarly(inputs: seq<Input>, more: seq<Input>)
    requires TimeOrdered(0, inputs + more)
    ensures NoEarlyJoin(0, inputs + more) ==> Waits(Tallied(inputs), Tallied(inputs + more))
  {
    if NoEarlyJoin(0, inputs + more) {
      CooldownsStartApart(inputs + more, 0, |inputs|, |inputs + more|);
      assert (inputs + more)[..|inputs|] == inputs && (inputs + more)[..|inputs + more|] == inputs + more;
    }
  }

  /** Early joins happen: a second answer to the enter-scene request, while the cooldown
      runs, leads to another cooldown 750 ms after the first. */
  lemma TwoJoinsBreakTheSpacing()
    ensures exists inputs: seq<Input>, more: seq<Input> ::
      && TimeOrdered(0, inputs + more) && Tallied(inputs + more).entries == 2
      && !Waits(Tallied(inputs), Tallied(inputs + more)) && !NoEarlyJoin(0, inputs + more)
  {
    var inputs := FirstCooldown();
    RejoinReaches(inputs, Tally(1, 3, 0, 1, 4250), 11, 19250, 4250, 5000);
    CooldownReaches(inputs + [Join(5000)], Tally(2, 3, 0, 1, 4250), 11, 5000, 5000);
    var more := [Join(5000)] + FailedAttach(11, 5000);
    assert inputs + [Join(5000)] + FailedAttach(11, 5000) == inputs + more;
    assert !Waits(Tallied(inputs), Tallied(inputs + more));
    ApartUnlessEarly(inputs, more);
  }
}
