/** Bookkeeping of the UDP fast lane: bootstrap, attach, retry with backoff, cooldown. */
module FastLane {
  import opened Common

  const MAX_REBOOTSTRAP_ATTEMPTS: nat := 3
  const REBOOTSTRAP_BACKOFF_MS: seq<nat> := [250, 1000, 3000]
  const REBOOTSTRAP_COOLDOWN_MS: nat := 15000

  /** Times are milliseconds of a monotonic clock; an endpoint is the gate's UDP port. */
  datatype Lane = Lane(
    bootstrap: Option<nat>, attach: Option<nat>, endpoint: Option<nat>, ticket: Option<string>,
    attached: bool, lastError: Option<string>, attempts: nat,
    retryAt: Option<nat>, cooldownUntil: Option<nat>)

  const IDLE := Lane(None, None, None, None, false, None, 0, None, None)

  function ResetForBootstrap(l: Lane, id: nat): Lane {
    Lane(Some(id), None, None, None, false, None, l.attempts, None, None)
  }

  function PrepareAttach(l: Lane, id: nat, endpoint: nat, ticket: string): Lane {
    Lane(None, Some(id), Some(endpoint), Some(ticket), false, None, l.attempts, None, None)
  }

  function MarkAttached(l: Lane): Lane {
    l.(attach := None, ticket := None, attached := true, lastError := None,
       attempts := 0, retryAt := None, cooldownUntil := None)
  }

  function MarkFailed(l: Lane, reason: string): Lane {
    Lane(None, None, None, None, false, Some(reason), l.attempts, None, None)
  }

  /** A failure: while in scene it keeps an unexpired cooldown, or schedules the next
      retry, or starts a cooldown once the retries are used up. */
  function Fail(l: Lane, inScene: bool, now: nat, reason: string, allow: bool): Lane
  {
    var failed := MarkFailed(l, reason);
    if !allow || !inScene then failed
    else if l.cooldownUntil.Some? && l.cooldownUntil.value > now then failed.(cooldownUntil := l.cooldownUntil)
    else if l.attempts < MAX_REBOOTSTRAP_ATTEMPTS then
      failed.(attempts := l.attempts + 1, retryAt := Some(now + REBOOTSTRAP_BACKOFF_MS[l.attempts]))
    else failed.(cooldownUntil := Some(now + REBOOTSTRAP_COOLDOWN_MS))
  }

  datatype Polled = Polled(lane: Lane, sends: bool)

  /** The retry timer: it leaves a lane in use alone, turns an expired cooldown into a
      scheduled retry, and sends a bootstrap request for a due retry. */
  function Poll(l: Lane, inScene: bool, now: nat, id: nat): Polled {
    if !inScene || l.attached || l.bootstrap.Some? || l.attach.Some? then Polled(l, false)
    else if l.cooldownUntil.Some? then
      Polled(if now >= l.cooldownUntil.value
             then l.(cooldownUntil := None, attempts := 0, retryAt := Some(now + REBOOTSTRAP_BACKOFF_MS[0]))
             else l,
             false)
    else if l.retryAt.Some? && now >= l.retryAt.value then Polled(ResetForBootstrap(l, id), true)
    else Polled(l, false)
  }

  function Flag(b: bool): nat { if b then 1 else 0 }

  /** At most one mode at a time, and every attribute exactly where it belongs. */
  predicate Coherent(l: Lane) {
    && Flag(l.bootstrap.Some?) + Flag(l.attach.Some?) + Flag(l.attached)
       + Flag(l.retryAt.Some?) + Flag(l.cooldownUntil.Some?) <= 1
    && (l.ticket.Some? <==> l.attach.Some?)
    && (l.endpoint.Some? <==> l.attach.Some? || l.attached)
    && l.attempts <= MAX_REBOOTSTRAP_ATTEMPTS
    && (l.cooldownUntil.Some? ==> l.attempts == MAX_REBOOTSTRAP_ATTEMPTS)
    && (l.attached ==> l.attempts == 0)
  }

  lemma ResetStaysCoherent(l: Lane, id: nat)
    requires l.attempts <= MAX_REBOOTSTRAP_ATTEMPTS
    ensures Coherent(ResetForBootstrap(l, id))
  {
  }

  lemma PrepareStaysCoherent(l: Lane, id: nat, endpoint: nat, ticket: string)
    requires l.attempts <= MAX_REBOOTSTRAP_ATTEMPTS
    ensures Coherent(PrepareAttach(l, id, endpoint, ticket))
  {
  }

  lemma AttachedStaysCoherent(l: Lane)
    requires Coherent(l) && l.attach.Some?
    ensures Coherent(MarkAttached(l))
  {
  }

  lemma FailStaysCoherent(l: Lane, inScene: bool, now: nat, reason: string, allow: bool)
    requires Coherent(l)
    ensures Coherent(Fail(l, inScene, now, reason, allow))
  {
  }

  lemma PollStaysCoherent(l: Lane, inScene: bool, now: nat, id: nat)
    requires Coherent(l)
    ensures Coherent(Poll(l, inScene, now, id).lane)
  {
  }

  /** Exactly when a failure starts a cooldown, and that it then lasts the full time. */
  lemma FailStartsCooldownIff(l: Lane, inScene: bool, now: nat, reason: string, allow: bool)
    requires Coherent(l)
    ensures var l' := Fail(l, inScene, now, reason, allow);
      && (l'.cooldownUntil.Some? && l'.cooldownUntil != l.cooldownUntil <==>
            && allow && inScene && l.attempts == MAX_REBOOTSTRAP_ATTEMPTS
            && (l.cooldownUntil.Some? ==> l.cooldownUntil.value <= now))
      && (l'.cooldownUntil.Some? && l'.cooldownUntil != l.cooldownUntil ==>
            l'.cooldownUntil == Some(now + REBOOTSTRAP_COOLDOWN_MS))
  {
  }

  /** How many more bootstrap requests a lane can send before a cooldown must start. */
  function Allowance(l: Lane): int {
    if l.cooldownUntil.Some? then 4
    else if l.retryAt.Some? then 4 - l.attempts
    else 3 - l.attempts
  }

  class FastLaneState {
    var bootstrapRequestId: Option<nat>
    var attachRequestId: Option<nat>
    var udpEndpoint: Option<nat>
    var ticket: Option<string>
    var attached: bool
    var lastError: Option<string>
    var rebootstrapAttempts: nat
    var retryDueAt: Option<nat>
    var cooldownUntil: Option<nat>

    constructor ()
      ensures View() == IDLE
    {
      bootstrapRequestId, attachRequestId, udpEndpoint, ticket := None, None, None, None;
      attached, lastError, rebootstrapAttempts, retryDueAt, cooldownUntil := false, None, 0, None, None;
    }

    function View(): Lane
      reads this
    {
      Lane(bootstrapRequestId, attachRequestId, udpEndpoint, ticket, attached, lastError,
           rebootstrapAttempts, retryDueAt, cooldownUntil)
    }

    method Reset(id: nat)
      modifies this
      ensures View() == ResetForBootstrap(old(View()), id)
    {
      bootstrapRequestId, attachRequestId, udpEndpoint, ticket := Some(id), None, None, None;
      attached, lastError, retryDueAt, cooldownUntil := false, None, None, None;
    }

    method Prepare(id: nat, endpoint: nat, newTicket: string)
      modifies this
      ensures View() == PrepareAttach(old(View()), id, endpoint, newTicket)
    {
      bootstrapRequestId, attachRequestId, udpEndpoint, ticket := None, Some(id), Some(endpoint), Some(newTicket);
      attached, lastError, retryDueAt, cooldownUntil := false, None, None, None;
    }

    method Attached()
      modifies this
      ensures View() == MarkAttached(old(View()))
    {
      attachRequestId, ticket, attached, lastError := None, None, true, None;
      rebootstrapAttempts, retryDueAt, cooldownUntil := 0, None, None;
    }

    method Failed(reason: string)
      modifies this
      ensures View() == MarkFailed(old(View()), reason)
    {
      bootstrapRequestId, attachRequestId, ticket, udpEndpoint := None, None, None, None;
      attached, lastError, retryDueAt, cooldownUntil := false, Some(reason), None, None;
    }
  }
}
