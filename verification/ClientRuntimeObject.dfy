/** The client runtime as the object the network thread owns. Every method performs
    exactly one handler of module Runtime. */
module ClientRuntimeObject {
  import opened Common
  import opened FastLane
  import opened Runtime
  import opened RuntimeRuns

  /** What a handler hands back; `failed` stands for an error that drops the session. */
  datatype Reply = Reply(outs: seq<Outbound>, events: seq<Event>, failed: bool)

  class ClientRuntime {
    var phase: Phase
    var nextRequestId: nat
    var enterSceneRequestId: Option<nat>
    var pendingTimeSync: map<nat, nat>
    var lastAppliedMovementAck: nat
    var lastAppliedAuthTick: nat
    var lastRemoteMoveTicks: map<int, nat>
    const fastLane: FastLaneState
    var voxelEditSeq: nat

    constructor ()
      ensures View() == NEW && fresh(fastLane)
    {
      phase, nextRequestId, enterSceneRequestId := AwaitingAuth, 2, None;
      pendingTimeSync, lastAppliedMovementAck, lastAppliedAuthTick := map[], 0, 0;
      lastRemoteMoveTicks, voxelEditSeq := map[], 0;
      fastLane := new FastLaneState();
    }

    function View(): Rt
      reads this, fastLane
    {
      Rt(true, phase, nextRequestId, enterSceneRequestId, pendingTimeSync,
         (lastAppliedMovementAck, lastAppliedAuthTick), lastRemoteMoveTicks, fastLane.View(), voxelEditSeq)
    }

    /** The object did what the handler outcome says. */
    ghost predicate Did(o: Outcome, r: Reply)
      reads this, fastLane
    {
      View() == o.rt.(live := true) && r == Reply(o.outs, o.events, !o.rt.live)
    }

    method NextRequestId() returns (id: nat)
      modifies this
      ensures id == old(nextRequestId) && View() == TakeId(old(View()))
    {
      id := nextRequestId;
      nextRequestId := nextRequestId + 1;
    }

    method HandleAppCommand(c: Command) returns (r: Reply)
      modifies this
      ensures Did(HandleCommand(old(View()), c), r)
    {
      r := Reply([], [], false);
      if phase == InScene {
        match c
        case MoveInputSample(frame) =>
          r := r.(outs := [if fastLane.attached then UdpOut(MovementInput(frame)) else TcpOut(MovementInput(frame))]);
        case Request(what) =>
          var id := NextRequestId();
          r := r.(outs := [TcpOut(AppRequest(id, what))]);
        case UnsubscribeChunks(chunks) =>
          if chunks != [] {
            var id := NextRequestId();
            r := r.(outs := [TcpOut(Unsubscribe(id, chunks))]);
          }
        case Edit(what) =>
          var id := NextRequestId();
          voxelEditSeq := voxelEditSeq + 1;
          r := r.(outs := [TcpOut(EditIntent(id, voxelEditSeq, what))]);
        case OtherCommand =>
      }
    }

    /** Which entries the pruning trimmed is returned as a ghost, so that the step is
        determined. Afterwards at most 33 are pending, none older than 30 s, and none
        that was trimmed is newer than one that was kept. */
    method TimeSyncMessage(now: nat) returns (r: Reply, ghost dropped: set<nat>)
      modifies this
      ensures Did(SyncTick(old(View()), now, dropped), r)
      ensures old(phase) != AwaitingAuth ==>
        Victims(Fresh(old(pendingTimeSync), now), dropped) && r.outs == [TcpOut(TimeSync(old(nextRequestId), now))]
      ensures old(phase) != AwaitingAuth && old(nextRequestId) !in old(pendingTimeSync) ==>
        SyncPruned(old(pendingTimeSync), pendingTimeSync, now, old(nextRequestId))
    {
      dropped := {};
      r := Reply([], [], false);
      if phase != AwaitingAuth {
        dropped := PrunePending(now);
        if nextRequestId !in old(pendingTimeSync) {
          SyncKeepsNewest(old(pendingTimeSync), now, dropped, nextRequestId);
        }
        var id := NextRequestId();
        pendingTimeSync := pendingTimeSync[id := now];
        r := r.(outs := [TcpOut(TimeSync(id, now))]);
      }
    }

    /** Drops expired entries, then sorts what is left by age and trims the overflow. */
    method PrunePending(now: nat) returns (ghost dropped: set<nat>)
      modifies this`pendingTimeSync
      ensures Victims(Fresh(old(pendingTimeSync), now), dropped)
      ensures pendingTimeSync == Pruned(old(pendingTimeSync), now, dropped)
    {
      pendingTimeSync := Fresh(pendingTimeSync, now);
      dropped := {};
      if |pendingTimeSync| > MAX_PENDING_TIME_SYNC {
        ghost var young := pendingTimeSync;
        var entries := SortedByAge(pendingTimeSync);
        var trimCount := |entries| - MAX_PENDING_TIME_SYNC;
        Trim(entries, trimCount);
        dropped := IdsOf(entries[..trimCount]);
        FirstAreVictims(young, entries, trimCount);
      }
    }

    /** Removes the first entries from the pending map. */
    method Trim(entries: seq<(nat, nat)>, count: nat)
      requires count <= |entries|
      modifies this`pendingTimeSync
      ensures pendingTimeSync == old(pendingTimeSync) - IdsOf(entries[..count])
    {
      for i := 0 to count
        invariant pendingTimeSync == old(pendingTimeSync) - IdsOf(entries[..i])
      {
        IdsSnoc(entries, i);
        pendingTimeSync := pendingTimeSync - {entries[i].0};
      }
    }

    method MarkFastLaneFailedAt(now: nat, reason: string, allow: bool) returns (r: Reply)
      modifies this, fastLane
      ensures Did(LaneFailed(old(View()), now, reason, allow), r)
      ensures r.outs == [] && !r.failed
    {
      var cooldownUntil := fastLane.cooldownUntil;
      fastLane.Failed(reason);
      r := Reply([], [Notice], false);
      if allow && phase == InScene {
        if cooldownUntil.Some? && cooldownUntil.value > now {
          fastLane.cooldownUntil := cooldownUntil;
          return;
        }
        if fastLane.rebootstrapAttempts < MAX_REBOOTSTRAP_ATTEMPTS {
          fastLane.rebootstrapAttempts := fastLane.rebootstrapAttempts + 1;
          fastLane.retryDueAt := Some(now + REBOOTSTRAP_BACKOFF_MS[fastLane.rebootstrapAttempts - 1]);
        } else {
          fastLane.cooldownUntil := Some(now + REBOOTSTRAP_COOLDOWN_MS);
        }
      }
    }

    method PollFastLaneRetry(now: nat) returns (r: Reply)
      modifies this, fastLane
      ensures Did(RetryTick(old(View()), now), r)
    {
      r := Reply([], [], false);
      if phase != InScene || fastLane.attached || fastLane.bootstrapRequestId.Some? || fastLane.attachRequestId.Some? {
        return;
      }
      if fastLane.cooldownUntil.Some? {
        if now >= fastLane.cooldownUntil.value {
          fastLane.cooldownUntil := None;
          fastLane.rebootstrapAttempts := 0;
          fastLane.retryDueAt := Some(now + REBOOTSTRAP_BACKOFF_MS[0]);
          r := r.(events := [Notice]);
        }
        return;
      }
      if fastLane.retryDueAt.Some? && now >= fastLane.retryDueAt.value {
        var id := NextRequestId();
        fastLane.Reset(id);
        r := Reply([TcpOut(FastLaneRequest(id))], [Notice], false);
      }
    }

    method HandleServerMessage(t: Transport, m: ServerMessage, now: nat) returns (r: Reply)
      modifies this, fastLane
      ensures Did(HandleServer(old(View()), t, m, now), r)
    {
      r := Reply([], [Notice], false);
      match m
      case Result(packet, ok) => r := HandleResult(t, packet, ok, now);
      case EnterSceneResult(packet, ok, hasLocation, expectedSeq) =>
        r := HandleEnterScene(packet, ok, hasLocation, expectedSeq);
      case MovementAck(ackSeq, authTick) =>
        if !Stale((lastAppliedMovementAck, lastAppliedAuthTick), ackSeq, authTick) {
          lastAppliedMovementAck, lastAppliedAuthTick := ackSeq, authTick;
          r := r.(events := [AckApplied(ackSeq, authTick)]);
        }
      case FastLaneResult(packet, ok, port, ticket) => r := HandleTicket(packet, ok, port, ticket, now);
      case FastLaneAttached(packet, ok) =>
        if fastLane.attachRequestId == Some(packet) {
          if ok {
            fastLane.Attached();
          } else {
            r := MarkFastLaneFailedAt(now, "udp attach rejected by gate", true);
          }
        }
      case PlayerEnter(cid) => lastRemoteMoveTicks := lastRemoteMoveTicks - {cid};
      case PlayerMove(cid, tick) =>
        var latest := if cid in lastRemoteMoveTicks then lastRemoteMoveTicks[cid] else 0;
        if tick > latest {
          lastRemoteMoveTicks := lastRemoteMoveTicks[cid := tick];
          r := r.(events := [MoveForwarded(cid, tick)]);
        }
      case PlayerLeave(cid) => lastRemoteMoveTicks := lastRemoteMoveTicks - {cid};
      case TimeSyncReply(packet) =>
        if packet in pendingTimeSync {
          pendingTimeSync := pendingTimeSync - {packet};
          r := r.(events := [SyncMatched(packet)]);
        }
      case OtherMessage =>
    }

    method HandleResult(t: Transport, packet: nat, ok: bool, now: nat) returns (r: Reply)
      modifies this, fastLane
      ensures Did(OnResult(old(View()), t, packet, ok, now), r)
    {
      if t == Udp && !ok {
        r := MarkFastLaneFailedAt(now, "udp movement rejected by gate", true);
        return;
      }
      if packet != AUTH_REQUEST_ID {
        return Reply([], [Notice], false);
      }
      if !ok {
        return Reply([], [], true);
      }
      phase := AwaitingEnterScene;
      var id := NextRequestId();
      enterSceneRequestId := Some(id);
      r := Reply([TcpOut(EnterScene(id))], [Notice], false);
    }

    method HandleEnterScene(packet: nat, ok: bool, hasLocation: bool, expectedSeq: Option<nat>) returns (r: Reply)
      modifies this, fastLane
      ensures Did(OnEnterScene(old(View()), packet, ok, hasLocation, expectedSeq), r)
    {
      if enterSceneRequestId != Some(packet) {
        return Reply([], [Notice], false);
      }
      if !ok {
        return Reply([], [], true);
      }
      phase := InScene;
      lastAppliedMovementAck, lastAppliedAuthTick, lastRemoteMoveTicks := 0, 0, map[];
      if !hasLocation || expectedSeq == None {
        return Reply([], [], true);
      }
      var id := NextRequestId();
      fastLane.Reset(id);
      r := Reply([TcpOut(FastLaneRequest(id))], [EnteredScene], false);
    }

    method HandleTicket(packet: nat, ok: bool, port: Option<nat>, ticket: Option<string>, now: nat) returns (r: Reply)
      modifies this, fastLane
      ensures Did(OnTicket(old(View()), packet, ok, port, ticket, now), r)
    {
      if fastLane.bootstrapRequestId != Some(packet) {
        return Reply([], [Notice], false);
      }
      if !ok {
        r := MarkFastLaneFailedAt(now, "bootstrap rejected by gate", false);
        return;
      }
      if port == None || ticket == None {
        return Reply([], [], true);
      }
      var id := NextRequestId();
      fastLane.Prepare(id, port.value, ticket.value);
      r := Reply([OpenUdpAndAttach(port.value, id, ticket.value)], [Notice], false);
    }
  }

  // ----- collecting and sorting the pending entries -----

  function IdsOf(entries: seq<(nat, nat)>): set<nat> { set e | e in entries :: e.0 }

  /** The entries of the map, each once, oldest first. */
  ghost predicate AgeSorted(m: map<nat, nat>, entries: seq<(nat, nat)>) {
    && |entries| == |m|
    && (forall i :: 0 <= i < |entries| ==> entries[i].0 in m && entries[i].1 == m[entries[i].0])
    && (forall i, j :: 0 <= i < j < |entries| ==> entries[i].0 != entries[j].0 && entries[i].1 <= entries[j].1)
  }

  /** What a sort by sending time may return: entries of the same age come in any order. */
  method SortedByAge(m: map<nat, nat>) returns (entries: seq<(nat, nat)>)
    ensures AgeSorted(m, entries)
  {
    var rest := m;
    entries := [];
    while |rest| > 0
      invariant rest.Keys <= m.Keys && forall k :: k in rest ==> rest[k] == m[k]
      invariant |entries| + |rest| == |m|
      invariant forall i :: 0 <= i < |entries| ==>
        entries[i].0 in m && entries[i].0 !in rest && entries[i].1 == m[entries[i].0]
      invariant forall i, j :: 0 <= i < j < |entries| ==> entries[i].0 != entries[j].0 && entries[i].1 <= entries[j].1
      invariant forall i, k :: 0 <= i < |entries| && k in rest ==> entries[i].1 <= rest[k]
      decreases |rest|
    {
      OldestExists(rest, rest.Keys);
      var id :| id in rest && forall k :: k in rest ==> rest[id] <= rest[k];
      entries := entries + [(id, rest[id])];
      assert (rest - {id}).Keys == rest.Keys - {id};
      rest := rest - {id};
    }
  }

  lemma IdsSnoc(entries: seq<(nat, nat)>, i: nat)
    requires i < |entries|
    ensures IdsOf(entries[..i + 1]) == IdsOf(entries[..i]) + {entries[i].0}
  {
    assert entries[..i + 1] == entries[..i] + [entries[i]];
  }

  predicate DistinctIds(entries: seq<(nat, nat)>) {
    forall i, j :: 0 <= i < j < |entries| ==> entries[i].0 != entries[j].0
  }

  lemma {:induction false} IdsCount(entries: seq<(nat, nat)>, n: nat)
    requires DistinctIds(entries) && n <= |entries|
    ensures |IdsOf(entries[..n])| == n
  {
    if n > 0 {
      IdsCount(entries, n - 1);
      IdsSnoc(entries, n - 1);
    }
  }

  lemma EveryKeyListed(m: map<nat, nat>, entries: seq<(nat, nat)>)
    requires AgeSorted(m, entries)
    ensures IdsOf(entries) == m.Keys
  {
    IdsCount(entries, |entries|);
    assert entries[..|entries|] == entries;
    SameSize(IdsOf(entries), m.Keys);
  }

  lemma SameSize(a: set<nat>, b: set<nat>)
    requires a <= b && |a| == |b|
    ensures a == b
  {
    assert |b - a| == 0;
  }

  /** The front of the sorted entries is a legal choice of overflow victims. */
  lemma FirstAreVictims(young: map<nat, nat>, entries: seq<(nat, nat)>, trimCount: nat)
    requires AgeSorted(young, entries) && trimCount == Max(0, |young| - MAX_PENDING_TIME_SYNC)
    ensures Victims(young, IdsOf(entries[..trimCount]))
  {
    var dropped := IdsOf(entries[..trimCount]);
    IdsCount(entries, trimCount);
    EveryKeyListed(young, entries);
    forall d, k | d in dropped && k in young && k !in dropped
      ensures young[d] <= young[k]
    {
      var i :| 0 <= i < trimCount && entries[..trimCount][i].0 == d;
      var j :| 0 <= j < |entries| && entries[j].0 == k;
    }
  }

  lemma {:induction false} OldestExists(m: map<nat, nat>, ids: set<nat>)
    requires ids <= m.Keys && ids != {}
    ensures exists id :: id in ids && forall k :: k in ids ==> m[id] <= m[k]
  {
    var first :| first in ids;
    var rest := ids - {first};
    if rest == {} {
      assert ids == {first};
    } else {
      OldestExists(m, rest);
      var id :| id in rest && forall k :: k in rest ==> m[id] <= m[k];
      var least := if m[first] <= m[id] then first else id;
      assert least in ids && forall k :: k in ids ==> m[least] <= m[k];
    }
  }
}
