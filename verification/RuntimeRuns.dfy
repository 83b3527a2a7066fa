/** What holds over whole runs of the client runtime. */
module RuntimeRuns {
  import opened Common
  import opened FastLane
  import opened Runtime

  // ----- request ids -----

  function Issued(o: Outbound): Option<nat> {
    match o
    case TcpOut(m) => IdOf(m)
    case UdpOut(m) => IdOf(m)
    case OpenUdpAndAttach(_, id, _) => Some(id)
  }

  function IdOf(m: Message): Option<nat> {
    if m.MovementInput? then None else Some(m.id)
  }

  /** The id a step issues, if any: no step sends more than one message. */
  function StepId(o: Outcome): Option<nat> {
    if o.outs == [] then None else Issued(o.outs[0])
  }

  predicate IssuesNext(rt: Rt, o: Outcome) {
    && |o.outs| <= 1
    && (if StepId(o).Some? then StepId(o) == Some(rt.nextId) && o.rt.nextId == rt.nextId + 1
        else o.rt.nextId == rt.nextId)
  }

  lemma RepliesIssueNext(rt: Rt, t: Transport, packet: nat, ok: bool, hasLocation: bool, n: Option<nat>,
                         ticket: Option<string>, now: nat)
    ensures IssuesNext(rt, OnResult(rt, t, packet, ok, now))
    ensures IssuesNext(rt, OnEnterScene(rt, packet, ok, hasLocation, n))
    ensures IssuesNext(rt, OnTicket(rt, packet, ok, n, ticket, now))
    ensures IssuesNext(rt, OnAttached(rt, packet, ok, now))
  {
  }

  lemma ServerIssuesNext(rt: Rt, t: Transport, m: ServerMessage, now: nat)
    ensures IssuesNext(rt, HandleServer(rt, t, m, now))
  {
    match m
    case Result(packet, ok) => RepliesIssueNext(rt, t, packet, ok, true, None, None, now);
    case EnterSceneResult(packet, ok, hasLocation, n) => RepliesIssueNext(rt, t, packet, ok, hasLocation, n, None, now);
    case FastLaneResult(packet, ok, port, ticket) => RepliesIssueNext(rt, t, packet, ok, true, port, ticket, now);
    case FastLaneAttached(packet, ok) => RepliesIssueNext(rt, t, packet, ok, true, None, None, now);
    case _ =>
  }

  lemma StepIssuesNext(rt: Rt, i: Input)
    ensures IssuesNext(rt, Step(rt, i))
  {
    if i.FromServer? {
      ServerIssuesNext(rt, i.transport, i.msg, i.now);
    }
  }

  lemma {:induction false} StepwiseMonotone(f: seq<int>, i: nat, j: nat)
    requires i <= j < |f| && forall k :: 0 < k < |f| ==> f[k - 1] <= f[k]
    ensures f[i] <= f[j]
    decreases j - i
  {
    if i < j {
      StepwiseMonotone(f, i, j - 1);
    }
  }

  lemma NextIdMonotone(rt: Rt, inputs: seq<Input>, i: nat, j: nat)
    requires i <= j <= |inputs|
    ensures Run(rt, inputs[..i]).nextId <= Run(rt, inputs[..j]).nextId
  {
    var f: seq<nat> := seq(|inputs| + 1, k requires 0 <= k <= |inputs| => Run(rt, inputs[..k]).nextId);
    forall k | 0 < k < |f|
      ensures f[k - 1] <= f[k]
    {
      RunSnoc(rt, inputs, k - 1);
      StepIssuesNext(Run(rt, inputs[..k - 1]), inputs[k - 1]);
    }
    StepwiseMonotone(f, i, j);
  }

  /** Ids issued over a run are strictly increasing, so no id is ever reused. */
  lemma IdsNeverReused(rt: Rt, inputs: seq<Input>, i: nat, j: nat)
    requires i < j < |inputs|
    requires StepId(At(rt, inputs, i)).Some? && StepId(At(rt, inputs, j)).Some?
    ensures StepId(At(rt, inputs, i)).value < StepId(At(rt, inputs, j)).value
  {
    StepIssuesNext(Run(rt, inputs[..i]), inputs[i]);
    StepIssuesNext(Run(rt, inputs[..j]), inputs[j]);
    RunSnoc(rt, inputs, i);
    NextIdMonotone(rt, inputs, i + 1, j);
  }

  /** The sequence number of a step's edit intent, if it sends one. */
  function EditNo(o: Outcome): Option<nat> {
    if o.outs != [] && o.outs[0].TcpOut? && o.outs[0].msg.EditIntent? then Some(o.outs[0].msg.seqNo) else None
  }

  lemma StepNumbersEdits(rt: Rt, i: Input)
    ensures var o := Step(rt, i);
      if EditNo(o).Some? then EditNo(o) == Some(o.rt.editSeq) && o.rt.editSeq == rt.editSeq + 1
      else o.rt.editSeq == rt.editSeq
  {
  }

  lemma EditSeqMonotone(rt: Rt, inputs: seq<Input>, i: nat, j: nat)
    requires i <= j <= |inputs|
    ensures Run(rt, inputs[..i]).editSeq <= Run(rt, inputs[..j]).editSeq
  {
    var f: seq<nat> := seq(|inputs| + 1, k requires 0 <= k <= |inputs| => Run(rt, inputs[..k]).editSeq);
    forall k | 0 < k < |f|
      ensures f[k - 1] <= f[k]
    {
      RunSnoc(rt, inputs, k - 1);
      StepNumbersEdits(Run(rt, inputs[..k - 1]), inputs[k - 1]);
    }
    StepwiseMonotone(f, i, j);
  }

  /** Edit intents carry strictly increasing sequence numbers, so a server that
      deduplicates on them never mistakes a new edit for a replay. */
  lemma EditNumbersIncrease(rt: Rt, inputs: seq<Input>, i: nat, j: nat)
    requires i < j < |inputs|
    requires EditNo(At(rt, inputs, i)).Some? && EditNo(At(rt, inputs, j)).Some?
    ensures EditNo(At(rt, inputs, i)).value < EditNo(At(rt, inputs, j)).value
  {
    StepNumbersEdits(Run(rt, inputs[..i]), inputs[i]);
    StepNumbersEdits(Run(rt, inputs[..j]), inputs[j]);
    RunSnoc(rt, inputs, i);
    EditSeqMonotone(rt, inputs, i + 1, j);
  }

  /** The slots a reply id can be waiting in. */
  function MatchingSlots(rt: Rt, packet: nat): nat {
    Flag(rt.enterId == Some(packet)) + Flag(rt.lane.bootstrap == Some(packet))
    + Flag(rt.lane.attach == Some(packet)) + Flag(packet in rt.pendingSync) + Flag(packet == AUTH_REQUEST_ID)
  }

  /** In every reachable state a reply matches at most one slot, and none if its id
      has not been issued yet. */
  lemma {:induction false} ReplyMatchesOneSlot(inputs: seq<Input>, packet: nat)
    ensures MatchingSlots(Run(NEW, inputs), packet) <= 1
    ensures packet >= Run(NEW, inputs).nextId ==> MatchingSlots(Run(NEW, inputs), packet) == 0
  {
    RunKeepsInv(NEW, inputs);
  }

  /** From the start, in every reachable state, the lane is in at most one mode and
      its backoff index is in range. */
  lemma {:induction false} LaneAlwaysCoherent(inputs: seq<Input>)
    ensures var l := Run(NEW, inputs).lane;
      Coherent(l) && (l.attempts < MAX_REBOOTSTRAP_ATTEMPTS ==> l.attempts < |REBOOTSTRAP_BACKOFF_MS|)
  {
    RunKeepsInv(NEW, inputs);
  }

  // ----- pending time syncs -----

  predicate SyncBounded(before: map<nat, nat>, after: map<nat, nat>, now: nat, id: nat) {
    && |after| <= MAX_PENDING_TIME_SYNC + 1
    && (forall k :: k in after ==> now <= after[k] + TIME_SYNC_TIMEOUT_MS)
    && (forall k :: k in after && k != id ==> k in before && after[k] == before[k])
  }

  /** An entry that is still young, and gone, is no newer than any old one that stayed,
      and had to go because 32 stayed. */
  predicate TrimmedIsOldest(before: map<nat, nat>, after: map<nat, nat>, now: nat, id: nat, d: nat) {
    d in before && d !in after && now <= before[d] + TIME_SYNC_TIMEOUT_MS ==>
      |after| == MAX_PENDING_TIME_SYNC + 1 && forall k :: k in after && k != id ==> before[d] <= after[k]
  }

  /** What a time sync leaves pending: at most 33 entries, none older than 30 s, old
      ones unchanged, and none that was trimmed newer than one that was kept. */
  predicate SyncPruned(before: map<nat, nat>, after: map<nat, nat>, now: nat, id: nat) {
    SyncBounded(before, after, now, id) && forall d :: d in before ==> TrimmedIsOldest(before, after, now, id, d)
  }

  lemma SyncKeepsBounded(pending: map<nat, nat>, now: nat, dropped: set<nat>, id: nat)
    requires id !in pending && Victims(Fresh(pending, now), dropped)
    ensures SyncBounded(pending, Pruned(pending, now, dropped)[id := now], now, id)
  {
  }

  /** Dropping any legal choice of overflow victims has that effect. */
  lemma SyncKeepsNewest(pending: map<nat, nat>, now: nat, dropped: set<nat>, id: nat)
    requires id !in pending && Victims(Fresh(pending, now), dropped)
    ensures SyncPruned(pending, Pruned(pending, now, dropped)[id := now], now, id)
  {
    SyncKeepsBounded(pending, now, dropped, id);
    forall d | d in pending
      ensures TrimmedIsOldest(pending, Pruned(pending, now, dropped)[id := now], now, id, d)
    {
    }
  }

  /** What one tick of the sync timer sends and leaves pending. */
  lemma SyncStep(rt: Rt, now: nat, dropped: set<nat>)
    requires Inv(rt) && rt.live && rt.phase != AwaitingAuth && Victims(Fresh(rt.pendingSync, now), dropped)
    ensures var o := Step(rt, SyncTimer(now, dropped));
      && o.outs == [TcpOut(TimeSync(rt.nextId, now))]
      && rt.nextId in o.rt.pendingSync && o.rt.pendingSync[rt.nextId] == now
      && SyncPruned(rt.pendingSync, o.rt.pendingSync, now, rt.nextId)
  {
    SyncKeepsNewest(rt.pendingSync, now, dropped, rt.nextId);
  }

  /** Only a request that is sent becomes pending, with the time that it carries. */
  lemma PendingStep(rt: Rt, i: Input, k: nat)
    requires Inv(rt) && k in Step(rt, i).rt.pendingSync
    ensures var o := Step(rt, i);
      || (k in rt.pendingSync && o.rt.pendingSync[k] == rt.pendingSync[k])
      || o.outs == [TcpOut(TimeSync(k, o.rt.pendingSync[k]))]
  {
    if i.FromServer? && !i.msg.TimeSyncReply? {
      OtherKeepsPending(rt, i);
    }
  }

  predicate Sends(inputs: seq<Input>, j: nat, m: Message)
    requires j < |inputs|
  {
    At(NEW, inputs, j).outs == [TcpOut(m)]
  }

  /** Main result: in every reachable state each pending time sync was sent, with its id
      and the time it is pending since. */
  lemma {:induction false} PendingWasSent(inputs: seq<Input>, k: nat)
    requires k in Run(NEW, inputs).pendingSync
    ensures exists j :: 0 <= j < |inputs| && Sends(inputs, j, TimeSync(k, Run(NEW, inputs).pendingSync[k]))
  {
    var n := |inputs| - 1;
    var before := Run(NEW, inputs[..n]);
    RunKeepsInv(NEW, inputs[..n]);
    PendingStep(before, inputs[n], k);
    if k in before.pendingSync && Run(NEW, inputs).pendingSync[k] == before.pendingSync[k] {
      PendingWasSent(inputs[..n], k);
      var j :| 0 <= j < n && Sends(inputs[..n], j, TimeSync(k, before.pendingSync[k]));
      assert inputs[..n][..j] == inputs[..j] && inputs[..n][j] == inputs[j];
      assert Sends(inputs, j, TimeSync(k, before.pendingSync[k]));
    } else {
      assert Sends(inputs, n, TimeSync(k, Run(NEW, inputs).pendingSync[k]));
    }
  }

  lemma {:induction false} PendingSyncsBounded(inputs: seq<Input>)
    ensures |Run(NEW, inputs).pendingSync| <= MAX_PENDING_TIME_SYNC + 1
  {
    if inputs != [] {
      var n := |inputs| - 1;
      PendingSyncsBounded(inputs[..n]);
      RunKeepsInv(NEW, inputs[..n]);
      PendingSyncsStep(Run(NEW, inputs[..n]), inputs[n]);
    }
  }

  lemma OtherKeepsPending(rt: Rt, i: Input)
    requires i.FromServer? && !i.msg.TimeSyncReply?
    ensures Step(rt, i).rt.pendingSync == rt.pendingSync
  {
  }

  lemma {:induction false} PendingSyncsStep(rt: Rt, i: Input)
    requires Inv(rt) && |rt.pendingSync| <= MAX_PENDING_TIME_SYNC + 1
    ensures |Step(rt, i).rt.pendingSync| <= MAX_PENDING_TIME_SYNC + 1
  {
    match i
    case SyncTimer(now, dropped) =>
      if rt.live && rt.phase != AwaitingAuth && Victims(Fresh(rt.pendingSync, now), dropped) {
        SyncKeepsBounded(rt.pendingSync, now, dropped, rt.nextId);
      }
    case FromServer(_, m, _) =>
      if m.TimeSyncReply? {
        assert (rt.pendingSync - {m.packet}).Keys == rt.pendingSync.Keys - {m.packet};
      } else {
        OtherKeepsPending(rt, i);
      }
    case _ =>
  }
}
