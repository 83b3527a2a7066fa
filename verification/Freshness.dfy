/** What the client says it has and how it keeps its window alive: the versions it claims,
    the versions it stores, renewals and retries. */
module Freshness {
  import opened Common
  import opened Window
  import opened Subscription

  // ----- the versions a subscription claims -----

  /** The claims are the stored chunks of this window, all of them, at their versions. */
  predicate TrueClaims(store: map<Chunk, nat>, center: Chunk, known: seq<(Chunk, nat)>) {
    && (forall k :: k in known ==> k.0 in store && InWindow(k.0, center) && k.1 == store[k.0])
    && (forall c :: c in store && InWindow(c, center) ==> (c, store[c]) in known)
  }

  /** The store still has everything that was claimed, at that version. */
  predicate KeepsClaims(store: map<Chunk, nat>, known: seq<(Chunk, nat)>) {
    forall k :: k in known ==> k.0 in store && store[k.0] == k.1
  }

  lemma ClaimsTrue(store: map<Chunk, nat>, center: Chunk)
    ensures TrueClaims(store, center, Known(store, center)) && KeepsClaims(store, Known(store, center))
  {
    KnownExact(store, center);
    assert forall c :: c in store && InWindow(c, center) ==> c in WindowKeys(store, center);
  }

  lemma AroundClaims(a: Aoi, tile: Tile, center: Chunk)
    ensures var s := SubscribeAround(a, tile, center);
      var known := Known(a.store, center);
      && s.commands[0] == SubscribeChunks(center, known)
      && TrueClaims(a.store, center, known) && KeepsClaims(s.aoi.store, known)
      && forall k :: 0 < k < |s.commands| ==> s.commands[k].UnsubscribeChunks?
  {
    ClaimsTrue(a.store, center);
    if a.center.Some? && a.center.value != center {
      FallingOutExact(a.center.value, center);
      WindowSeqExact(center);
    }
  }

  ghost predicate Honest(w: World, e: Event, c: Command) {
    c.SubscribeChunks? ==>
      var w' := Next(w, e);
      && w'.player.Some? && c.center == CenterOf(w'.player.value)
      && TrueClaims(w.aoi.store, c.center, c.known) && KeepsClaims(w'.aoi.store, c.known)
  }

  lemma FrameHonest(w: World, e: Event, c: Command)
    requires Placed(w) && e.Frame? && c in Handle(w.aoi, e).commands
    ensures Honest(w, e, c)
  {
    if w.player.Some? {
      var a := w.aoi;
      ClaimsTrue(a.store, a.center.value);
      AroundClaims(a.(keepaliveTile := a.tile, attempts := a.attempts + 1), a.tile.value, a.center.value);
      assert a.store - Elements<Chunk>([]) == a.store;
    }
  }

  /** Main result: every window that the client subscribes is the player's, and with it
      the client claims all it has stored of that window, at its versions, nothing else;
      re-centring evicts nothing that was claimed. */
  lemma {:induction false} SubscriptionsHonest(w: World, e: Event, c: Command)
    requires Placed(w) && c in Handle(w.aoi, e).commands
    ensures Honest(w, e, c)
  {
    match e
    case EnteredScene(location) =>
      AroundClaims(w.aoi.(center := None, tile := None, keepaliveTile := None), TargetTile(location),
                   CenterOf(TargetTile(location)));
    case LocalPosition(location) =>
      AroundClaims(w.aoi, TargetTile(location), CenterOf(TargetTile(location)));
    case Frame(_, _, _) => FrameHonest(w, e, c);
    case Arrived(_) =>
    case ServerDropped(_) =>
  }

  // ----- the versions in store -----

  /** The version last heard of a chunk: that of the last message of it that applied,
      before that the cache's, none after an invalidation. */
  ghost function LastHeard(cache: map<Chunk, nat>, events: seq<Event>, c: Chunk): Option<nat> {
    if events == [] then if c in cache then Some(cache[c]) else None
    else
      var before, e := events[..|events| - 1], events[|events| - 1];
      if AppliesTo(Run(cache, before).aoi, e, c) then Some(e.message.version)
      else if e == Arrived(Invalidate(c)) then None
      else LastHeard(cache, before, c)
  }

  /** No event but a message of the chunk changes its version in store. */
  lemma StoreStep(w: World, e: Event, c: Chunk)
    ensures var store := Next(w, e).aoi.store;
      && (AppliesTo(w.aoi, e, c) ==> c in store && store[c] == e.message.version)
      && (e == Arrived(Invalidate(c)) ==> c !in store)
      && (!AppliesTo(w.aoi, e, c) && c in store ==> c in w.aoi.store && store[c] == w.aoi.store[c])
  {
  }

  /** Main result: over every run what is in store is at the version last heard, and a
      delta is applied only to the version that it was made from. */
  lemma {:induction false} StoreIsLastHeard(cache: map<Chunk, nat>, events: seq<Event>, c: Chunk)
    ensures c in Run(cache, events).aoi.store ==> LastHeard(cache, events, c) == Some(Run(cache, events).aoi.store[c])
  {
    if events != [] {
      var n := |events| - 1;
      StoreIsLastHeard(cache, events[..n], c);
      StoreStep(Run(cache, events[..n]), events[n], c);
    }
  }

  lemma {:induction false} DeltasChain(cache: map<Chunk, nat>, events: seq<Event>, m: Message)
    requires m.Delta? && AppliesTo(Run(cache, events).aoi, Arrived(m), m.chunk)
    ensures LastHeard(cache, events, m.chunk) == Some(m.base)
    ensures LastHeard(cache, events + [Arrived(m)], m.chunk) == Some(m.version)
  {
    StoreIsLastHeard(cache, events, m.chunk);
    assert (events + [Arrived(m)])[..|events|] == events;
  }

  /** And well-formed news is taken: every snapshot, and a delta of the version in store. */
  lemma NewsIsTaken(w: World, m: Message)
    requires m.Snapshot? || (m.Delta? && m.chunk in w.aoi.store && w.aoi.store[m.chunk] == m.base)
    requires m.wellFormed
    ensures var w' := Next(w, Arrived(m));
      m.chunk in w'.aoi.store && w'.aoi.store[m.chunk] == m.version && m.chunk !in w'.aoi.inFlight && w'.held == w.held
  {
    assert Serve(w.held, []) == w.held;
  }

  // ----- renewals -----

  predicate Armed(w: World) { w.player.Some? && w.aoi.keepaliveTile == w.player }

  /** The player stays in its tile and its session. */
  predicate Stays(w: World, e: Event) {
    && !e.EnteredScene?
    && (e.LocalPosition? ==> w.player == Some(TargetTile(e.location)))
  }

  lemma StaysArmed(w: World, e: Event)
    requires Placed(w) && w.player.Some? && Stays(w, e) && (Armed(w) || (e.Frame? && e.joined))
    ensures Armed(Next(w, e)) && Next(w, e).player == w.player
  {
  }

  /** Through all the events that follow. */
  ghost predicate StaysAfter(cache: map<Chunk, nat>, events: seq<Event>, more: seq<Event>) {
    more == [] ||
    (var n := |more| - 1;
     StaysAfter(cache, events, more[..n]) && Stays(Run(cache, events + more[..n]), more[n]))
  }

  lemma StayStep(cache: map<Chunk, nat>, events: seq<Event>, e: Event)
    requires Run(cache, events).player.Some? && Stays(Run(cache, events), e)
    requires Armed(Run(cache, events)) || (e.Frame? && e.joined)
    ensures Armed(Run(cache, events + [e]))
  {
    AlwaysPlaced(cache, events);
    RunSnoc(cache, events, e);
    StaysArmed(Run(cache, events), e);
  }

  lemma {:induction false} StayingArmed(cache: map<Chunk, nat>, events: seq<Event>, more: seq<Event>)
    requires Armed(Run(cache, events)) && StaysAfter(cache, events, more)
    ensures Armed(Run(cache, events + more))
  {
    if more == [] {
      assert events + more == events;
    } else {
      var n := |more| - 1;
      assert events + more == events + more[..n] + [more[n]];
      StayingArmed(cache, events, more[..n]);
      StayStep(cache, events + more[..n], more[n]);
    }
  }

  /** Main result: while the player stays in its tile, every keepalive after the first
      joined frame leaves the server with the whole window, whatever it had dropped. */
  lemma {:induction false} KeepaliveRestores(cache: map<Chunk, nat>, events: seq<Event>, first: Event,
                                             more: seq<Event>, retryDue: bool)
    requires Run(cache, events).player.Some? && first.Frame? && first.joined
    requires StaysAfter(cache, events + [first], more)
    ensures Covered(Run(cache, events + [first] + more + [Frame(true, retryDue, true)]))
  {
    StayStep(cache, events, first);
    StayingArmed(cache, events + [first], more);
    var all := events + [first] + more;
    AlwaysPlaced(cache, all);
    RunSnoc(cache, all, Frame(true, retryDue, true));
    RenewalRestoresCoverage(Run(cache, all), retryDue);
  }

  /** After a scene entry or a new tile the timer starts over: the first frame renews nothing. */
  lemma FreshWindowWaits(w: World, e: Event, joined: bool, fired: bool)
    requires Placed(w) && (w.aoi.keepaliveTile.Some? ==> w.aoi.keepaliveTile == w.player)
    requires e.EnteredScene? || (e.LocalPosition? && w.player != Some(TargetTile(e.location)))
    ensures Handle(Next(w, e).aoi, Frame(joined, false, fired)).commands == []
  {
  }

  /** Without a place, or before the scene is joined, a frame sends nothing. */
  lemma IdleFrameIsSilent(w: World, e: Event)
    requires Placed(w) && e.Frame? && (w.player == None || !e.joined)
    ensures Handle(w.aoi, e).commands == [] && Next(w, e).aoi.store == w.aoi.store
    ensures Next(w, e).aoi.keepaliveTile == if w.player == None then None else w.aoi.keepaliveTile
  {
  }

  /** A frame brings back what the server had dropped exactly when the keepalive is due in
      an unchanged tile, or a retry is due, nothing has come and fewer than 40 were sent. */
  lemma FrameRestoresIff(w: World, joined: bool, retryDue: bool, fired: bool)
    requires Placed(w) && w.player.Some?
    ensures Covered(Next(w, Frame(joined, retryDue, fired))) <==>
      || Covered(w)
      || (joined && ((Armed(w) && fired) || (retryDue && w.aoi.store == map[] && w.aoi.attempts < 40)))
  {
    if joined && w.aoi.attempts < 40 {
      var a := w.aoi;
      var b := a.(keepaliveTile := a.tile, attempts := a.attempts + 1);
      SubscribeAroundServes(b, w.held, a.tile.value, a.center.value);
    }
    FrameServes(w, joined, retryDue, fired);
  }

  // ----- retries -----

  /** Frames on which a retry is due and no keepalive. */
  ghost function Retried(w: World, n: nat): World {
    if n == 0 then w else Next(Retried(w, n - 1), Frame(true, true, false))
  }

  ghost function RetriesSent(w: World, n: nat): nat {
    if n == 0 then 0
    else RetriesSent(w, n - 1) + |Handle(Retried(w, n - 1).aoi, Frame(true, true, false)).commands|
  }

  lemma RetryStep(w: World)
    requires Placed(w) && w.player.Some? && w.aoi.store == map[]
    ensures var w' := Next(w, Frame(true, true, false));
      && Placed(w') && w'.player == w.player && w'.aoi.store == map[]
      && w'.aoi.attempts == Min(w.aoi.attempts + 1, 40)
      && |Handle(w.aoi, Frame(true, true, false)).commands| == if w.aoi.attempts < 40 then 1 else 0
  {
    NextPlaced(w, Frame(true, true, false));
    assert w.aoi.store - Elements<Chunk>([]) == w.aoi.store;
  }

  /** Main result: while no terrain comes, the client subscribes its window again on every
      retry until 40 were sent, and then no more. */
  lemma {:induction false} RetriesGiveUp(w: World, n: nat)
    requires Placed(w) && w.player.Some? && w.aoi.store == map[]
    ensures var w' := Retried(w, n);
      && Placed(w') && w'.player == w.player && w'.aoi.store == map[]
      && w'.aoi.attempts == Min(w.aoi.attempts + n, 40) && RetriesSent(w, n) == Min(n, 40 - w.aoi.attempts)
  {
    if n > 0 {
      RetriesGiveUp(w, n - 1);
      RetryStep(Retried(w, n - 1));
    }
  }

  /** Terrain restores all retries on the next frame that would have sent one. */
  lemma TerrainRestoresRetries(w: World, fired: bool)
    requires Placed(w) && w.player.Some? && w.aoi.store != map[]
    ensures Next(w, Frame(true, true, fired)).aoi.attempts == 0
    ensures Next(w, Frame(true, true, fired)).aoi.store == w.aoi.store
  {
  }
}
