/** The client's chunk store: when it stays inside the window around the player. */
module ChunkStore {
  import opened Common
  import opened Window
  import opened Subscription

  /** Re-centring turns a store inside the old window into one inside the new window
      and leaves every retained chunk's version alone. */
  lemma {:induction false} EvictionKeepsStoreInside(a: Aoi, tile: Tile, center: Chunk)
    requires a.center.Some? && a.store.Keys <= Near(a.center.value)
    ensures var store := SubscribeAround(a, tile, center).aoi.store;
      && store.Keys == a.store.Keys * Near(center)
      && forall c :: c in store ==> store[c] == a.store[c]
  {
    FallingOutExact(a.center.value, center);
  }

  /** A scene entry forgets the old centre and so evicts nothing. */
  lemma EnterEvictsNothing(a: Aoi, location: Location)
    ensures OnEnter(a, location).aoi.store == a.store
  {
    assert a.store - Elements<Chunk>([]) == a.store;
  }

  /** Once the player has a place, the store holds nothing outside the window. */
  ghost predicate Stocked(w: World) {
    w.player.Some? ==> w.aoi.store.Keys <= WindowOf(w.player)
  }

  /** The event brings no foreign chunk: a snapshot that is applied is of the window, and
      a window that is opened lacks nothing that is in store. */
  ghost predicate Orderly(w: World, e: Event) {
    match e
    case Arrived(m) => m.Snapshot? && m.wellFormed && w.player.Some? ==> m.chunk in WindowOf(w.player)
    case EnteredScene(location) => w.aoi.store.Keys <= Near(CenterOf(TargetTile(location)))
    case LocalPosition(location) => w.player == None ==> w.aoi.store.Keys <= Near(CenterOf(TargetTile(location)))
    case _ => true
  }

  ghost predicate OrderlyRun(cache: map<Chunk, nat>, events: seq<Event>) {
    events == [] ||
    (var before := events[..|events| - 1];
     OrderlyRun(cache, before) && Orderly(Run(cache, before), events[|events| - 1]))
  }

  /** Stocked at the end and after every earlier event. */
  ghost predicate AlwaysStocked(cache: map<Chunk, nat>, events: seq<Event>) {
    Stocked(Run(cache, events)) && (events != [] ==> AlwaysStocked(cache, events[..|events| - 1]))
  }

  lemma {:induction false} MoveStocksIff(w: World, location: Location)
    requires Placed(w) && Stocked(w)
    ensures Stocked(Next(w, LocalPosition(location))) <==> Orderly(w, LocalPosition(location))
  {
    if w.player.Some? {
      EvictionKeepsStoreInside(w.aoi, TargetTile(location), CenterOf(TargetTile(location)));
    } else {
      assert w.aoi.store - Elements<Chunk>([]) == w.aoi.store;
    }
  }

  /** One event leaves a stocked store stocked exactly when it is orderly. */
  lemma {:induction false} NextStockedIff(w: World, e: Event)
    requires Placed(w) && Stocked(w)
    ensures Stocked(Next(w, e)) <==> Orderly(w, e)
  {
    match e
    case EnteredScene(location) => EnterEvictsNothing(w.aoi, location);
    case LocalPosition(location) => MoveStocksIff(w, location);
    case _ =>
  }

  /** Main result: the store stays inside the window throughout a run, from any cache on
      disk, exactly when the run is orderly. */
  lemma {:induction false} AlwaysStockedIffOrderly(cache: map<Chunk, nat>, events: seq<Event>)
    ensures AlwaysStocked(cache, events) <==> OrderlyRun(cache, events)
  {
    if events != [] {
      var n := |events| - 1;
      AlwaysStockedIffOrderly(cache, events[..n]);
      AlwaysPlaced(cache, events[..n]);
      if Stocked(Run(cache, events[..n])) {
        NextStockedIff(Run(cache, events[..n]), events[n]);
      }
    }
  }

  /** An inside store is a bounded store. */
  lemma {:induction false} StockedIsBounded(w: World)
    requires Stocked(w) && w.player.Some?
    ensures |w.aoi.store| <= COUNT
  {
    WindowSeqExact(CenterOf(w.player.value));
    DistinctCount(WindowSeq(CenterOf(w.player.value)));
    SubsetCount(w.aoi.store.Keys, WindowOf(w.player));
    assert |w.aoi.store| == |w.aoi.store.Keys|;
  }

  /** A foreign chunk is evicted by nothing until a window has held it again: only an
      invalidation removes it. */
  lemma {:induction false} ForeignChunkStays(w: World, e: Event, c: Chunk)
    requires Placed(w) && c in w.aoi.store && c !in WindowOf(w.player) && e != Arrived(Invalidate(c))
    ensures c in Next(w, e).aoi.store
  {
    match e
    case EnteredScene(location) => EnterEvictsNothing(w.aoi, location);
    case LocalPosition(location) =>
      if w.player.Some? {
        FallingOutExact(w.aoi.center.value, CenterOf(TargetTile(location)));
      }
    case _ =>
  }

  // ----- failing runs -----

  /** The first failing case: a snapshot still in flight when the player leaves its window. */
  lemma {:induction false} LateArrivalStrays(
    cache: map<Chunk, nat>, events: seq<Event>, location: Location, c: Chunk, version: nat)
    requires c !in Near(CenterOf(TargetTile(location)))
    ensures !Stocked(Run(cache, events + [LocalPosition(location)] + [Arrived(Snapshot(c, version, true))]))
  {
    RunSnoc(cache, events, LocalPosition(location));
    RunSnoc(cache, events + [LocalPosition(location)], Arrived(Snapshot(c, version, true)));
  }

  /** Such a run exists: the chunk was subscribed, the player left, the snapshot came. */
  lemma {:induction false} LateArrivalExample()
    ensures (0, 0, 0) in Run(map[], [EnteredScene(HOME)]).held
    ensures !Stocked(Run(map[], [EnteredScene(HOME)] + [LocalPosition(AWAY)] + [Arrived(Snapshot((0, 0, 0), 1, true))]))
  {
    AtHome(Run(map[], [EnteredScene(HOME)]));
    HomeAndAway();
    LateArrivalStrays(map[], [EnteredScene(HOME)], AWAY, (0, 0, 0), 1);
  }

  /** The second: a scene entered elsewhere with chunks in store, here those of the cache
      on disk; an earlier scene's chunks do the same. */
  lemma {:induction false} EntryElsewhereStrays(
    cache: map<Chunk, nat>, events: seq<Event>, location: Location, c: Chunk)
    requires c in Run(cache, events).aoi.store && c !in Near(CenterOf(TargetTile(location)))
    ensures !Stocked(Run(cache, events + [EnteredScene(location)]))
  {
    RunSnoc(cache, events, EnteredScene(location));
    EnterEvictsNothing(Run(cache, events).aoi, location);
  }

  /** Such runs exist: a cached chunk of home, and the first scene entered away from it. */
  lemma {:induction false} EntryElsewhereExample()
    ensures !Stocked(Run(map[(0, 0, 0) := 1], [EnteredScene(AWAY)]))
  {
    HomeAndAway();
    assert [] + [EnteredScene(AWAY)] == [EnteredScene(AWAY)];
    EntryElsewhereStrays(map[(0, 0, 0) := 1], [], AWAY, (0, 0, 0));
  }
}
