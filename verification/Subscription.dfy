/** The incremental voxel subscription: what the client sends as the player moves and as
    chunk messages arrive, and what the server is left holding. */
module Subscription {
  import opened Common
  import opened Window

  const MAX_SUBSCRIBE_RETRIES: nat := 40

  datatype Command =
    | SubscribeChunks(center: Chunk, known: seq<(Chunk, nat)>)
    | SubscribeChunk(chunk: Chunk)  // radius 0 and nothing known: a full snapshot, please
    | UnsubscribeChunks(chunks: seq<Chunk>)

  /** The client's window state: the chunk store maps a chunk to its version, and a chunk
      in flight has asked for a snapshot that has not come. */
  datatype Aoi = Aoi(
    center: Option<Chunk>, tile: Option<Tile>, store: map<Chunk, nat>,
    attempts: nat, keepaliveTile: Option<Tile>, inFlight: set<Chunk>)

  /** At startup the store holds what the map cache on disk held. */
  function Started(cache: map<Chunk, nat>): Aoi { Aoi(None, None, cache, 0, None, {}) }

  datatype Sent = Sent(aoi: Aoi, commands: seq<Command>)

  ghost function Dropped(center: Option<Chunk>, to: Chunk): seq<Chunk> {
    if center.Some? && center.value != to then FallingOut(center.value, to) else []
  }

  function Farewell(dropped: seq<Chunk>): seq<Command> {
    if dropped == [] then [] else [UnsubscribeChunks(dropped)]
  }

  /** Re-centring: subscribe the new window, then evict and unsubscribe what fell out. */
  ghost function SubscribeAround(a: Aoi, tile: Tile, center: Chunk): Sent {
    var dropped := Dropped(a.center, center);
    Sent(a.(center := Some(center), tile := Some(tile), store := a.store - Elements(dropped)),
         [SubscribeChunks(center, Known(a.store, center))] + Farewell(dropped))
  }

  type Location = (real, real, real)

  function TargetTile(location: Location): Tile { TileOf(ChunkOf(location)) }

  ghost function OnEnter(a: Aoi, location: Location): Sent {
    SubscribeAround(a.(center := None, tile := None, keepaliveTile := None),
                    TargetTile(location), CenterOf(TargetTile(location)))
  }

  ghost function OnPosition(a: Aoi, location: Location): Sent {
    if a.tile == Some(TargetTile(location)) then Sent(a, [])
    else SubscribeAround(a, TargetTile(location), CenterOf(TargetTile(location)))
  }

  /** One frame of the retry and keepalive system; the timers say what is due. */
  ghost function OnFrame(a: Aoi, joined: bool, retryDue: bool, keepaliveFired: bool): Sent {
    if a.tile == None || a.center == None then Sent(a.(keepaliveTile := None), [])
    else if !joined then Sent(a, [])
    else
      var renew := a.keepaliveTile == a.tile && keepaliveFired;
      var b := a.(keepaliveTile := a.tile);
      var renewal := if renew then [SubscribeChunks(a.center.value, Known(a.store, a.center.value))] else [];
      if !retryDue then Sent(b, renewal)
      else if b.store != map[] then Sent(b.(attempts := 0), renewal)
      else if renew || b.attempts >= MAX_SUBSCRIBE_RETRIES then Sent(b, renewal)
      else SubscribeAround(b.(attempts := b.attempts + 1), a.tile.value, a.center.value)
  }

  // ----- chunk messages -----

  /** A message that is not well-formed is rejected by the store and changes no version. */
  datatype Message =
    | Snapshot(chunk: Chunk, version: nat, wellFormed: bool)
    | Delta(chunk: Chunk, base: nat, version: nat, wellFormed: bool)
    | Invalidate(chunk: Chunk)

  /** A delta for a chunk that is not held at the delta's base version. */
  predicate Forks(a: Aoi, m: Message) {
    m.Delta? && (m.chunk in a.store ==> a.store[m.chunk] != m.base)
  }

  predicate Applies(a: Aoi, m: Message) {
    !m.Invalidate? && m.wellFormed && !Forks(a, m)
  }

  /** The message makes the client ask for a fresh snapshot of its chunk. */
  predicate Asks(a: Aoi, m: Message) {
    (m.Invalidate? || Forks(a, m)) && m.chunk !in a.inFlight
  }

  function Ingested(a: Aoi, m: Message): Aoi {
    if Applies(a, m) then a.(store := a.store[m.chunk := m.version], inFlight := a.inFlight - {m.chunk})
    else
      var b := if m.Invalidate? then a.(store := a.store - {m.chunk}) else a;
      if Asks(a, m) then b.(inFlight := b.inFlight + {m.chunk}) else b
  }

  function Requested(a: Aoi, m: Message): set<Chunk> {
    if Asks(a, m) then {m.chunk} else {}
  }

  function Resyncs(chunks: seq<Chunk>): seq<Command> {
    seq(|chunks|, i requires 0 <= i < |chunks| => SubscribeChunk(chunks[i]))
  }

  // ----- the world -----

  datatype Event =
    | EnteredScene(location: Location)
    | LocalPosition(location: Location)
    | Frame(joined: bool, retryDue: bool, keepaliveFired: bool)
    | Arrived(message: Message)
    | ServerDropped(chunk: Chunk)  // the server ends its subscription, as when it invalidates the chunk

  ghost function Handle(a: Aoi, e: Event): Sent {
    match e
    case EnteredScene(location) => OnEnter(a, location)
    case LocalPosition(location) => OnPosition(a, location)
    case Frame(joined, retryDue, keepaliveFired) => OnFrame(a, joined, retryDue, keepaliveFired)
    case Arrived(m) => Sent(Ingested(a, m), if Asks(a, m) then [SubscribeChunk(m.chunk)] else [])
    case ServerDropped(_) => Sent(a, [])
  }

  ghost function Obey(held: set<Chunk>, c: Command): set<Chunk> {
    match c
    case SubscribeChunks(center, _) => held + Near(center)
    case SubscribeChunk(chunk) => held + {chunk}
    case UnsubscribeChunks(chunks) => held - Elements(chunks)
  }

  ghost function Serve(held: set<Chunk>, commands: seq<Command>): set<Chunk> {
    if commands == [] then held
    else Obey(Serve(held, commands[..|commands| - 1]), commands[|commands| - 1])
  }

  datatype World = World(aoi: Aoi, held: set<Chunk>, player: Option<Tile>)

  /** What the server holds when an event begins: a new session starts with nothing. */
  function Before(w: World, e: Event): set<Chunk> {
    match e
    case EnteredScene(_) => {}
    case ServerDropped(chunk) => w.held - {chunk}
    case _ => w.held
  }

  ghost function Next(w: World, e: Event): World {
    var sent := Handle(w.aoi, e);
    World(sent.aoi, Serve(Before(w, e), sent.commands),
          if e.EnteredScene? || e.LocalPosition? then Some(TargetTile(e.location)) else w.player)
  }

  ghost function Run(cache: map<Chunk, nat>, events: seq<Event>): World {
    if events == [] then World(Started(cache), {}, None)
    else Next(Run(cache, events[..|events| - 1]), events[|events| - 1])
  }

  lemma RunSnoc(cache: map<Chunk, nat>, events: seq<Event>, e: Event)
    ensures Run(cache, events + [e]) == Next(Run(cache, events), e)
  {
    assert (events + [e])[..|events|] == events;
  }

  /** The window around the player, if it has a place yet. */
  ghost function WindowOf(player: Option<Tile>): set<Chunk> {
    if player.Some? then Near(CenterOf(player.value)) else {}
  }

  /** The client's centre and tile are those of the player, and its retries bounded. */
  predicate Placed(w: World) {
    && w.aoi.tile == w.player
    && w.aoi.center == (if w.player.Some? then Some(CenterOf(w.player.value)) else None)
    && w.aoi.attempts <= MAX_SUBSCRIBE_RETRIES
  }

  /** The server holds exactly the window. */
  ghost predicate Exact(w: World) { w.held == WindowOf(w.player) }

  /** The server holds all of the window, and maybe more. */
  ghost predicate Covered(w: World) { WindowOf(w.player) <= w.held }

  // ----- what one event does to the server -----

  lemma ServeOne(held: set<Chunk>, c: Command)
    ensures Serve(held, [c]) == Obey(held, c)
  {
    assert [c][..0] == [];
  }

  lemma ServeTwo(held: set<Chunk>, c: Command, d: Command)
    ensures Serve(held, [c] + [d]) == Obey(Obey(held, c), d)
  {
    assert ([c] + [d])[..1] == [c];
    ServeOne(held, c);
  }

  /** Subscribing around a centre adds the new window and removes what only the old one had. */
  lemma SubscribeAroundServes(a: Aoi, held: set<Chunk>, tile: Tile, center: Chunk)
    ensures Serve(held, SubscribeAround(a, tile, center).commands) ==
      if a.center.Some? then held + Near(center) - (Near(a.center.value) - Near(center)) else held + Near(center)
  {
    var subscribe := SubscribeChunks(center, Known(a.store, center));
    var dropped := Dropped(a.center, center);
    ServeOne(held, subscribe);
    if a.center.Some? {
      FallingOutExact(a.center.value, center);
      EnteredEqualsExited(a.center.value, center);
    }
    if dropped != [] {
      ServeTwo(held, subscribe, UnsubscribeChunks(dropped));
    } else {
      assert [subscribe] + [] == [subscribe];
    }
  }

  lemma PositionServes(w: World, location: Location)
    requires Placed(w)
    ensures var to := Near(CenterOf(TargetTile(location)));
      Next(w, LocalPosition(location)).held ==
        if w.player == Some(TargetTile(location)) then w.held else w.held + to - (WindowOf(w.player) - to)
  {
    SubscribeAroundServes(w.aoi, w.held, TargetTile(location), CenterOf(TargetTile(location)));
  }

  lemma EntryServes(w: World, location: Location)
    ensures Next(w, EnteredScene(location)).held == Near(CenterOf(TargetTile(location)))
  {
    var forgotten := w.aoi.(center := None, tile := None, keepaliveTile := None);
    SubscribeAroundServes(forgotten, {}, TargetTile(location), CenterOf(TargetTile(location)));
  }

  /** A frame adds the window or nothing; a renewal adds it. */
  lemma FrameServes(w: World, joined: bool, retryDue: bool, keepaliveFired: bool)
    requires Placed(w)
    ensures var held := Next(w, Frame(joined, retryDue, keepaliveFired)).held;
      && (held == w.held || held == w.held + WindowOf(w.player))
      && (joined && keepaliveFired && w.player.Some? && w.aoi.keepaliveTile == w.player ==>
            held == w.held + WindowOf(w.player))
  {
    if w.player.Some? {
      var a := w.aoi;
      ServeOne(w.held, SubscribeChunks(a.center.value, Known(a.store, a.center.value)));
      var b := a.(keepaliveTile := a.tile, attempts := a.attempts + 1);
      SubscribeAroundServes(b, w.held, a.tile.value, a.center.value);
    }
  }

  lemma MessageServes(w: World, m: Message)
    ensures Next(w, Arrived(m)).held == w.held + Requested(w.aoi, m)
  {
    ServeOne(w.held, SubscribeChunk(m.chunk));
  }

  lemma NextPlaced(w: World, e: Event)
    requires Placed(w)
    ensures Placed(Next(w, e))
  {
  }

  lemma {:induction false} AlwaysPlaced(cache: map<Chunk, nat>, events: seq<Event>)
    ensures Placed(Run(cache, events))
  {
    if events != [] {
      AlwaysPlaced(cache, events[..|events| - 1]);
      NextPlaced(Run(cache, events[..|events| - 1]), events[|events| - 1]);
    }
  }

  // ----- when the server holds exactly the window -----

  /** No snapshot is asked for a chunk that the server does not hold, and the server
      drops none that it holds. */
  predicate Quiet(w: World, e: Event) {
    match e
    case Arrived(m) => Asks(w.aoi, m) ==> m.chunk in w.held
    case ServerDropped(c) => c !in w.held
    case _ => true
  }

  /** One event leaves an exact subscription exact precisely when it is quiet. */
  lemma NextExactIff(w: World, e: Event)
    requires Placed(w) && Exact(w)
    ensures Exact(Next(w, e)) <==> Quiet(w, e)
  {
    match e
    case EnteredScene(location) => EntryServes(w, location);
    case LocalPosition(location) => PositionServes(w, location);
    case Frame(joined, retryDue, keepaliveFired) => FrameServes(w, joined, retryDue, keepaliveFired);
    case Arrived(m) => MessageServes(w, m);
    case ServerDropped(_) =>
  }

  ghost predicate QuietRun(cache: map<Chunk, nat>, events: seq<Event>) {
    events == [] ||
    (var before := events[..|events| - 1];
     QuietRun(cache, before) && Quiet(Run(cache, before), events[|events| - 1]))
  }

  /** Exact at the end and after every earlier event. */
  ghost predicate AlwaysExact(cache: map<Chunk, nat>, events: seq<Event>) {
    Exact(Run(cache, events)) && (events != [] ==> AlwaysExact(cache, events[..|events| - 1]))
  }

  /** Main result: over scene entries, movements, retries, keepalives, chunk messages and
      drops by the server, the server holds exactly the window throughout a run precisely
      when the run is quiet. */
  lemma {:induction false} SubscriptionExactIff(cache: map<Chunk, nat>, events: seq<Event>)
    ensures AlwaysExact(cache, events) <==> QuietRun(cache, events)
  {
    if events != [] {
      var n := |events| - 1;
      SubscriptionExactIff(cache, events[..n]);
      AlwaysPlaced(cache, events[..n]);
      if Exact(Run(cache, events[..n])) {
        NextExactIff(Run(cache, events[..n]), events[n]);
      }
    }
  }

  /** And the window is the 27 tiles around the player's tile. */
  lemma WindowIsNeighbourhood(player: Tile, c: Chunk)
    ensures c in WindowOf(Some(player)) <==> Neighbours(TileOf(c), player)
  {
    WindowSeqExact(CenterOf(player));
    WindowIsTileNeighbourhood(c, player);
    assert c in Near(CenterOf(player)) <==> c in WindowSeq(CenterOf(player));
  }

  /** A scene entry makes the subscription exact whatever came before. */
  lemma EntryRestoresExactness(w: World, location: Location)
    ensures Exact(Next(w, EnteredScene(location)))
  {
    EntryServes(w, location);
  }

  /** A chunk held outside the window is unsubscribed by nothing until a window has held
      it again or a new session begins. */
  lemma StraySubscriptionStays(w: World, e: Event, c: Chunk)
    requires Placed(w) && c in w.held && c !in WindowOf(w.player)
    requires !e.EnteredScene? && e != ServerDropped(c)
    ensures c in Next(w, e).held
  {
    match e
    case LocalPosition(location) => PositionServes(w, location);
    case Frame(joined, retryDue, keepaliveFired) => FrameServes(w, joined, retryDue, keepaliveFired);
    case Arrived(m) => MessageServes(w, m);
    case ServerDropped(_) =>
  }

  // ----- when the server holds at least the window -----

  /** Only a drop by the server takes anything of the window away. */
  lemma NextCoveredIff(w: World, e: Event)
    requires Placed(w) && Covered(w)
    ensures Covered(Next(w, e)) <==> !(e.ServerDropped? && e.chunk in WindowOf(w.player))
  {
    match e
    case EnteredScene(location) => EntryServes(w, location);
    case LocalPosition(location) => PositionServes(w, location);
    case Frame(joined, retryDue, keepaliveFired) => FrameServes(w, joined, retryDue, keepaliveFired);
    case Arrived(m) => MessageServes(w, m);
    case ServerDropped(_) =>
  }

  /** The invalidation that tells of the drop makes the client subscribe the chunk again
      exactly when no snapshot of it is in flight already. */
  lemma InvalidationHealsIff(w: World, c: Chunk)
    requires Placed(w) && Covered(w) && c in WindowOf(w.player)
    ensures Covered(Next(Next(w, ServerDropped(c)), Arrived(Invalidate(c)))) <==> c !in w.aoi.inFlight
  {
    MessageServes(Next(w, ServerDropped(c)), Invalidate(c));
  }

  /** Failing that, the next keepalive restores the window. */
  lemma RenewalRestoresCoverage(w: World, retryDue: bool)
    requires Placed(w) && w.player.Some? && w.aoi.keepaliveTile == w.player
    ensures Covered(Next(w, Frame(true, retryDue, true)))
  {
    FrameServes(w, true, retryDue, true);
  }

  // ----- one resync for each fork -----

  predicate AsksFor(a: Aoi, e: Event, c: Chunk) { e.Arrived? && e.message.chunk == c && Asks(a, e.message) }

  predicate AppliesTo(a: Aoi, e: Event, c: Chunk) { e.Arrived? && e.message.chunk == c && Applies(a, e.message) }

  lemma FlightEnds(w: World, e: Event, c: Chunk)
    ensures c in Next(w, e).aoi.inFlight <==>
      AsksFor(w.aoi, e, c) || (c in w.aoi.inFlight && !AppliesTo(w.aoi, e, c))
  {
  }

  lemma FlightStep(cache: map<Chunk, nat>, events: seq<Event>, c: Chunk, n: nat)
    requires n < |events| && c in Run(cache, events[..n]).aoi.inFlight
    requires !AppliesTo(Run(cache, events[..n]).aoi, events[n], c)
    ensures c in Run(cache, events[..n + 1]).aoi.inFlight
  {
    FlightEnds(Run(cache, events[..n]), events[n], c);
    RunSnoc(cache, events[..n], events[n]);
    assert events[..n + 1] == events[..n] + [events[n]];
  }

  lemma {:induction false} StillInFlight(cache: map<Chunk, nat>, events: seq<Event>, c: Chunk, i: nat, j: nat)
    requires i <= j <= |events| && c in Run(cache, events[..i]).aoi.inFlight
    requires forall k :: i <= k < j ==> !AppliesTo(Run(cache, events[..k]).aoi, events[k], c)
    ensures c in Run(cache, events[..j]).aoi.inFlight
    decreases j - i
  {
    if i < j {
      FlightStep(cache, events, c, i);
      StillInFlight(cache, events, c, i + 1, j);
    }
  }

  /** Main result: between two requests for the same chunk a snapshot or a delta of it has
      been applied, however many deltas fork and invalidations come. */
  lemma {:induction false} OneResyncPerFork(cache: map<Chunk, nat>, events: seq<Event>, c: Chunk, i: nat, j: nat)
    requires i < j < |events|
    requires AsksFor(Run(cache, events[..i]).aoi, events[i], c) && AsksFor(Run(cache, events[..j]).aoi, events[j], c)
    ensures exists k :: i < k < j && AppliesTo(Run(cache, events[..k]).aoi, events[k], c)
  {
    FlightEnds(Run(cache, events[..i]), events[i], c);
    RunSnoc(cache, events[..i], events[i]);
    assert events[..i + 1] == events[..i] + [events[i]];
    if forall k :: i < k < j ==> !AppliesTo(Run(cache, events[..k]).aoi, events[k], c) {
      StillInFlight(cache, events, c, i + 1, j);
      assert false;
    }
  }

  // ----- failing runs -----

  const HOME: Location := (0.0, 0.0, 0.0)
  const AWAY: Location := (160000.0, 0.0, 0.0)

  lemma HomeAndAway()
    ensures (0, 0, 0) in Near(CenterOf(TargetTile(HOME))) && (0, 0, 0) !in Near(CenterOf(TargetTile(AWAY)))
  {
    assert ChunkOf(HOME) == (0, 0, 0) && ChunkOf(AWAY) == (100, 0, 0);
    WindowSeqExact(CenterOf(TargetTile(HOME)));
    WindowSeqExact(CenterOf(TargetTile(AWAY)));
  }

  /** The player is home: the window is subscribed, and nothing has come. */
  lemma AtHome(w: World)
    requires w == Run(map[], [EnteredScene(HOME)])
    ensures Placed(w) && Exact(w) && w.player == Some(TargetTile(HOME)) && w.aoi.inFlight == {} && w.aoi.store == map[]
    ensures (0, 0, 0) in w.held
  {
    AlwaysPlaced(map[], [EnteredScene(HOME)]);
    assert [EnteredScene(HOME)][..0] == [];
    EntryRestoresExactness(Run(map[], []), HOME);
    HomeAndAway();
    assert w.aoi.store == map[] - Elements<Chunk>([]);
  }

  /** Having left, the client holds nothing of the old place and is exact at the new one. */
  lemma LeftHome(w: World, v: World)
    requires w == Run(map[], [EnteredScene(HOME)]) && v == Next(w, LocalPosition(AWAY))
    ensures Placed(v) && Exact(v) && v.aoi.inFlight == {} && v.aoi.store == map[] && (0, 0, 0) !in v.held
    ensures v.player == Some(TargetTile(AWAY))
  {
    AtHome(w);
    NextPlaced(w, LocalPosition(AWAY));
    NextExactIff(w, LocalPosition(AWAY));
    HomeAndAway();
  }

  /** The first failing case: a delta still in flight when its chunk is left behind makes
      the client subscribe the chunk again, and the server holds more than the window. */
  lemma {:induction false} LateDeltaStrays()
    ensures var w := Run(map[], [EnteredScene(HOME)] + [LocalPosition(AWAY)] + [Arrived(Delta((0, 0, 0), 1, 2, true))]);
      !Exact(w) && w.held == WindowOf(w.player) + {(0, 0, 0)}
  {
    var w := Run(map[], [EnteredScene(HOME)]);
    var v := Next(w, LocalPosition(AWAY));
    LeftHome(w, v);
    RunSnoc(map[], [EnteredScene(HOME)], LocalPosition(AWAY));
    RunSnoc(map[], [EnteredScene(HOME)] + [LocalPosition(AWAY)], Arrived(Delta((0, 0, 0), 1, 2, true)));
    MessageServes(v, Delta((0, 0, 0), 1, 2, true));
  }

  /** A delta of a chunk that has not come yet puts the chunk in flight. */
  lemma ForkAtHome(w: World, v: World)
    requires w == Run(map[], [EnteredScene(HOME)]) && v == Next(w, Arrived(Delta((0, 0, 0), 1, 2, true)))
    ensures Placed(v) && Exact(v) && (0, 0, 0) in v.held && (0, 0, 0) in v.aoi.inFlight
  {
    AtHome(w);
    MessageServes(w, Delta((0, 0, 0), 1, 2, true));
  }

  lemma RunThree(cache: map<Chunk, nat>, events: seq<Event>, e: Event, f: Event, g: Event)
    ensures Run(cache, events + [e] + [f] + [g]) == Next(Next(Next(Run(cache, events), e), f), g)
  {
    RunSnoc(cache, events, e);
    RunSnoc(cache, events + [e], f);
    RunSnoc(cache, events + [e] + [f], g);
  }

  /** The second: an invalidation while a snapshot is in flight is not answered, and the
      server holds less than the window. */
  lemma {:induction false} GatedInvalidationLeavesHole()
    ensures var w := Run(map[], [EnteredScene(HOME)] + [Arrived(Delta((0, 0, 0), 1, 2, true))]
                                + [ServerDropped((0, 0, 0))] + [Arrived(Invalidate((0, 0, 0)))]);
      !Covered(w) && w.held == WindowOf(w.player) - {(0, 0, 0)}
  {
    var w := Run(map[], [EnteredScene(HOME)]);
    var fork := Arrived(Delta((0, 0, 0), 1, 2, true));
    ForkAtHome(w, Next(w, fork));
    RunThree(map[], [EnteredScene(HOME)], fork, ServerDropped((0, 0, 0)), Arrived(Invalidate((0, 0, 0))));
  }

  // ----- the object -----

  class VoxelWindow {
    var center: Option<Chunk>
    var tile: Option<Tile>
    var store: map<Chunk, nat>
    var attempts: nat
    var keepaliveTile: Option<Tile>
    var inFlight: set<Chunk>
    var sent: seq<Command>  // what went over the bridge, in order

    constructor (cache: map<Chunk, nat>)
      ensures View() == Started(cache) && sent == []
    {
      center, tile, store, attempts, keepaliveTile, inFlight, sent := None, None, cache, 0, None, {}, [];
    }

    function View(): Aoi
      reads this
    {
      Aoi(center, tile, store, attempts, keepaliveTile, inFlight)
    }

    ghost predicate Did(s: Sent, before: seq<Command>)
      reads this
    {
      View() == s.aoi && sent == before + s.commands
    }

    method SendWindowSubscription(c: Chunk)
      modifies this`sent
      ensures sent == old(sent) + [SubscribeChunks(c, Known(store, c))]
    {
      var known := KnownVersions(store, c);
      sent := sent + [SubscribeChunks(c, known)];
    }

    method Recenter(newTile: Tile, newCenter: Chunk)
      modifies this
      ensures Did(SubscribeAround(old(View()), newTile, newCenter), old(sent))
    {
      SendWindowSubscription(newCenter);
      DropOutside(newCenter);
      center := Some(newCenter);
      tile := Some(newTile);
    }

    method DropOutside(newCenter: Chunk)
      modifies this`store, this`sent
      ensures store == old(store) - Elements(Dropped(center, newCenter))
      ensures sent == old(sent) + Farewell(Dropped(center, newCenter))
    {
      if center.Some? && center.value != newCenter {
        var dropped := ChunksFallingOut(center.value, newCenter);
        if dropped != [] {
          Evict(dropped);
          sent := sent + [UnsubscribeChunks(dropped)];
        }
      }
    }

    method Evict(dropped: seq<Chunk>)
      modifies this`store
      ensures store == old(store) - Elements(dropped)
    {
      for i := 0 to |dropped|
        invariant store == old(store) - Elements(dropped[..i])
      {
        assert Elements(dropped[..i + 1]) == Elements(dropped[..i]) + {dropped[i]} by {
          assert dropped[..i + 1] == dropped[..i] + [dropped[i]];
        }
        store := store - {dropped[i]};
      }
      assert dropped[..|dropped|] == dropped;
    }

    method Enter(location: Location)
      modifies this
      ensures Did(OnEnter(old(View()), location), old(sent))
    {
      center, tile, keepaliveTile := None, None, None;
      Recenter(TargetTile(location), CenterOf(TargetTile(location)));
    }

    method Move(location: Location)
      modifies this
      ensures Did(OnPosition(old(View()), location), old(sent))
    {
      var t := TargetTile(location);
      if tile != Some(t) {
        Recenter(t, CenterOf(t));
      }
    }

    method TickKeepalive(t: Tile, fired: bool) returns (due: bool)
      modifies this`keepaliveTile
      ensures due == (old(keepaliveTile) == Some(t) && fired) && keepaliveTile == Some(t)
    {
      if keepaliveTile != Some(t) {
        keepaliveTile := Some(t);
        return false;
      }
      due := fired;
    }

    method RetryFrame(joined: bool, retryDue: bool, keepaliveFired: bool)
      modifies this
      ensures Did(OnFrame(old(View()), joined, retryDue, keepaliveFired), old(sent))
    {
      if tile == None || center == None {
        keepaliveTile := None;
        return;
      }
      if !joined {
        return;
      }
      var renew := TickKeepalive(tile.value, keepaliveFired);
      if renew {
        SendWindowSubscription(center.value);
      }
      if !retryDue {
        return;
      }
      if |store| > 0 {
        attempts := 0;
        return;
      }
      if renew || attempts >= MAX_SUBSCRIBE_RETRIES {
        return;
      }
      attempts := attempts + 1;
      Recenter(tile.value, center.value);
    }

    /** Applies one chunk message; the chunk is returned when it needs a fresh snapshot. */
    method IngestOne(m: Message) returns (resync: Option<Chunk>)
      modifies this`store, this`inFlight
      ensures View() == Ingested(old(View()), m)
      ensures resync == if Asks(old(View()), m) then Some(m.chunk) else None
    {
      resync := None;
      match m
      case Snapshot(c, version, wellFormed) =>
        if wellFormed {
          store := store[c := version];
          inFlight := inFlight - {c};
        }
      case Delta(c, base, version, wellFormed) =>
        if c !in store || store[c] != base {
          if c !in inFlight {
            inFlight := inFlight + {c};
            resync := Some(c);
          }
        } else if wellFormed {
          store := store[c := version];
          inFlight := inFlight - {c};
        }
      case Invalidate(c) =>
        store := store - {c};
        if c !in inFlight {
          inFlight := inFlight + {c};
          resync := Some(c);
        }
    }

    /** Drains the inbox, then asks once for each chunk that needs it, in order. */
    method IngestAll(inbox: seq<Message>)
      modifies this
      ensures View() == Drained(old(View()), inbox)
      ensures sent == old(sent) + Resyncs(Sorted(RequestedBy(old(View()), inbox)))
    {
      var requests: set<Chunk> := {};
      for i := 0 to |inbox|
        invariant View() == Drained(old(View()), inbox[..i]) && requests == RequestedBy(old(View()), inbox[..i])
        invariant sent == old(sent)
      {
        assert inbox[..i + 1][..i] == inbox[..i];
        var resync := IngestOne(inbox[i]);
        if resync.Some? {
          requests := requests + {resync.value};
        }
      }
      assert inbox[..|inbox|] == inbox;
      var sorted := SortKeys(requests);
      sent := sent + Resyncs(sorted);
    }
  }

  // ----- a drained inbox is its messages one by one -----

  function Drained(a: Aoi, inbox: seq<Message>): Aoi {
    if inbox == [] then a else Ingested(Drained(a, inbox[..|inbox| - 1]), inbox[|inbox| - 1])
  }

  function RequestedBy(a: Aoi, inbox: seq<Message>): set<Chunk> {
    if inbox == [] then {}
    else
      var before := inbox[..|inbox| - 1];
      RequestedBy(a, before) + Requested(Drained(a, before), inbox[|inbox| - 1])
  }

  lemma {:induction false} ResyncsServe(held: set<Chunk>, chunks: seq<Chunk>)
    ensures Serve(held, Resyncs(chunks)) == held + Elements(chunks)
  {
    if chunks != [] {
      var n := |chunks| - 1;
      ResyncsServe(held, chunks[..n]);
      assert Resyncs(chunks)[..n] == Resyncs(chunks[..n]);
      assert chunks == chunks[..n] + [chunks[n]];
    }
  }

  ghost function Arrivals(w: World, inbox: seq<Message>): World {
    if inbox == [] then w else Next(Arrivals(w, inbox[..|inbox| - 1]), Arrived(inbox[|inbox| - 1]))
  }

  lemma {:induction false} ArrivalsServe(w: World, inbox: seq<Message>)
    ensures Arrivals(w, inbox) == World(Drained(w.aoi, inbox), w.held + RequestedBy(w.aoi, inbox), w.player)
  {
    if inbox != [] {
      var n := |inbox| - 1;
      ArrivalsServe(w, inbox[..n]);
      MessageServes(Arrivals(w, inbox[..n]), inbox[n]);
    }
  }

  /** Asking once at the end, sorted and without repetition, leaves the client and the
      server where asking message by message would. */
  lemma {:induction false} InboxIsItsMessages(w: World, inbox: seq<Message>)
    ensures Arrivals(w, inbox) ==
      World(Drained(w.aoi, inbox), Serve(w.held, Resyncs(Sorted(RequestedBy(w.aoi, inbox)))), w.player)
  {
    var requests := RequestedBy(w.aoi, inbox);
    ArrivalsServe(w, inbox);
    ResyncsServe(w.held, Sorted(requests));
    SortedExact(requests);
    assert Elements(Sorted(requests)) == requests;
  }
}
