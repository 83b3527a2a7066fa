/** Where the player stands: the chunk that contains a location, and the terrain around
    the player that the subscription covers. */
module Standing {
  import opened Common
  import opened Window
  import opened Subscription

  /** A chunk's share of one axis of the world, in server units. */
  predicate OnAxis(c: int, x: real) { c as real * CHUNK_WORLD_SIZE <= x < (c + 1) as real * CHUNK_WORLD_SIZE }

  /** The cube of a chunk contains the location: chunk axis 1 is up, which is server axis 2. */
  predicate Contains(c: Chunk, l: Location) { OnAxis(c.0, l.0) && OnAxis(c.1, l.2) && OnAxis(c.2, l.1) }

  predicate I32Axis(x: real) {
    I32_MIN as real * CHUNK_WORLD_SIZE <= x < (I32_MAX + 1) as real * CHUNK_WORLD_SIZE
  }

  /** The world that chunk coordinates can name. */
  predicate InWorld(l: Location) { I32Axis(l.0) && I32Axis(l.1) && I32Axis(l.2) }

  /** Of a chunk coordinate: the slice the axis value lies in, or else the nearest one. */
  predicate Nearest(c: int, x: real) {
    && I32_MIN <= c <= I32_MAX
    && (x < I32_MIN as real * CHUNK_WORLD_SIZE ==> c == I32_MIN)
    && (x >= (I32_MAX + 1) as real * CHUNK_WORLD_SIZE ==> c == I32_MAX)
    && (I32Axis(x) ==> OnAxis(c, x))
  }

  lemma AxisExact(x: real)
    ensures Nearest(ToI32((x / CHUNK_WORLD_SIZE).Floor), x)
  {
    var q := x / CHUNK_WORLD_SIZE;
    assert q * CHUNK_WORLD_SIZE == x;
    var n := q.Floor;
    assert n as real <= q < (n + 1) as real;
  }

  lemma AxisUnique(c: int, d: int, x: real)
    requires OnAxis(c, x) && OnAxis(d, x)
    ensures c == d
  {
    assert c < d ==> (c + 1) as real <= d as real;
    assert d < c ==> (d + 1) as real <= c as real;
  }

  /** Main result: within the world the chunk of a location is the one chunk whose cube,
      on the axes (x, z, y), contains it; outside, the nearest one on each axis. */
  lemma ChunkOfExact(l: Location, c: Chunk)
    ensures InWorld(l) ==> (Contains(c, l) <==> c == ChunkOf(l))
    ensures Nearest(ChunkOf(l).0, l.0) && Nearest(ChunkOf(l).1, l.2) && Nearest(ChunkOf(l).2, l.1)
  {
    AxisExact(l.0);
    AxisExact(l.1);
    AxisExact(l.2);
    if InWorld(l) && Contains(c, l) {
      AxisUnique(c.0, ChunkOf(l).0, l.0);
      AxisUnique(c.1, ChunkOf(l).1, l.2);
      AxisUnique(c.2, ChunkOf(l).2, l.1);
    }
  }

  // ----- the terrain around the player -----

  /** A tile's edge in server units: what is this near lies in the same or the next tile. */
  const REACH: real := 11200.0

  predicate Within(x: real, y: real) { x - y <= REACH && y - x <= REACH }

  predicate Close(a: Location, b: Location) { Within(a.0, b.0) && Within(a.1, b.1) && Within(a.2, b.2) }

  lemma CloseChunks(c: int, d: int, x: real, y: real)
    requires OnAxis(c, x) && OnAxis(d, y) && Within(x, y)
    ensures -7 <= c - d <= 7
  {
    assert c - d > 7 ==> c as real >= (d + 8) as real;
    assert d - c > 7 ==> d as real >= (c + 8) as real;
  }

  lemma CloseTiles(c: int, d: int)
    requires -7 <= c - d <= 7
    ensures Abs(c / TILE_SIZE - d / TILE_SIZE) <= 1
  {
  }

  /** Where the last scene entry or position update put the player. */
  function Whereabouts(events: seq<Event>): Option<Location> {
    if events == [] then None
    else
      var e := events[|events| - 1];
      if e.EnteredScene? || e.LocalPosition? then Some(e.location) else Whereabouts(events[..|events| - 1])
  }

  lemma {:induction false} PlayerIsThere(cache: map<Chunk, nat>, events: seq<Event>)
    ensures Run(cache, events).player ==
      if Whereabouts(events).Some? then Some(TileOf(ChunkOf(Whereabouts(events).value))) else None
  {
    if events != [] {
      PlayerIsThere(cache, events[..|events| - 1]);
    }
  }

  lemma SurroundingsInWindow(player: Location, l: Location, c: Chunk)
    requires InWorld(player) && InWorld(l) && Close(l, player) && Contains(c, l)
    ensures c in WindowOf(Some(TileOf(ChunkOf(player))))
  {
    var p := ChunkOf(player);
    ChunkOfExact(player, p);
    CloseChunks(c.0, p.0, l.0, player.0);
    CloseChunks(c.1, p.1, l.2, player.2);
    CloseChunks(c.2, p.2, l.1, player.1);
    CloseTiles(c.0, p.0);
    CloseTiles(c.1, p.1);
    CloseTiles(c.2, p.2);
    WindowIsNeighbourhood(TileOf(p), c);
  }

  /** Main result: after any run whose subscription covers the window, the server holds
      every chunk that contains a place within 11200 units of the player on every axis,
      the player's own included. */
  lemma {:induction false} SurroundingsHeld(cache: map<Chunk, nat>, events: seq<Event>, l: Location, c: Chunk)
    requires Whereabouts(events).Some? && InWorld(Whereabouts(events).value) && InWorld(l)
    requires Close(l, Whereabouts(events).value) && Contains(c, l)
    requires Covered(Run(cache, events))
    ensures c in Run(cache, events).held
  {
    PlayerIsThere(cache, events);
    SurroundingsInWindow(Whereabouts(events).value, l, c);
  }
}
