/** Geometry of the XYZ area-of-interest window, over all integers. */
module Window {
  import opened Common

  type Chunk = (int, int, int)
  type Tile = (int, int, int)

  const TILE_SIZE: int := 7
  const RADIUS: int := 10
  const EDGE: nat := 21
  const COUNT: nat := 9261
  const CHUNK_WORLD_SIZE: real := 1600.0
  const I32_MIN: int := -0x8000_0000
  const I32_MAX: int := 0x7fff_ffff

  /** A floating-point to i32 cast saturates. */
  function ToI32(n: int): int {
    if n < I32_MIN then I32_MIN else if n > I32_MAX then I32_MAX else n
  }

  /** Server axes (x, y, z) map to chunk axes (x, z, y). */
  function ChunkOf(location: (real, real, real)): Chunk {
    (ToI32((location.0 / CHUNK_WORLD_SIZE).Floor),
     ToI32((location.2 / CHUNK_WORLD_SIZE).Floor),
     ToI32((location.1 / CHUNK_WORLD_SIZE).Floor))
  }

  /** Dafny's division is Euclidean, as `div_euclid` is. */
  function TileOf(c: Chunk): Tile { (c.0 / TILE_SIZE, c.1 / TILE_SIZE, c.2 / TILE_SIZE) }

  function CenterOf(t: Tile): Chunk {
    (t.0 * TILE_SIZE + TILE_SIZE / 2, t.1 * TILE_SIZE + TILE_SIZE / 2, t.2 * TILE_SIZE + TILE_SIZE / 2)
  }

  function Abs(n: int): nat { if n < 0 then -n else n }

  predicate InWindow(c: Chunk, center: Chunk) {
    Abs(c.0 - center.0) <= RADIUS && Abs(c.1 - center.1) <= RADIUS && Abs(c.2 - center.2) <= RADIUS
  }

  predicate Neighbours(a: Tile, b: Tile) {
    Abs(a.0 - b.0) <= 1 && Abs(a.1 - b.1) <= 1 && Abs(a.2 - b.2) <= 1
  }

  /** The window around a tile's centre is exactly the 27 tiles around that tile. */
  lemma WindowIsTileNeighbourhood(c: Chunk, t: Tile)
    ensures InWindow(c, CenterOf(t)) <==> Neighbours(TileOf(c), t)
    ensures TileOf(CenterOf(t)) == t
  {
  }

  /** For an i32 chunk coordinate, every bound the window arithmetic computes on that
      axis stays an i32 exactly on this range. */
  lemma WindowFitsI32(c: int)
    requires I32_MIN <= c <= I32_MAX
    ensures var center := c / TILE_SIZE * TILE_SIZE + TILE_SIZE / 2;
      (I32_MIN <= center - RADIUS && center + RADIUS <= I32_MAX) <==> I32_MIN + 9 <= c <= I32_MAX - 9
  {
  }

  // ----- the enumeration -----

  function Nth(center: Chunk, i: nat): Chunk {
    (center.0 - RADIUS + i / 441, center.1 - RADIUS + i / 21 % 21, center.2 - RADIUS + i % 21)
  }

  function WindowSeq(center: Chunk): seq<Chunk> {
    seq(COUNT, i requires 0 <= i < COUNT => Nth(center, i))
  }

  lemma Digits(a: nat, b: nat, c: nat)
    requires b < 21 && c < 21
    ensures var i := 441 * a + 21 * b + c; i / 441 == a && i / 21 % 21 == b && i % 21 == c
  {
  }

  /** The enumeration lists every window chunk, only window chunks, none twice. */
  lemma WindowSeqExact(center: Chunk)
    ensures |WindowSeq(center)| == COUNT
    ensures forall c :: c in WindowSeq(center) <==> InWindow(c, center)
    ensures forall i, j :: 0 <= i < j < COUNT ==> WindowSeq(center)[i] != WindowSeq(center)[j]
  {
    var w := WindowSeq(center);
    forall c
      ensures c in w <==> InWindow(c, center)
    {
      if InWindow(c, center) {
        var x, y, z := c.0 - center.0 + RADIUS, c.1 - center.1 + RADIUS, c.2 - center.2 + RADIUS;
        Digits(x, y, z);
        assert w[441 * x + 21 * y + z] == c;
      }
      if c in w {
        var i :| 0 <= i < COUNT && w[i] == c;
        IndexInRange(i);
      }
    }
    forall i, j | 0 <= i < j < COUNT
      ensures w[i] != w[j]
    {
      IndexInRange(i);
      IndexInRange(j);
    }
  }

  lemma IndexInRange(i: nat)
    requires i < COUNT
    ensures i / 441 < 21 && i == 441 * (i / 441) + 21 * (i / 21 % 21) + i % 21
  {
  }

  method NearWindowChunks(center: Chunk) returns (chunks: seq<Chunk>)
    ensures chunks == WindowSeq(center)
  {
    chunks := [];
    for cx := center.0 - RADIUS to center.0 + RADIUS + 1
      invariant |chunks| == 441 * (cx - (center.0 - RADIUS))
      invariant forall k :: 0 <= k < |chunks| ==> chunks[k] == Nth(center, k)
    {
      for cy := center.1 - RADIUS to center.1 + RADIUS + 1
        invariant |chunks| == 441 * (cx - (center.0 - RADIUS)) + 21 * (cy - (center.1 - RADIUS))
        invariant forall k :: 0 <= k < |chunks| ==> chunks[k] == Nth(center, k)
      {
        for cz := center.2 - RADIUS to center.2 + RADIUS + 1
          invariant |chunks| ==
            441 * (cx - (center.0 - RADIUS)) + 21 * (cy - (center.1 - RADIUS)) + (cz - (center.2 - RADIUS))
          invariant forall k :: 0 <= k < |chunks| ==> chunks[k] == Nth(center, k)
        {
          Digits(cx - (center.0 - RADIUS), cy - (center.1 - RADIUS), cz - (center.2 - RADIUS));
          chunks := chunks + [(cx, cy, cz)];
        }
      }
    }
  }

  // ----- what falls out -----

  function Outside(chunks: seq<Chunk>, to: Chunk): seq<Chunk> {
    if chunks == [] then []
    else
      var last := chunks[|chunks| - 1];
      Outside(chunks[..|chunks| - 1], to) + if InWindow(last, to) then [] else [last]
  }

  function FallingOut(from: Chunk, to: Chunk): seq<Chunk> { Outside(WindowSeq(from), to) }

  method ChunksFallingOut(from: Chunk, to: Chunk) returns (dropped: seq<Chunk>)
    ensures dropped == FallingOut(from, to)
  {
    var chunks := NearWindowChunks(from);
    dropped := [];
    for i := 0 to |chunks|
      invariant dropped == Outside(chunks[..i], to)
    {
      assert chunks[..i + 1][..i] == chunks[..i];
      if !InWindow(chunks[i], to) {
        dropped := dropped + [chunks[i]];
      }
    }
    assert chunks[..|chunks|] == chunks;
  }

  predicate Distinct<T(==)>(s: seq<T>) {
    forall i, j :: 0 <= i < j < |s| ==> s[i] != s[j]
  }

  lemma {:induction false} OutsideExact(chunks: seq<Chunk>, to: Chunk)
    requires Distinct(chunks)
    ensures Distinct(Outside(chunks, to))
    ensures forall c :: c in Outside(chunks, to) <==> c in chunks && !InWindow(c, to)
  {
    if chunks != [] {
      var n := |chunks| - 1;
      OutsideExact(chunks[..n], to);
      assert chunks == chunks[..n] + [chunks[n]];
      assert chunks[n] !in chunks[..n];
    }
  }

  // ----- counting -----

  function Elements<T>(s: seq<T>): set<T> { set x | x in s }

  lemma {:induction false} DistinctCount<T>(s: seq<T>)
    requires Distinct(s)
    ensures |Elements(s)| == |s|
  {
    if s != [] {
      var n := |s| - 1;
      DistinctCount(s[..n]);
      assert s == s[..n] + [s[n]];
      assert Elements(s) == Elements(s[..n]) + {s[n]};
      assert s[n] !in s[..n];
    }
  }

  // Boxes of chunks with half-open bounds, built one layer at a time.

  ghost function Row(x: int, y: int, lo: int, hi: int): set<Chunk>
    decreases hi - lo
  {
    if hi <= lo then {} else Row(x, y, lo, hi - 1) + {(x, y, hi - 1)}
  }

  ghost function Slab(x: int, lo: int, hi: int, zlo: int, zhi: int): set<Chunk>
    decreases hi - lo
  {
    if hi <= lo then {} else Slab(x, lo, hi - 1, zlo, zhi) + Row(x, hi - 1, zlo, zhi)
  }

  ghost function Box(lo: int, hi: int, ylo: int, yhi: int, zlo: int, zhi: int): set<Chunk>
    decreases hi - lo
  {
    if hi <= lo then {} else Box(lo, hi - 1, ylo, yhi, zlo, zhi) + Slab(hi - 1, ylo, yhi, zlo, zhi)
  }

  lemma {:induction false} RowExact(x: int, y: int, lo: int, hi: int)
    ensures forall c :: c in Row(x, y, lo, hi) <==> c.0 == x && c.1 == y && lo <= c.2 < hi
    ensures |Row(x, y, lo, hi)| == Max(0, hi - lo)
    decreases hi - lo
  {
    if lo < hi {
      RowExact(x, y, lo, hi - 1);
    }
  }

  lemma {:induction false} SlabExact(x: int, lo: int, hi: int, zlo: int, zhi: int)
    ensures forall c :: c in Slab(x, lo, hi, zlo, zhi) <==> c.0 == x && lo <= c.1 < hi && zlo <= c.2 < zhi
    ensures |Slab(x, lo, hi, zlo, zhi)| == Max(0, hi - lo) * Max(0, zhi - zlo)
    decreases hi - lo
  {
    if lo < hi {
      SlabExact(x, lo, hi - 1, zlo, zhi);
      RowExact(x, hi - 1, zlo, zhi);
      assert Slab(x, lo, hi - 1, zlo, zhi) !! Row(x, hi - 1, zlo, zhi);
      var depth := Max(0, zhi - zlo);
      assert (hi - lo) * depth == (hi - lo - 1) * depth + depth;
    }
  }

  lemma {:induction false} BoxExact(lo: int, hi: int, ylo: int, yhi: int, zlo: int, zhi: int)
    ensures forall c :: c in Box(lo, hi, ylo, yhi, zlo, zhi) <==> lo <= c.0 < hi && ylo <= c.1 < yhi && zlo <= c.2 < zhi
    ensures |Box(lo, hi, ylo, yhi, zlo, zhi)| == Max(0, hi - lo) * (Max(0, yhi - ylo) * Max(0, zhi - zlo))
    decreases hi - lo
  {
    if lo < hi {
      BoxExact(lo, hi - 1, ylo, yhi, zlo, zhi);
      SlabExact(hi - 1, ylo, yhi, zlo, zhi);
      assert Box(lo, hi - 1, ylo, yhi, zlo, zhi) !! Slab(hi - 1, ylo, yhi, zlo, zhi);
      var area := Max(0, yhi - ylo) * Max(0, zhi - zlo);
      assert (hi - lo) * area == (hi - lo - 1) * area + area;
    }
  }

  /** How many coordinates two windows share on one axis. */
  function Overlap(a: int, b: int): nat { Max(0, EDGE - Abs(a - b)) }

  function SharedCount(from: Chunk, to: Chunk): int {
    Overlap(from.0, to.0) * (Overlap(from.1, to.1) * Overlap(from.2, to.2))
  }

  function Lo(a: int, b: int): int { Max(a, b) - RADIUS }

  function Hi(a: int, b: int): int { Min(a, b) + RADIUS + 1 }

  ghost function Shared(from: Chunk, to: Chunk): set<Chunk> {
    Box(Lo(from.0, to.0), Hi(from.0, to.0), Lo(from.1, to.1), Hi(from.1, to.1), Lo(from.2, to.2), Hi(from.2, to.2))
  }

  lemma OverlapIsSpan(a: int, b: int)
    ensures Max(0, Hi(a, b) - Lo(a, b)) == Overlap(a, b)
  {
  }

  lemma SharedCounted(from: Chunk, to: Chunk)
    ensures |Shared(from, to)| == SharedCount(from, to)
  {
    BoxExact(Lo(from.0, to.0), Hi(from.0, to.0), Lo(from.1, to.1), Hi(from.1, to.1), Lo(from.2, to.2),
             Hi(from.2, to.2));
    OverlapIsSpan(from.0, to.0);
    OverlapIsSpan(from.1, to.1);
    OverlapIsSpan(from.2, to.2);
  }

  lemma SharedExact(from: Chunk, to: Chunk)
    ensures forall c :: c in Shared(from, to) <==> InWindow(c, from) && InWindow(c, to)
  {
    BoxExact(Lo(from.0, to.0), Hi(from.0, to.0), Lo(from.1, to.1), Hi(from.1, to.1), Lo(from.2, to.2),
             Hi(from.2, to.2));
  }

  ghost function Near(center: Chunk): set<Chunk> { Elements(WindowSeq(center)) }

  /** Main result: what falls out is exactly the set difference of the two windows,
      each chunk once, and its size is the closed form the log line relies on. */
  lemma FallingOutExact(from: Chunk, to: Chunk)
    ensures Distinct(FallingOut(from, to))
    ensures Elements(FallingOut(from, to)) == Near(from) - Near(to)
    ensures |FallingOut(from, to)| == COUNT - SharedCount(from, to)
  {
    WindowSeqExact(from);
    WindowSeqExact(to);
    OutsideExact(WindowSeq(from), to);
    SharedExact(from, to);
    SharedCounted(from, to);
    DistinctCount(WindowSeq(from));
    DistinctCount(FallingOut(from, to));
    assert Near(from) == Elements(FallingOut(from, to)) + Shared(from, to);
    assert Elements(FallingOut(from, to)) !! Shared(from, to);
  }

  /** The log's entered and exited counts agree: as many chunks enter as leave. */
  lemma EnteredEqualsExited(from: Chunk, to: Chunk)
    ensures |FallingOut(from, to)| == |FallingOut(to, from)|
    ensures from != to <==> FallingOut(from, to) != []
  {
    FallingOutExact(from, to);
    FallingOutExact(to, from);
    if from != to {
      WindowSeqExact(from);
      WindowSeqExact(to);
      var corner := (if from.0 >= to.0 then from.0 + RADIUS else from.0 - RADIUS,
                     if from.1 >= to.1 then from.1 + RADIUS else from.1 - RADIUS,
                     if from.2 >= to.2 then from.2 + RADIUS else from.2 - RADIUS);
      assert corner in Near(from) && corner !in Near(to);
      assert corner in Elements(FallingOut(from, to));
    }
  }

  // ----- the known versions of a subscription -----

  predicate LexLeq(a: Chunk, b: Chunk) {
    a.0 < b.0 || (a.0 == b.0 && (a.1 < b.1 || (a.1 == b.1 && a.2 <= b.2)))
  }

  predicate IsLeast(c: Chunk, keys: set<Chunk>) {
    c in keys && forall d :: d in keys ==> LexLeq(c, d)
  }

  lemma {:induction false} LeastExists(keys: set<Chunk>)
    requires keys != {}
    ensures exists c :: IsLeast(c, keys)
  {
    var first :| first in keys;
    var rest := keys - {first};
    assert keys == rest + {first};
    if rest == {} {
      assert IsLeast(first, keys);
    } else {
      LeastExists(rest);
      var c :| IsLeast(c, rest);
      var least := if LexLeq(first, c) then first else c;
      forall d | d in keys
        ensures LexLeq(least, d)
      {
        assert d != first ==> LexLeq(c, d);
      }
      assert IsLeast(least, keys);
    }
  }

  ghost function Least(keys: set<Chunk>): Chunk
    requires keys != {}
    ensures IsLeast(Least(keys), keys)
  {
    LeastExists(keys);
    var c :| IsLeast(c, keys);
    c
  }

  lemma LeastUnique(c: Chunk, d: Chunk, keys: set<Chunk>)
    requires IsLeast(c, keys) && IsLeast(d, keys)
    ensures c == d
  {
  }

  ghost function Sorted(keys: set<Chunk>): seq<Chunk>
    ensures |Sorted(keys)| == |keys|
  {
    if keys == {} then [] else [Least(keys)] + Sorted(keys - {Least(keys)})
  }

  lemma {:induction false} SortedExact(keys: set<Chunk>)
    ensures forall c :: c in Sorted(keys) <==> c in keys
    ensures forall i, j :: 0 <= i < j < |Sorted(keys)| ==> LexLeq(Sorted(keys)[i], Sorted(keys)[j])
  {
    if keys != {} {
      SortedExact(keys - {Least(keys)});
    }
  }

  function WindowKeys(store: map<Chunk, nat>, center: Chunk): set<Chunk> {
    set c | c in store && InWindow(c, center)
  }

  /** A store keyed by chunk cannot hold more than 9261 chunks of one window, so the
      protocol limit on known versions never cuts anything off. */
  lemma WindowKeysBounded(store: map<Chunk, nat>, center: Chunk)
    ensures |WindowKeys(store, center)| <= COUNT
  {
    WindowSeqExact(center);
    DistinctCount(WindowSeq(center));
    SubsetCount(WindowKeys(store, center), Near(center));
  }

  lemma SubsetCount<T>(a: set<T>, b: set<T>)
    requires a <= b
    ensures |a| <= |b|
  {
    assert b == a + (b - a);
  }

  method SortKeys(keys: set<Chunk>) returns (sorted: seq<Chunk>)
    ensures sorted == Sorted(keys)
  {
    var rest := keys;
    sorted := [];
    while rest != {}
      invariant Sorted(keys) == sorted + Sorted(rest)
      decreases rest
    {
      var c :| c in rest && forall d :: d in rest ==> LexLeq(c, d);
      LeastUnique(c, Least(rest), rest);
      assert sorted + Sorted(rest) == sorted + [c] + Sorted(rest - {c});
      sorted := sorted + [c];
      rest := rest - {c};
    }
  }

  /** The known versions a subscription sends. */
  ghost function Known(store: map<Chunk, nat>, center: Chunk): seq<(Chunk, nat)> {
    var keys := Sorted(WindowKeys(store, center));
    seq(|keys|, i requires 0 <= i < |keys| => (keys[i], if keys[i] in store then store[keys[i]] else 0))
  }

  lemma KnownEntry(store: map<Chunk, nat>, center: Chunk, i: nat)
    requires i < |Known(store, center)|
    ensures Known(store, center)[i].0 == Sorted(WindowKeys(store, center))[i]
    ensures Known(store, center)[i].0 in WindowKeys(store, center)
    ensures Known(store, center)[i].1 == store[Known(store, center)[i].0]
  {
    SortedExact(WindowKeys(store, center));
    assert Sorted(WindowKeys(store, center))[i] in Sorted(WindowKeys(store, center));
  }

  /** They are the stored chunks of the window, all of them, each with its stored
      version, and within the protocol limit. */
  lemma KnownExact(store: map<Chunk, nat>, center: Chunk)
    ensures |Known(store, center)| <= COUNT
    ensures forall k :: k in Known(store, center) ==> k.0 in WindowKeys(store, center) && k.1 == store[k.0]
    ensures forall c :: c in WindowKeys(store, center) ==> (c, store[c]) in Known(store, center)
  {
    var keys := WindowKeys(store, center);
    WindowKeysBounded(store, center);
    SortedExact(keys);
    forall k | k in Known(store, center)
      ensures k.0 in keys && k.1 == store[k.0]
    {
      var i :| 0 <= i < |Known(store, center)| && Known(store, center)[i] == k;
      KnownEntry(store, center, i);
    }
    forall c | c in keys
      ensures (c, store[c]) in Known(store, center)
    {
      var i :| 0 <= i < |Sorted(keys)| && Sorted(keys)[i] == c;
      assert Known(store, center)[i] == (c, store[c]);
    }
  }

  lemma KnownSorted(store: map<Chunk, nat>, center: Chunk, i: nat, j: nat)
    requires i < j < |Known(store, center)|
    ensures LexLeq(Known(store, center)[i].0, Known(store, center)[j].0)
  {
    SortedExact(WindowKeys(store, center));
  }

  method KnownVersions(store: map<Chunk, nat>, center: Chunk) returns (known: seq<(Chunk, nat)>)
    ensures known == Known(store, center)
  {
    var sorted := SortKeys(WindowKeys(store, center));
    SortedExact(WindowKeys(store, center));
    forall i | 0 <= i < |sorted|
      ensures sorted[i] in store
    {
      assert sorted[i] in Sorted(WindowKeys(store, center));
    }
    known := seq(|sorted|, i requires 0 <= i < |sorted| => (sorted[i], store[sorted[i]]));
    WindowKeysBounded(store, center);
    known := known[..Min(|known|, COUNT)];
  }
}
