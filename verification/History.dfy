/** Bounded replay histories: the input frames sent and the states predicted. */
module History {
  import opened Common

  const U64_MAX: nat := 0xffff_ffff_ffff_ffff

  datatype Frame = Frame(seqNo: nat, tick: nat, input: nat)

  // ----- the two ways of dropping from an end -----

  function PopFrontWhile<T>(s: seq<T>, p: T -> bool): seq<T> {
    if s != [] && p(s[0]) then PopFrontWhile(s[1..], p) else s
  }

  function PopBackWhile<T>(s: seq<T>, p: T -> bool): seq<T> {
    if s != [] && p(s[|s| - 1]) then PopBackWhile(s[..|s| - 1], p) else s
  }

  function Without<T>(s: seq<T>, p: T -> bool): seq<T> {
    if s == [] then [] else (if p(s[0]) then [] else [s[0]]) + Without(s[1..], p)
  }

  lemma {:induction false} WithoutShorter<T>(s: seq<T>, p: T -> bool)
    ensures |Without(s, p)| <= |s|
    ensures Without(s, p) == s <==> forall x :: x in s ==> !p(x)
  {
    if s != [] {
      WithoutShorter(s[1..], p);
      if p(s[0]) {
        assert |Without(s, p)| < |s|;
      } else {
        assert s == [s[0]] + s[1..];
        assert Without(s, p)[1..] == Without(s[1..], p);
      }
    }
  }

  lemma {:induction false} WithoutSnoc<T>(s: seq<T>, x: T, p: T -> bool)
    ensures Without(s + [x], p) == Without(s, p) + if p(x) then [] else [x]
  {
    if s != [] {
      assert (s + [x])[1..] == s[1..] + [x];
      WithoutSnoc(s[1..], x, p);
    }
  }

  /** No element to keep stands before one to drop. */
  predicate DropsComeFirst<T>(s: seq<T>, p: T -> bool) {
    forall i, j :: 0 <= i < j < |s| && p(s[j]) ==> p(s[i])
  }

  predicate DropsComeLast<T>(s: seq<T>, p: T -> bool) {
    forall i, j :: 0 <= i < j < |s| && p(s[i]) ==> p(s[j])
  }

  /** Main result: popping a prefix equals filtering exactly when the drops come first. */
  lemma {:induction false} PrefixPopIsFilterIff<T>(s: seq<T>, p: T -> bool)
    ensures PopFrontWhile(s, p) == Without(s, p) <==> DropsComeFirst(s, p)
  {
    if s != [] {
      if p(s[0]) {
        PrefixPopIsFilterIff(s[1..], p);
        assert DropsComeFirst(s, p) <==> DropsComeFirst(s[1..], p) by {
          assert forall i :: 0 < i < |s| ==> s[i] == s[1..][i - 1];
        }
      } else {
        WithoutShorter(s, p);
        if DropsComeFirst(s, p) {
          forall x | x in s
            ensures !p(x)
          {
            var j :| 0 <= j < |s| && s[j] == x;
          }
        }
      }
    }
  }

  /** And popping a suffix equals filtering exactly when the drops come last. */
  lemma {:induction false} SuffixPopIsFilterIff<T>(s: seq<T>, p: T -> bool)
    ensures PopBackWhile(s, p) == Without(s, p) <==> DropsComeLast(s, p)
  {
    if s != [] {
      var n := |s| - 1;
      if p(s[n]) {
        SuffixPopIsFilterIff(s[..n], p);
        assert s == s[..n] + [s[n]];
        WithoutSnoc(s[..n], s[n], p);
        assert DropsComeLast(s, p) <==> DropsComeLast(s[..n], p) by {
          assert forall i :: 0 <= i < n ==> s[i] == s[..n][i];
        }
      } else {
        WithoutShorter(s, p);
        if DropsComeLast(s, p) {
          forall x | x in s
            ensures !p(x)
          {
            var i :| 0 <= i < |s| && s[i] == x;
          }
        }
      }
    }
  }

  /** Buffers in nondecreasing seq order meet both conditions, so there the two pops of
      the program are filters by seq. */
  lemma {:induction false} SortedPopsAreFilters(s: seq<Frame>, bound: nat)
    requires forall i, j :: 0 <= i < j < |s| ==> s[i].seqNo <= s[j].seqNo
    ensures PopFrontWhile(s, (f: Frame) => f.seqNo <= bound) == Without(s, (f: Frame) => f.seqNo <= bound)
    ensures PopBackWhile(s, (f: Frame) => f.seqNo > bound) == Without(s, (f: Frame) => f.seqNo > bound)
  {
    PrefixPopIsFilterIff(s, (f: Frame) => f.seqNo <= bound);
    SuffixPopIsFilterIff(s, (f: Frame) => f.seqNo > bound);
  }

  // ----- pushing -----

  function PushBounded<T>(capacity: nat, s: seq<T>, x: T): seq<T> {
    (if |s| == capacity && s != [] then s[1..] else s) + [x]
  }

  function PushAll<T>(capacity: nat, items: seq<T>): seq<T> {
    if items == [] then [] else PushBounded(capacity, PushAll(capacity, items[..|items| - 1]), items[|items| - 1])
  }

  /** With room for at least one element the buffer is the newest `capacity` elements. */
  lemma {:induction false} PushAllKeepsNewest<T>(capacity: nat, items: seq<T>)
    ensures PushAll(capacity, items) ==
      if capacity >= 1 && |items| > capacity then items[|items| - capacity..] else items
  {
    if items != [] {
      PushAllKeepsNewest(capacity, items[..|items| - 1]);
    }
  }

  /** The buffer is bounded by its capacity exactly when that is not zero: a capacity
      of zero evicts nothing and grows without limit. */
  lemma BoundedIff<T>(capacity: nat, item: T)
    ensures (forall items: seq<T> :: |PushAll(capacity, items)| <= capacity) <==> capacity >= 1
  {
    forall items: seq<T>
      ensures capacity >= 1 ==> |PushAll(capacity, items)| <= capacity
    {
      PushAllKeepsNewest(capacity, items);
    }
    PushAllKeepsNewest(capacity, [item]);
    assert capacity == 0 ==> |PushAll(capacity, [item])| == 1;
  }

  // ----- runs of pushes and acknowledgements -----

  datatype Op = Push(tick: nat, input: nat) | Ack(seqNo: nat)

  /** `next` is the next input number, `acked` the largest ack so far (first - 1 when
      there is none), `evicted` and `removed` count frames lost to overflow and to acks. */
  datatype Run = Run(frames: seq<Frame>, drops: nat, next: nat, acked: int, evicted: nat, removed: int)

  function Acked(ack: nat): Frame -> bool { (f: Frame) => f.seqNo <= ack }

  function Step(capacity: nat, r: Run, op: Op): Run {
    match op
    case Push(tick, input) =>
      var full := |r.frames| == capacity;
      Run(PushBounded(capacity, r.frames, Frame(r.next, tick, input)),
          if full then Min(r.drops + 1, U64_MAX) else r.drops,
          r.next + 1, r.acked, if full then r.evicted + 1 else r.evicted, r.removed)
    case Ack(seqNo) =>
      var kept := PopFrontWhile(r.frames, Acked(seqNo));
      r.(frames := kept, acked := Max(r.acked, seqNo), removed := r.removed + |r.frames| - |kept|)
  }

  function Play(capacity: nat, first: nat, ops: seq<Op>): Run {
    if ops == [] then Run([], 0, first, first - 1, 0, 0)
    else Step(capacity, Play(capacity, first, ops[..|ops| - 1]), ops[|ops| - 1])
  }

  /** Acks never run ahead of the newest input. */
  predicate Causal(capacity: nat, first: nat, ops: seq<Op>) {
    ops == [] ||
    (&& Causal(capacity, first, ops[..|ops| - 1])
     && (ops[|ops| - 1].Ack? ==> ops[|ops| - 1].seqNo < Play(capacity, first, ops[..|ops| - 1]).next))
  }

  function Floor(capacity: nat, r: Run): int { Max(r.acked, r.next - 1 - capacity) }

  /** The buffer is the contiguous range above the floor, and every pushed frame is in
      the buffer, acknowledged, or counted as dropped. */
  predicate ClosedForm(capacity: nat, first: nat, r: Run) {
    && first <= r.next && r.acked < r.next
    && |r.frames| == Min(r.next - first, r.next - 1 - Floor(capacity, r))
    && (forall k :: 0 <= k < |r.frames| ==> r.frames[k].seqNo == r.next - |r.frames| + k)
    && r.next - first == |r.frames| + r.evicted + r.removed
    && r.drops == Min(r.evicted, U64_MAX)
  }

  lemma {:induction false} PopRange(frames: seq<Frame>, start: int, ack: nat)
    requires forall k :: 0 <= k < |frames| ==> frames[k].seqNo == start + k
    ensures var n := Min(|frames|, Max(0, ack + 1 - start)); PopFrontWhile(frames, Acked(ack)) == frames[n..]
  {
    if frames != [] && frames[0].seqNo <= ack {
      PopRange(frames[1..], start + 1, ack);
    }
  }

  lemma AckKeepsClosedForm(capacity: nat, first: nat, r: Run, op: Op)
    requires capacity >= 1 && ClosedForm(capacity, first, r) && op.Ack? && op.seqNo < r.next
    ensures ClosedForm(capacity, first, Step(capacity, r, op))
  {
    PopRange(r.frames, r.next - |r.frames|, op.seqNo);
  }

  /** Main result: after any mix of pushes and acknowledgements the buffer holds exactly
      the inputs in (max(largest ack, newest - capacity), newest]. */
  lemma {:induction false} HistoryIsRange(capacity: nat, first: nat, ops: seq<Op>)
    requires capacity >= 1 && Causal(capacity, first, ops)
    ensures ClosedForm(capacity, first, Play(capacity, first, ops))
  {
    if ops != [] {
      var n := |ops| - 1;
      HistoryIsRange(capacity, first, ops[..n]);
      var r := Play(capacity, first, ops[..n]);
      if ops[n].Ack? {
        AckKeepsClosedForm(capacity, first, r, ops[n]);
      }
    }
  }

  /** Overflow only ever loses inputs that have not been acknowledged. */
  lemma EvictionIsUnacked(capacity: nat, first: nat, r: Run)
    requires capacity >= 1 && ClosedForm(capacity, first, r) && |r.frames| == capacity
    ensures r.frames[0].seqNo > r.acked
    ensures forall tick, input ::
      PushBounded(capacity, r.frames, Frame(r.next, tick, input)) == r.frames[1..] + [Frame(r.next, tick, input)]
  {
  }

  // ----- the objects -----

  class InputHistory {
    const capacity: nat
    var frames: seq<Frame>
    var overflowDrops: nat

    constructor (capacity: nat)
      ensures this.capacity == capacity && frames == [] && overflowDrops == 0
    {
      this.capacity := capacity;
      frames, overflowDrops := [], 0;
    }

    method PushFrame(frame: Frame)
      modifies this
      ensures frames == PushBounded(capacity, old(frames), frame)
      ensures overflowDrops ==
        if |old(frames)| == capacity then Min(old(overflowDrops) + 1, U64_MAX) else old(overflowDrops)
    {
      if |frames| == capacity {
        if frames != [] {
          frames := frames[1..];
        }
        overflowDrops := Min(overflowDrops + 1, U64_MAX);
      }
      frames := frames + [frame];
    }

    method DropThroughSeq(ackSeq: nat)
      modifies this`frames
      ensures frames == PopFrontWhile(old(frames), Acked(ackSeq))
    {
      while frames != [] && frames[0].seqNo <= ackSeq
        invariant PopFrontWhile(frames, Acked(ackSeq)) == PopFrontWhile(old(frames), Acked(ackSeq))
        decreases |frames|
      {
        frames := frames[1..];
      }
    }

    method DropThroughTick(authTick: nat)
      modifies this`frames
      ensures frames == PopFrontWhile(old(frames), (f: Frame) => f.tick <= authTick)
    {
      ghost var p := (f: Frame) => f.tick <= authTick;
      while frames != [] && frames[0].tick <= authTick
        invariant PopFrontWhile(frames, p) == PopFrontWhile(old(frames), p)
        decreases |frames|
      {
        frames := frames[1..];
      }
    }

    method RetainRecent(maxFrames: nat)
      modifies this`frames
      ensures frames == old(frames)[Max(0, |old(frames)| - maxFrames)..]
    {
      ghost var dropped := 0;
      while |frames| > maxFrames
        invariant 0 <= dropped <= |old(frames)| && frames == old(frames)[dropped..]
        invariant dropped > 0 ==> |frames| >= maxFrames
        decreases |frames|
      {
        frames := frames[1..];
        dropped := dropped + 1;
      }
    }
  }

  class PredictedHistory {
    const capacity: nat
    var states: seq<Frame>  // a predicted state, identified by its seq and tick
    var overflowDrops: nat

    constructor (capacity: nat)
      ensures this.capacity == capacity && states == [] && overflowDrops == 0
    {
      this.capacity := capacity;
      states, overflowDrops := [], 0;
    }

    method PushState(state: Frame)
      modifies this
      ensures states == PushBounded(capacity, old(states), state)
      ensures overflowDrops ==
        if |old(states)| == capacity then Min(old(overflowDrops) + 1, U64_MAX) else old(overflowDrops)
    {
      if |states| == capacity {
        if states != [] {
          states := states[1..];
        }
        overflowDrops := Min(overflowDrops + 1, U64_MAX);
      }
      states := states + [state];
    }

    method TruncateAfterSeq(seqNo: nat)
      modifies this`states
      ensures states == PopBackWhile(old(states), (s: Frame) => s.seqNo > seqNo)
    {
      ghost var p := (s: Frame) => s.seqNo > seqNo;
      while states != [] && states[|states| - 1].seqNo > seqNo
        invariant PopBackWhile(states, p) == PopBackWhile(old(states), p)
        decreases |states|
      {
        states := states[..|states| - 1];
      }
    }

    method TruncateAfter(tick: nat)
      modifies this`states
      ensures states == PopBackWhile(old(states), (s: Frame) => s.tick > tick)
    {
      ghost var p := (s: Frame) => s.tick > tick;
      while states != [] && states[|states| - 1].tick > tick
        invariant PopBackWhile(states, p) == PopBackWhile(old(states), p)
        decreases |states|
      {
        states := states[..|states| - 1];
      }
    }
  }
}
