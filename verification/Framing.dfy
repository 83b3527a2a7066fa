/** Length-prefixed frames over a byte stream: the sender with its partial writes and
    backoff, and the receiver with its arbitrary reads. */
module Framing {
  import opened Common
  import opened Bytes

  const FRAME_LIMIT: nat := 0x1_0000_0000

  /** The length prefix is a cast to u32, so it wraps for enormous payloads. */
  function Frame(payload: seq<Byte>): seq<Byte> { BE(4, |payload|) + payload }

  datatype Taken = Taken(payload: seq<Byte>, rest: seq<Byte>)

  function TakeFrame(buffer: seq<Byte>): Option<Taken> {
    if |buffer| < 4 then None
    else
      var length := Value(buffer[..4]);
      if |buffer| < length + 4 then None
      else Some(Taken(buffer[4..4 + length], buffer[4 + length..]))
  }

  /** A frame is taken back whole exactly when its length fits the prefix. */
  lemma TakeFrameInverts(payload: seq<Byte>, rest: seq<Byte>)
    ensures TakeFrame(Frame(payload) + rest) == Some(Taken(payload, rest)) <==> |payload| < FRAME_LIMIT
  {
    var buffer := Frame(payload) + rest;
    assert buffer[..4] == BE(4, |payload|);
    ValueOfBE(4, |payload|);
    Powers();
    if |payload| < FRAME_LIMIT {
      assert buffer[4..4 + |payload|] == payload;
      assert buffer[4 + |payload|..] == rest;
    } else {
      var length := |payload| % FRAME_LIMIT;
      assert |buffer[4..4 + length]| == length < |payload|;
    }
  }

  lemma TakeFrameMonotone(buffer: seq<Byte>, more: seq<Byte>)
    requires TakeFrame(buffer).Some?
    ensures TakeFrame(buffer + more) ==
      Some(Taken(TakeFrame(buffer).value.payload, TakeFrame(buffer).value.rest + more))
  {
    var length := Value(buffer[..4]);
    assert (buffer + more)[..4] == buffer[..4];
    assert (buffer + more)[4..4 + length] == buffer[4..4 + length];
    assert (buffer + more)[4 + length..] == buffer[4 + length..] + more;
  }

  /** A proper prefix of a frame is never taken for a frame. */
  lemma ProperPrefixWaits(payload: seq<Byte>, part: seq<Byte>)
    requires |payload| < FRAME_LIMIT && part < Frame(payload)
    ensures TakeFrame(part) == None
  {
    if |part| >= 4 {
      assert part[..4] == Frame(payload)[..|part|][..4] == BE(4, |payload|);
      ValueOfBE(4, |payload|);
      Powers();
    }
  }

  // ----- the receiver -----

  datatype Drained = Drained(frames: seq<seq<Byte>>, rest: seq<Byte>)

  function Drain(buffer: seq<Byte>): Drained
    decreases |buffer|
  {
    var t := TakeFrame(buffer);
    if t == None then Drained([], buffer)
    else
      var d := Drain(t.value.rest);
      Drained([t.value.payload] + d.frames, d.rest)
  }

  function Stream(payloads: seq<seq<Byte>>): seq<Byte> {
    if payloads == [] then [] else Frame(payloads[0]) + Stream(payloads[1..])
  }

  /** Draining early changes nothing: the next bytes complete what was left over. */
  lemma {:induction false} DrainAppend(buffer: seq<Byte>, more: seq<Byte>)
    ensures var d := Drain(buffer);
      var e := Drain(d.rest + more);
      Drain(buffer + more) == Drained(d.frames + e.frames, e.rest)
    decreases |buffer|
  {
    var t := TakeFrame(buffer);
    if t.Some? {
      TakeFrameMonotone(buffer, more);
      DrainAppend(t.value.rest, more);
      var d := Drain(t.value.rest);
      var e := Drain(d.rest + more);
      assert [t.value.payload] + (d.frames + e.frames) == [t.value.payload] + d.frames + e.frames;
    } else {
      var e := Drain(buffer + more);
      assert [] + e.frames == e.frames;
    }
  }

  // ----- one tick of the session loop: read, then drain -----

  const MAX_READS_PER_TICK: nat := 256

  /** What one read call answers; no data at all means that the server closed. */
  datatype ReadAnswer = Data(bytes: seq<Byte>) | Interrupted | Blocked | Failed

  /** What the reads of a tick bring in, and whether they end the session. */
  datatype Gathered = Gathered(bytes: seq<Byte>, ended: bool)

  function Gather(answers: seq<ReadAnswer>, left: nat): Gathered {
    if left == 0 || answers == [] then Gathered([], false)
    else
      match answers[0]
      case Data(bytes) =>
        if bytes == [] then Gathered([], true)
        else
          var g := Gather(answers[1..], left - 1);
          Gathered(bytes + g.bytes, g.ended)
      case Interrupted => Gather(answers[1..], left - 1)
      case Blocked => Gathered([], false)
      case Failed => Gathered([], true)
  }

  /** The answers to the reads of one tick, and the place, among the frames it drains,
      of one whose handling drops the session. */
  datatype Tick = Tick(answers: seq<ReadAnswer>, fatal: Option<nat>)

  /** The reader of one session: the frame buffer and the frames handed to the decoder. */
  datatype Reader = Live(buffer: seq<Byte>, delivered: seq<seq<Byte>>) | Gone(delivered: seq<seq<Byte>>)

  function Brought(t: Tick): Gathered { Gather(t.answers, MAX_READS_PER_TICK) }

  predicate CutShort(frames: seq<seq<Byte>>, fatal: Option<nat>) {
    fatal.Some? && fatal.value < |frames|
  }

  function Handled(frames: seq<seq<Byte>>, fatal: Option<nat>): seq<seq<Byte>> {
    if CutShort(frames, fatal) then frames[..fatal.value + 1] else frames
  }

  /** A read that ends the session returns before anything is drained. */
  function AfterTick(r: Reader, t: Tick): Reader {
    if r.Gone? then r
    else if Brought(t).ended then Gone(r.delivered)
    else
      var d := Drain(r.buffer + Brought(t).bytes);
      var delivered := r.delivered + Handled(d.frames, t.fatal);
      if CutShort(d.frames, t.fatal) then Gone(delivered) else Live(d.rest, delivered)
  }

  function RunTicks(ticks: seq<Tick>): Reader {
    if ticks == [] then Live([], []) else AfterTick(RunTicks(ticks[..|ticks| - 1]), ticks[|ticks| - 1])
  }

  /** All bytes the session read, up to its end. */
  function Received(ticks: seq<Tick>): seq<Byte> {
    if ticks == [] then []
    else
      var before := ticks[..|ticks| - 1];
      Received(before) + if RunTicks(before).Live? then Brought(ticks[|ticks| - 1]).bytes else []
  }

  /** A tick that drops the session and with it whole frames: its reads end while some
      wait to be drained, or a frame that drops the session has others behind it. */
  predicate Loses(r: Reader, t: Tick) {
    r.Live? &&
    var frames := Drain(r.buffer + Brought(t).bytes).frames;
    if Brought(t).ended then frames != [] else t.fatal.Some? && t.fatal.value + 1 < |frames|
  }

  predicate LosesByThen(ticks: seq<Tick>) {
    exists k :: 0 <= k < |ticks| && Loses(RunTicks(ticks[..k]), ticks[k])
  }

  /** One tick of a session that so far delivered everything. */
  lemma TickEffect(received: seq<Byte>, r: Reader, t: Tick)
    requires r.Live? && Drain(received) == Drained(r.delivered, r.buffer)
    ensures var r' := AfterTick(r, t);
      var d := Drain(received + Brought(t).bytes);
      && r'.delivered <= d.frames
      && (r'.delivered == d.frames <==> !Loses(r, t))
      && (r'.Live? ==> d == Drained(r'.delivered, r'.buffer))
  {
    DrainAppend(received, Brought(t).bytes);
    var frames := Drain(r.buffer + Brought(t).bytes).frames;
    assert Drain(received + Brought(t).bytes).frames == r.delivered + frames;
    assert r.delivered + frames == r.delivered <==> |frames| == 0;
  }

  /** Main result: a session delivers, in order, a first part of the whole frames it
      received, and all of them exactly when no tick ends it with frames to lose; a live
      session has delivered them all and buffers what is left over. */
  lemma {:induction false} DeliveredIff(ticks: seq<Tick>)
    ensures var r, d := RunTicks(ticks), Drain(Received(ticks));
      && r.delivered <= d.frames
      && (r.delivered == d.frames <==> !LosesByThen(ticks))
      && (r.Live? ==> d == Drained(r.delivered, r.buffer))
  {
    if ticks != [] {
      var n := |ticks| - 1;
      DeliveredIff(ticks[..n]);
      LosesSnoc(ticks);
      if RunTicks(ticks[..n]).Live? {
        TickEffect(Received(ticks[..n]), RunTicks(ticks[..n]), ticks[n]);
      } else {
        assert Received(ticks[..n]) + [] == Received(ticks[..n]);
      }
    }
  }

  lemma LosesSnoc(ticks: seq<Tick>)
    requires ticks != []
    ensures var n := |ticks| - 1;
      LosesByThen(ticks) <==> LosesByThen(ticks[..n]) || Loses(RunTicks(ticks[..n]), ticks[n])
  {
    var n := |ticks| - 1;
    assert forall k :: 0 <= k < n ==> ticks[..n][..k] == ticks[..k] && ticks[..n][k] == ticks[k];
  }

  // ----- what one tick reads, and what ends a session -----

  predicate EndsReads(a: ReadAnswer) { a == Blocked || a == Failed || a == Data([]) }

  /** All the data of some answers, in order. */
  function DataIn(answers: seq<ReadAnswer>): seq<Byte> {
    if answers == [] then []
    else DataIn(answers[..|answers| - 1]) + match answers[|answers| - 1] case Data(bytes) => bytes case _ => []
  }

  lemma {:induction false} DataCons(a: ReadAnswer, answers: seq<ReadAnswer>)
    ensures DataIn([a] + answers) == (if a.Data? then a.bytes else []) + DataIn(answers)
  {
    if answers != [] {
      var n := |answers| - 1;
      DataCons(a, answers[..n]);
      assert ([a] + answers)[..n + 1] == [a] + answers[..n];
    } else {
      assert DataIn([]) == [] && ([a] + answers)[..0] == [];
    }
  }

  /** The reads of a tick stop after the first k answers, of at most `limit`: at the first
      answer that ends them, or because there are no more. */
  predicate StopsAfter(answers: seq<ReadAnswer>, limit: nat, k: nat) {
    && k <= |answers| && k <= limit
    && (forall i :: 0 <= i < k ==> !EndsReads(answers[i]))
    && (k == |answers| || k == limit || EndsReads(answers[k]))
  }

  predicate EndsSession(answers: seq<ReadAnswer>, limit: nat, k: nat) {
    k < |answers| && k < limit && (answers[k] == Failed || answers[k] == Data([]))
  }

  lemma {:induction false} GatherExact(answers: seq<ReadAnswer>, limit: nat, k: nat)
    requires StopsAfter(answers, limit, k)
    ensures Gather(answers, limit) == Gathered(DataIn(answers[..k]), EndsSession(answers, limit, k))
    decreases k
  {
    if k > 0 {
      assert forall i :: 0 <= i < |answers| - 1 ==> answers[1..][i] == answers[i + 1];
      GatherExact(answers[1..], limit - 1, k - 1);
      assert answers[..k] == [answers[0]] + answers[1..][..k - 1];
      DataCons(answers[0], answers[1..][..k - 1]);
    } else {
      assert answers[..0] == [];
    }
  }

  lemma {:induction false} StopExists(answers: seq<ReadAnswer>, limit: nat) returns (k: nat)
    ensures StopsAfter(answers, limit, k)
  {
    k := 0;
    while k < |answers| && k < limit && !EndsReads(answers[k])
      invariant k <= |answers| && k <= limit && forall i :: 0 <= i < k ==> !EndsReads(answers[i])
    {
      k := k + 1;
    }
  }

  /** Main result: a tick reads the data before the first answer that would block, failed
      or closed the connection, among its first 256, in order. It ends the session exactly
      when that answer failed or closed, or when it drains a frame that drops it. */
  lemma TickReads(r: Reader, t: Tick, k: nat)
    requires r.Live? && StopsAfter(t.answers, MAX_READS_PER_TICK, k)
    ensures Brought(t).bytes == DataIn(t.answers[..k])
    ensures AfterTick(r, t).Gone? <==>
      || EndsSession(t.answers, MAX_READS_PER_TICK, k)
      || (t.fatal.Some? && t.fatal.value < |Drain(r.buffer + DataIn(t.answers[..k])).frames|)
    ensures EndsSession(t.answers, MAX_READS_PER_TICK, k) ==> AfterTick(r, t).delivered == r.delivered
  {
    GatherExact(t.answers, MAX_READS_PER_TICK, k);
  }

  /** No answer of the tick fails or closes, and no frame it drains drops the session. */
  predicate Ordinary(t: Tick) { Failed !in t.answers && Data([]) !in t.answers && t.fatal == None }

  /** Main result: a session of ordinary ticks, each of which may read nothing and end on
      a read that would block, lives and has handed out every whole frame it received. */
  lemma {:induction false} OrdinarySessionLives(ticks: seq<Tick>)
    requires forall i :: 0 <= i < |ticks| ==> Ordinary(ticks[i])
    ensures RunTicks(ticks).Live?
    ensures Drain(Received(ticks)) == Drained(RunTicks(ticks).delivered, RunTicks(ticks).buffer)
  {
    if ticks != [] {
      var n := |ticks| - 1;
      OrdinarySessionLives(ticks[..n]);
      var k := StopExists(ticks[n].answers, MAX_READS_PER_TICK);
      TickReads(RunTicks(ticks[..n]), ticks[n], k);
    }
    DeliveredIff(ticks);
  }

  /** The failing case: a frame and the end of the connection in one tick. The frame
      has arrived whole and is never delivered. */
  lemma ClosingTickLosesFrame(payload: seq<Byte>)
    requires |payload| < FRAME_LIMIT
    ensures var ticks := [Tick([Data(Frame(payload)), Data([])], None)];
      RunTicks(ticks) == Gone([]) && Drain(Received(ticks)).frames == [payload]
  {
    var answers := [Data(Frame(payload)), Data([])];
    assert answers[1..] == [Data([])];
    assert Gather([Data([])], MAX_READS_PER_TICK - 1) == Gathered([], true);
    var t := Tick(answers, None);
    assert Brought(t) == Gathered(Frame(payload) + [], true);
    assert [t][..0] == [] && Received([t]) == [] + (Frame(payload) + []) == Frame(payload) + [];
    TakeFrameInverts(payload, []);
    assert TakeFrame([]) == None;
  }

  /** The receive side of the session loop. */
  class FrameReader {
    var buffer: seq<Byte>
    var delivered: seq<seq<Byte>>
    var live: bool

    constructor ()
      ensures View() == Live([], [])
    {
      buffer, delivered, live := [], [], true;
    }

    function View(): Reader
      reads this
    {
      if live then Live(buffer, delivered) else Gone(delivered)
    }

    /** Appends what the reads bring, up to 256 of them. */
    method ReadAvailable(answers: seq<ReadAnswer>) returns (ended: bool)
      modifies this`buffer
      ensures Gathered(buffer, ended) ==
        var g := Gather(answers, MAX_READS_PER_TICK); Gathered(old(buffer) + g.bytes, g.ended)
    {
      ended := false;
      var i := 0;
      while i < MAX_READS_PER_TICK && i < |answers|
        invariant i <= |answers| && i <= MAX_READS_PER_TICK
        invariant var g, h := Gather(answers, MAX_READS_PER_TICK), Gather(answers[i..], MAX_READS_PER_TICK - i);
          g.ended == h.ended && old(buffer) + g.bytes == buffer + h.bytes
      {
        assert answers[i..][1..] == answers[i + 1..];
        match answers[i] {
          case Data(bytes) =>
            if bytes == [] {
              return true;
            }
            var rest := Gather(answers[i + 1..], MAX_READS_PER_TICK - i - 1).bytes;
            assert buffer + (bytes + rest) == (buffer + bytes) + rest;
            buffer := buffer + bytes;
          case Interrupted =>
          case Blocked =>
            return false;
          case Failed =>
            return true;
        }
        i := i + 1;
      }
    }

    method Take() returns (frame: Option<seq<Byte>>)
      modifies this`buffer
      ensures TakeFrame(old(buffer)) == None ==> frame == None && buffer == old(buffer)
      ensures TakeFrame(old(buffer)).Some? ==>
        frame == Some(TakeFrame(old(buffer)).value.payload) && buffer == TakeFrame(old(buffer)).value.rest
    {
      if |buffer| < 4 {
        return None;
      }
      var length := Value(buffer[..4]);
      if |buffer| < length + 4 {
        return None;
      }
      frame := Some(buffer[4..4 + length]);
      buffer := buffer[4 + length..];
    }

    /** Hands out frames until none is complete or one drops the session. */
    method DrainBuffer(fatal: Option<nat>) returns (dropped: bool)
      modifies this`buffer, this`delivered
      ensures dropped == CutShort(Drain(old(buffer)).frames, fatal)
      ensures delivered == old(delivered) + Handled(Drain(old(buffer)).frames, fatal)
      ensures !dropped ==> buffer == Drain(old(buffer)).rest
    {
      ghost var frames := Drain(buffer).frames;
      var n := 0;
      while true
        invariant n <= |frames| && delivered == old(delivered) + frames[..n]
        invariant Drain(buffer) == Drained(frames[n..], Drain(old(buffer)).rest)
        invariant fatal.Some? ==> n <= fatal.value
        decreases |buffer|
      {
        ghost var before := buffer;
        var frame := Take();
        if frame == None {
          assert frames[..n] == frames;
          return false;
        }
        assert frames[n..] == [frame.value] + Drain(buffer).frames;
        assert frames[..n + 1] == frames[..n] + [frame.value] && frames[n + 1..] == frames[n..][1..];
        delivered := delivered + [frame.value];
        if fatal == Some(n) {
          return true;
        }
        n := n + 1;
      }
    }

    method RunTick(t: Tick)
      modifies this
      ensures View() == AfterTick(old(View()), t)
    {
      if !live {
        return;
      }
      var ended := ReadAvailable(t.answers);
      if ended {
        live := false;
        return;
      }
      var dropped := DrainBuffer(t.fatal);
      live := !dropped;
    }
  }

  method RunSession(ticks: seq<Tick>) returns (r: Reader)
    ensures r == RunTicks(ticks)
  {
    var reader := new FrameReader();
    for i := 0 to |ticks|
      invariant fresh(reader) && reader.View() == RunTicks(ticks[..i])
    {
      assert ticks[..i + 1][..i] == ticks[..i];
      reader.RunTick(ticks[i]);
    }
    assert ticks[..|ticks|] == ticks;
    r := reader.View();
  }

  // ----- from the bytes on the wire to the payloads -----

  lemma {:induction false} DrainStream(payloads: seq<seq<Byte>>, part: seq<Byte>)
    requires forall p :: p in payloads ==> |p| < FRAME_LIMIT
    requires TakeFrame(part) == None
    ensures Drain(Stream(payloads) + part) == Drained(payloads, part)
  {
    if payloads == [] {
      assert Stream(payloads) + part == part;
    } else {
      TakeFrameInverts(payloads[0], Stream(payloads[1..]) + part);
      assert Stream(payloads) + part == Frame(payloads[0]) + (Stream(payloads[1..]) + part);
      DrainStream(payloads[1..], part);
      assert [payloads[0]] + payloads[1..] == payloads;
    }
  }

  /** Any prefix of a stream of frames is whole frames and a proper prefix of the next. */
  lemma {:induction false} SplitPrefix(payloads: seq<seq<Byte>>, n: nat) returns (k: nat, part: seq<Byte>)
    requires n <= |Stream(payloads)|
    ensures k <= |payloads| && Stream(payloads)[..n] == Stream(payloads[..k]) + part
    ensures if k == |payloads| then part == [] else part < Frame(payloads[k])
  {
    if payloads == [] {
      k, part := 0, [];
    } else if n < |Frame(payloads[0])| {
      k, part := 0, Frame(payloads[0])[..n];
      assert Stream(payloads)[..n] == part;
    } else {
      var m := |Frame(payloads[0])|;
      k, part := SplitPrefix(payloads[1..], n - m);
      assert Stream(payloads)[..n] == Frame(payloads[0]) + Stream(payloads[1..])[..n - m];
      assert payloads[1..][..k] == payloads[..k + 1][1..];
      assert Stream(payloads[..k + 1]) == Frame(payloads[0]) + Stream(payloads[1..][..k]);
      k := k + 1;
    }
  }

  /** Draining any first part of a stream of frames yields exactly the frames that
      arrived whole, in order, and leaves a proper prefix of the next one. */
  lemma {:induction false} EndToEnd(payloads: seq<seq<Byte>>, arrived: seq<Byte>) returns (k: nat)
    requires forall p :: p in payloads ==> |p| < FRAME_LIMIT
    requires arrived <= Stream(payloads)
    ensures k <= |payloads|
    ensures var d := Drain(arrived);
      && d.frames == payloads[..k]
      && arrived == Stream(payloads[..k]) + d.rest
      && (if k == |payloads| then d.rest == [] else d.rest < Frame(payloads[k]))
      && (arrived == Stream(payloads) ==> d.frames == payloads && d.rest == [])
  {
    var part;
    k, part := SplitPrefix(payloads, |arrived|);
    assert arrived == Stream(payloads)[..|arrived|];
    if k < |payloads| {
      ProperPrefixWaits(payloads[k], part);
    }
    DrainStream(payloads[..k], part);
    if arrived == Stream(payloads) {
      assert Stream(payloads) + [] == Stream(payloads);
      DrainStream(payloads, []);
    }
  }

  /** Main result: a session that receives part of a stream of frames, in whatever reads
      and ticks, delivers a first part of the payloads, in order. It has delivered all
      that arrived whole exactly when no tick ends it with frames to lose, and while it
      is live it buffers a proper prefix of the next frame. */
  lemma {:induction false} SessionEndToEnd(payloads: seq<seq<Byte>>, ticks: seq<Tick>) returns (k: nat)
    requires forall p :: p in payloads ==> |p| < FRAME_LIMIT
    requires Received(ticks) <= Stream(payloads)
    ensures k <= |payloads| && Stream(payloads[..k]) <= Received(ticks)
    ensures if k == |payloads| then Received(ticks) == Stream(payloads)
            else Received(ticks) < Stream(payloads[..k]) + Frame(payloads[k])
    ensures RunTicks(ticks).delivered <= payloads[..k]
    ensures RunTicks(ticks).delivered == payloads[..k] <==> !LosesByThen(ticks)
    ensures RunTicks(ticks).Live? ==>
      RunTicks(ticks).delivered == payloads[..k] && Received(ticks) == Stream(payloads[..k]) + RunTicks(ticks).buffer
  {
    k := EndToEnd(payloads, Received(ticks));
    DeliveredIff(ticks);
    if k == |payloads| {
      assert payloads[..k] == payloads;
      assert Stream(payloads) + [] == Stream(payloads);
    }
  }
}
