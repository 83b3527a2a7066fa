/** Sending one frame over a non-blocking TCP stream. */
module Transport {
  import opened Common
  import opened Bytes
  import opened Framing

  const MAX_SEND_WAIT_MS: nat := 1000
  const INITIAL_BACKOFF_MS: nat := 1
  const MAX_BACKOFF_MS: nat := 64

  /** What one write call answers; Accepted(0) is a closed socket. */
  datatype WriteResult = Accepted(n: nat) | WouldBlock | Interrupted | Broken

  /** Unfinished: the schedule of answers ran out while the loop was still going. */
  datatype SendResult = SentAll | WriteZero | TimedOut | OtherError | Unfinished

  function Backoff(k: nat): nat {
    if k == 0 then INITIAL_BACKOFF_MS else Min(2 * Backoff(k - 1), MAX_BACKOFF_MS)
  }

  /** Total time slept by the first `k` waits after progress. */
  function Waited(k: nat): nat {
    if k == 0 then 0 else Waited(k - 1) + Backoff(k - 1)
  }

  lemma {:induction false} WaitedClosedForm(k: nat)
    requires k >= 7
    ensures Backoff(k) == 64 && Waited(k) == 127 + 64 * (k - 7)
  {
    if k == 7 {
      assert Backoff(1) == 2 && Backoff(2) == 4 && Backoff(3) == 8 && Backoff(4) == 16 && Backoff(5) == 32
        && Backoff(6) == 64;
      assert Waited(1) == 1 && Waited(2) == 3 && Waited(3) == 7 && Waited(4) == 15 && Waited(5) == 31
        && Waited(6) == 63;
    } else {
      WaitedClosedForm(k - 1);
    }
  }

  lemma {:induction false} WaitedMonotone(j: nat, k: nat)
    requires j <= k
    ensures Waited(j) <= Waited(k)
  {
    if j < k {
      WaitedMonotone(j, k - 1);
    }
  }

  /** The wait budget is used up after exactly 21 waits, 1023 ms in all. */
  lemma WaitBudget(k: nat)
    ensures Waited(k) >= MAX_SEND_WAIT_MS <==> k >= 21
    ensures k <= 21 ==> Waited(k) <= 1023
    ensures Waited(21) == 1023
  {
    WaitedClosedForm(20);
    WaitedClosedForm(21);
    if k >= 21 {
      WaitedMonotone(21, k);
    } else {
      WaitedMonotone(k, 20);
    }
  }

  /** What the sending loop does that takes time or makes progress. */
  datatype Beat = Progress(n: nat) | Slept(ms: nat)

  /** How many sleeps a trace ends with. */
  function Streak(t: seq<Beat>): nat {
    if t == [] || t[|t| - 1].Progress? then 0 else Streak(t[..|t| - 1]) + 1
  }

  /** Every sleep lasts the backoff of its place in its streak, and streaks are short. */
  predicate Paced(t: seq<Beat>) {
    t == [] ||
    (var before := t[..|t| - 1];
     Paced(before) && (t[|t| - 1].Slept? ==> Streak(before) < 21 && t[|t| - 1].ms == Backoff(Streak(before))))
  }

  function TotalSlept(t: seq<Beat>): nat {
    if t == [] then 0 else TotalSlept(t[..|t| - 1]) + match t[|t| - 1] case Slept(ms) => ms case Progress(_) => 0
  }

  function TotalProgress(t: seq<Beat>): nat {
    if t == [] then 0 else TotalProgress(t[..|t| - 1]) + match t[|t| - 1] case Slept(_) => 0 case Progress(n) => n
  }

  lemma {:induction false} WindowWithinStreak(t: seq<Beat>, i: nat)
    requires Paced(t) && i <= |t| && forall k :: i <= k < |t| ==> t[k].Slept?
    ensures |t| - i <= Streak(t) <= 21 && TotalSlept(t[i..]) <= Waited(Streak(t))
  {
    if i < |t| {
      var before := t[..|t| - 1];
      WindowWithinStreak(before, i);
      assert t[i..][..|t| - 1 - i] == before[i..];
    } else if t != [] {
      assert t[i..] == [];
    }
  }

  lemma {:induction false} PacedPrefix(t: seq<Beat>, j: nat)
    requires Paced(t) && j <= |t|
    ensures Paced(t[..j])
  {
    if j < |t| {
      PacedPrefix(t[..|t| - 1], j);
      assert t[..|t| - 1][..j] == t[..j];
    } else {
      assert t[..j] == t;
    }
  }

  /** Main result: between two bytes of progress the sender sleeps at most 21 times
      and at most 1023 ms in all. */
  lemma {:induction false} PauseBetweenBytesBounded(t: seq<Beat>, i: nat, j: nat)
    requires Paced(t) && i <= j <= |t| && forall k :: i <= k < j ==> t[k].Slept?
    ensures j - i <= 21 && TotalSlept(t[i..j]) <= 1023
  {
    PacedPrefix(t, j);
    WindowWithinStreak(t[..j], i);
    assert t[..j][i..] == t[i..j];
    WaitBudget(Streak(t[..j]));
  }

  /** What a run of answers makes the sender of `len` bytes do: an interrupted call is
      simply repeated, and an answer that ends the send does nothing. */
  function Trace(len: nat, answers: seq<WriteResult>): seq<Beat> {
    if answers == [] then []
    else
      var before := Trace(len, answers[..|answers| - 1]);
      match answers[|answers| - 1]
      case Accepted(k) => if k == 0 then before else before + [Progress(Min(k, Max(0, len - TotalProgress(before))))]
      case WouldBlock => before + [Slept(Backoff(Streak(before)))]
      case _ => before
  }

  lemma TraceSnoc(len: nat, answers: seq<WriteResult>, n: nat)
    requires n < |answers| && Paced(Trace(len, answers[..n]))
    ensures var before, after := Trace(len, answers[..n]), Trace(len, answers[..n + 1]);
      match answers[n]
      case Accepted(k) => k > 0 && TotalProgress(before) <= len ==>
        var step := Min(k, len - TotalProgress(before));
        after == before + [Progress(step)] && Paced(after) && Streak(after) == 0
          && TotalProgress(after) == TotalProgress(before) + step
      case WouldBlock => Streak(before) < 21 ==>
        Paced(after) && Streak(after) == Streak(before) + 1 && TotalProgress(after) == TotalProgress(before)
        && after == before + [Slept(Backoff(Streak(before)))]
      case _ => after == before
  {
    var before := Trace(len, answers[..n]);
    assert answers[..n + 1][..n] == answers[..n];
  }

  /** Why a send ended, in terms of the last answer it used. */
  predicate EndsBy(r: SendResult, len: nat, answers: seq<WriteResult>, used: nat)
    requires used <= |answers|
  {
    match r
    case SentAll => TotalProgress(Trace(len, answers[..used])) == len
    case Unfinished => used == |answers| && TotalProgress(Trace(len, answers)) < len
    case WriteZero => used > 0 && answers[used - 1] == Accepted(0)
    case TimedOut => used > 0 && answers[used - 1] == WouldBlock && Streak(Trace(len, answers[..used - 1])) == 21
    case OtherError => used > 0 && answers[used - 1] == Broken
  }

  /** The answer number k ends the send: the socket closed or broke, or would block after
      21 sleeps without progress. */
  predicate Fatal(len: nat, answers: seq<WriteResult>, k: nat)
    requires k < |answers|
  {
    answers[k] == Accepted(0) || answers[k] == Broken
    || (answers[k] == WouldBlock && Streak(Trace(len, answers[..k])) == 21)
  }

  /** The send goes on through these answers: none ends it, and bytes are left before each. */
  predicate GoesOn(len: nat, answers: seq<WriteResult>, used: nat)
    requires used <= |answers|
  {
    forall k :: 0 <= k < used ==> !Fatal(len, answers, k) && TotalProgress(Trace(len, answers[..k])) < len
  }

  lemma GoesOnSnoc(len: nat, answers: seq<WriteResult>, used: nat)
    requires used < |answers| && GoesOn(len, answers, used) && !Fatal(len, answers, used)
    requires TotalProgress(Trace(len, answers[..used])) < len
    ensures GoesOn(len, answers, used + 1)
  {
  }

  /** Some first part of the schedule takes all the bytes, and nothing ends the send before. */
  predicate Passes(len: nat, schedule: seq<WriteResult>) {
    exists used :: 0 <= used <= |schedule| && PassesBy(len, schedule, used)
  }

  predicate PassesBy(len: nat, schedule: seq<WriteResult>, used: nat)
    requires used <= |schedule|
  {
    GoesOn(len, schedule, used) && TotalProgress(Trace(len, schedule[..used])) == len
  }

  /** A send that stops short, or at an answer that ends it, has no way to pass. */
  lemma StoppedNeverPasses(len: nat, schedule: seq<WriteResult>, used: nat)
    requires used <= |schedule| && GoesOn(len, schedule, used)
    requires TotalProgress(Trace(len, schedule[..used])) < len
    requires used == |schedule| || Fatal(len, schedule, used)
    ensures !Passes(len, schedule)
  {
  }

  /** The loop's counters are those of the answers used so far. */
  predicate InStep(len: nat, answers: seq<WriteResult>, used: nat, beats: seq<Beat>, written: nat, waited: nat,
                   backoff: nat) {
    && used <= |answers| && beats == Trace(len, answers[..used])
    && Paced(beats) && TotalProgress(beats) == written <= len
    && waited == Waited(Streak(beats)) && backoff == Backoff(Streak(beats)) && Streak(beats) <= 21
  }

  lemma AcceptedKeepsStep(len: nat, answers: seq<WriteResult>, used: nat, beats: seq<Beat>, written: nat, waited: nat,
                          backoff: nat)
    requires InStep(len, answers, used, beats, written, waited, backoff) && used < |answers|
    requires answers[used].Accepted? && answers[used].n > 0
    ensures var n := Min(answers[used].n, len - written);
      InStep(len, answers, used + 1, beats + [Progress(n)], written + n, 0, INITIAL_BACKOFF_MS)
  {
    TraceSnoc(len, answers, used);
  }

  lemma BlockedKeepsStep(len: nat, answers: seq<WriteResult>, used: nat, beats: seq<Beat>, written: nat, waited: nat,
                         backoff: nat)
    requires InStep(len, answers, used, beats, written, waited, backoff) && used < |answers|
      && answers[used].WouldBlock?
    ensures waited >= MAX_SEND_WAIT_MS <==> Streak(beats) == 21
    ensures waited < MAX_SEND_WAIT_MS ==>
      InStep(len, answers, used + 1, beats + [Slept(backoff)], written, waited + backoff,
             Min(backoff * 2, MAX_BACKOFF_MS))
  {
    WaitBudget(Streak(beats));
    TraceSnoc(len, answers, used);
  }

  lemma InterruptedKeepsStep(len: nat, answers: seq<WriteResult>, used: nat, beats: seq<Beat>, written: nat,
                             waited: nat, backoff: nat)
    requires InStep(len, answers, used, beats, written, waited, backoff) && used < |answers|
    requires answers[used].Interrupted?
    ensures InStep(len, answers, used + 1, beats, written, waited, backoff)
  {
    assert answers[..used + 1][..used] == answers[..used];
  }

  class TcpStream {
    var out: seq<Byte>
    var beats: seq<Beat>  // the sleeps and the accepted writes of the current send

    constructor ()
      ensures out == []
    {
      out, beats := [], [];
    }

    /** The wire gets a prefix of the bytes; the pauses are those of the answers used. */
    method SendTcpBytes(bytes: seq<Byte>, schedule: seq<WriteResult>) returns (r: SendResult, written: nat, used: nat)
      modifies this
      ensures written <= |bytes| && out == old(out) + bytes[..written]
      ensures r == SentAll <==> written == |bytes|
      ensures r == SentAll <==> Passes(|bytes|, schedule)
      ensures used <= |schedule| && EndsBy(r, |bytes|, schedule, used)
      ensures beats == Trace(|bytes|, schedule[..if r.SentAll? || r.Unfinished? then used else used - 1])
      ensures if r.SentAll? || r.Unfinished? then GoesOn(|bytes|, schedule, used)
              else used > 0 && GoesOn(|bytes|, schedule, used - 1) && Fatal(|bytes|, schedule, used - 1)
      ensures Paced(beats) && TotalProgress(beats) == written
    {
      var waited: nat, backoff: nat := 0, INITIAL_BACKOFF_MS;
      written, used, beats := 0, 0, [];
      while written < |bytes|
        invariant InStep(|bytes|, schedule, used, beats, written, waited, backoff)
        invariant out == old(out) + bytes[..written] && GoesOn(|bytes|, schedule, used)
        decreases |schedule| - used
      {
        if used == |schedule| {
          assert schedule[..used] == schedule;
          StoppedNeverPasses(|bytes|, schedule, used);
          return Unfinished, written, used;
        }
        var stop;
        stop, written, waited, backoff := HandleAnswer(old(out), bytes, schedule, used, written, waited, backoff);
        if stop.Some? {
          StoppedNeverPasses(|bytes|, schedule, used);
          return stop.value, written, used + 1;
        }
        GoesOnSnoc(|bytes|, schedule, used);
        used := used + 1;
      }
      assert PassesBy(|bytes|, schedule, used);
      r := SentAll;
    }

    /** One turn of the loop: one write call and what its answer leads to. */
    method HandleAnswer(ghost before: seq<Byte>, bytes: seq<Byte>, schedule: seq<WriteResult>, used: nat,
                        written: nat, waited: nat, backoff: nat)
      returns (stop: Option<SendResult>, written': nat, waited': nat, backoff': nat)
      requires InStep(|bytes|, schedule, used, beats, written, waited, backoff) && used < |schedule|
      requires written < |bytes| && out == before + bytes[..written]
      modifies this
      ensures written' <= |bytes| && out == before + bytes[..written']
      ensures stop.None? ==> InStep(|bytes|, schedule, used + 1, beats, written', waited', backoff')
      ensures stop.Some? <==> Fatal(|bytes|, schedule, used)
      ensures stop.Some? ==> beats == old(beats) && written' == written
      ensures stop.Some? ==>
        !stop.value.SentAll? && !stop.value.Unfinished? && EndsBy(stop.value, |bytes|, schedule, used + 1)
    {
      stop, written', waited', backoff' := None, written, waited, backoff;
      match schedule[used]
      case Accepted(k) =>
        if k == 0 {
          stop := Some(WriteZero);
        } else {
          AcceptedKeepsStep(|bytes|, schedule, used, beats, written, waited, backoff);
          var n := Min(k, |bytes| - written);
          Put(before, bytes, written, n);
          beats := beats + [Progress(n)];
          written', waited', backoff' := written + n, 0, INITIAL_BACKOFF_MS;
        }
      case WouldBlock =>
        BlockedKeepsStep(|bytes|, schedule, used, beats, written, waited, backoff);
        if waited >= MAX_SEND_WAIT_MS {
          stop := Some(TimedOut);
        } else {
          beats := beats + [Slept(backoff)];
          waited', backoff' := waited + backoff, Min(backoff * 2, MAX_BACKOFF_MS);
        }
      case Interrupted =>
        InterruptedKeepsStep(|bytes|, schedule, used, beats, written, waited, backoff);
      case Broken =>
        stop := Some(OtherError);
    }

    /** The socket takes `n` more of the bytes. */
    method Put(ghost before: seq<Byte>, bytes: seq<Byte>, from: nat, n: nat)
      requires from + n <= |bytes| && out == before + bytes[..from]
      modifies this`out
      ensures out == before + bytes[..from + n]
    {
      assert bytes[..from + n] == bytes[..from] + bytes[from..from + n];
      out := out + bytes[from..from + n];
    }

    /** Sends messages one after the other and stops at the first failure. */
    method SendMessages(payloads: seq<seq<Byte>>, schedules: seq<seq<WriteResult>>) returns (sent: nat)
      requires |schedules| == |payloads| && out == []
      modifies this
      ensures OnWire(payloads, sent, out)
      ensures forall i :: 0 <= i < sent ==> Passes(|Frame(payloads[i])|, schedules[i])
      ensures sent < |payloads| ==> !Passes(|Frame(payloads[sent])|, schedules[sent])
    {
      sent := 0;
      while sent < |payloads|
        invariant sent <= |payloads| && out == Stream(payloads[..sent])
        invariant forall i :: 0 <= i < sent ==> Passes(|Frame(payloads[i])|, schedules[i])
      {
        StreamNext(payloads, sent);
        var frame := Frame(payloads[sent]);
        var r, written, used := SendTcpBytes(frame, schedules[sent]);
        if r != SentAll {
          assert frame[..written] < frame && out == Stream(payloads[..sent]) + frame[..written];
          return;
        }
        assert frame[..written] == frame;
        sent := sent + 1;
      }
      assert payloads[..sent] == payloads;
    }
  }

  /** The wire carries the frames of the messages sent whole and at most a proper part
      of the one whose send failed. */
  predicate OnWire(payloads: seq<seq<Byte>>, sent: nat, wire: seq<Byte>) {
    && sent <= |payloads| && Stream(payloads[..sent]) <= wire
    && if sent < |payloads| then wire < Stream(payloads[..sent + 1]) else wire == Stream(payloads)
  }

  lemma {:induction false} StreamAppend(a: seq<seq<Byte>>, b: seq<seq<Byte>>)
    ensures Stream(a + b) == Stream(a) + Stream(b)
  {
    if a == [] {
      assert a + b == b;
    } else {
      assert (a + b)[1..] == a[1..] + b;
      StreamAppend(a[1..], b);
    }
  }

  lemma StreamNext(payloads: seq<seq<Byte>>, i: nat)
    requires i < |payloads|
    ensures Stream(payloads[..i + 1]) == Stream(payloads[..i]) + Frame(payloads[i])
  {
    assert payloads[..i + 1] == payloads[..i] + [payloads[i]];
    StreamAppend(payloads[..i], [payloads[i]]);
    assert Stream([payloads[i]]) == Frame(payloads[i]) + Stream([]);
  }

  /** What drains off the wire is exactly what was sent whole. */
  lemma WireDrainsToSent(payloads: seq<seq<Byte>>, sent: nat, wire: seq<Byte>)
    requires OnWire(payloads, sent, wire) && forall p :: p in payloads ==> |p| < FRAME_LIMIT
    ensures Drain(wire).frames == payloads[..sent]
  {
    var whole := Stream(payloads[..sent]);
    var part := wire[|whole|..];
    assert wire == whole + part;
    if sent < |payloads| {
      StreamNext(payloads, sent);
      assert part < Frame(payloads[sent]);
      ProperPrefixWaits(payloads[sent], part);
    } else {
      assert payloads[..sent] == payloads;
    }
    DrainStream(payloads[..sent], part);
  }

  /** More bytes never take a drained frame back. */
  lemma DrainMonotone(less: seq<Byte>, more: seq<Byte>)
    requires less <= more
    ensures Drain(less).frames <= Drain(more).frames
  {
    assert more == less + more[|less|..];
    DrainAppend(less, more[|less|..]);
  }

  /** A session that reads from this wire delivers, in order, a first part of what was
      sent whole, and once it has read all of it, everything exactly when no tick ended it
      with frames to lose. */
  lemma {:induction false} SentIsDelivered(payloads: seq<seq<Byte>>, sent: nat, wire: seq<Byte>,
                                           ticks: seq<Tick>)
    requires OnWire(payloads, sent, wire) && Received(ticks) <= wire
    requires forall p :: p in payloads ==> |p| < FRAME_LIMIT
    ensures RunTicks(ticks).delivered <= payloads[..sent]
    ensures Received(ticks) == wire ==> (RunTicks(ticks).delivered == payloads[..sent] <==> !LosesByThen(ticks))
  {
    WireDrainsToSent(payloads, sent, wire);
    DrainMonotone(Received(ticks), wire);
    DeliveredIff(ticks);
  }

  /** Main result: over every schedule of short and failing writes and every split of the
      wire into reads and ticks, the other end delivers, in order, a first part of what
      was sent whole, and all of it exactly when no tick ends its session with frames to
      lose. */
  method Exchange(payloads: seq<seq<Byte>>, schedules: seq<seq<WriteResult>>, ticks: seq<Tick>)
    returns (sent: nat, wire: seq<Byte>, r: Reader)
    requires |schedules| == |payloads| && forall p :: p in payloads ==> |p| < FRAME_LIMIT
    ensures OnWire(payloads, sent, wire) && r == RunTicks(ticks)
    ensures forall i :: 0 <= i < sent ==> Passes(|Frame(payloads[i])|, schedules[i])
    ensures sent < |payloads| ==> !Passes(|Frame(payloads[sent])|, schedules[sent])
    ensures Received(ticks) <= wire ==> r.delivered <= payloads[..sent]
    ensures Received(ticks) == wire ==> (r.delivered == payloads[..sent] <==> !LosesByThen(ticks))
  {
    var stream := new TcpStream();
    sent := stream.SendMessages(payloads, schedules);
    wire := stream.out;
    r := RunSession(ticks);
    if Received(ticks) <= wire {
      SentIsDelivered(payloads, sent, wire, ticks);
    }
  }
}
