/** What one request of the budget proxy may do and what it leaves behind: the limit it is
    granted, when it succeeds, what each failure writes, and what a closed gate stops. */
module BudgetRequests {
  import opened Common
  import opened BudgetLedger
  import opened BudgetProxy

  // ----- the transactions, by their effect -----

  lemma HaltCloses(db: Db, reason: Code)
    ensures var db' := HaltTx(db, reason);
      && db'.rows == db.rows && db'.budget.halted.Some?
      && (db.budget.halted.None? ==> db'.budget.halted == Some(reason))
  {
  }

  /** A pending row changes alone. */
  predicate OnlyRow(db: Db, db': Db, rid: nat) {
    && |db'.rows| == |db.rows|
    && forall i :: 0 <= i < |db.rows| && i != rid - 1 ==> db'.rows[i] == db.rows[i]
  }

  predicate Pending(db: Db, rid: nat) { 1 <= rid <= |db.rows| && db.rows[rid - 1].status.Reserved? }

  /** A settlement succeeds exactly when the usage is for the counted input and within the
      output limit; a pending row is charged what was used either way. */
  lemma SettleOutcome(db: Db, rid: nat, u: Usage)
    requires Sound(db) && ValidUsage(u) && Pending(db, rid)
    ensures var (db', r) := SettleTx(db, rid, u);
      var row, row' := db.rows[rid - 1], db'.rows[rid - 1];
      && OnlyRow(db, db', rid)
      && (r.Ok? <==> u.inputTokens.n == row.input && u.outputTokens.n <= row.limit)
      && row' == Row(row.scope, row.input, row.limit, u.inputTokens.n + u.outputTokens.n,
                     Some(u.inputTokens.n + u.outputTokens.n), Settled,
                     if r.Ok? then None else Some(UsageExceededReservation))
      && (r.Ok? ==> db'.budget == db.budget)
      && (r.Err? ==> r.error == UsageExceededReservation && db'.budget.halted == Some(UsageExceededReservation))
  {
    assert RowOk(db.rows[rid - 1]);
  }

  /** Marking closes the gate; a pending row keeps its charge and takes the reason, any
      other stays as it is. */
  lemma UncertainOutcome(db: Db, rid: nat, reason: Code)
    ensures var db' := UncertainTx(db, rid, reason);
      && OnlyRow(db, db', rid)
      && db'.budget.halted == Some(if db.budget.halted.Some? then db.budget.halted.value else reason)
      && (1 <= rid <= |db.rows| ==>
            db'.rows[rid - 1] == if Pending(db, rid)
                                 then db.rows[rid - 1].(status := Uncertain, reason := Some(reason))
                                 else db.rows[rid - 1])
  {
  }

  /** Recovery closes the gate exactly when rows are pending, and marks exactly those. */
  lemma RecoverOutcome(db: Db)
    ensures var db' := RecoverTx(db);
      && |db'.rows| == |db.rows|
      && ((exists rid :: Pending(db, rid)) ==> db'.budget.halted.Some?)
      && (!(exists rid :: Pending(db, rid)) || db.budget.halted.Some? ==> db'.budget == db.budget)
      && (db'.budget.halted != db.budget.halted ==> db'.budget.halted == Some(OwnerRestarted))
      && forall i :: 0 <= i < |db.rows| ==>
           db'.rows[i] == if Pending(db, i + 1) then db.rows[i].(status := Uncertain, reason := Some(OwnerRestarted))
                          else db.rows[i]
  {
    assert forall i :: 0 <= i < |db.rows| && db.rows[i].status.Reserved? ==> Pending(db, i + 1);
    assert forall rid :: Pending(db, rid) ==> db.rows[rid - 1].status.Reserved?;
  }

  // ----- what is granted -----

  /** A limit that the body leaves open: none, zero, or some other empty value. */
  predicate LeftOpen(limit: Json) {
    match limit case Absent => true case Int(n) => n == 0 case Other(truthy) => !truthy
  }

  /** What the configured limit and the body's own allow: both of them, and one of the two. */
  predicate GrantedFor(body: Body, outputLimit: int, limit: int) {
    && limit <= outputLimit
    && (if LeftOpen(body.maxOutputTokens) then limit == outputLimit
        else body.maxOutputTokens.Int? && limit <= body.maxOutputTokens.n
             && (limit == body.maxOutputTokens.n || limit == outputLimit))
  }

  /** A body that the proxy can account for. */
  predicate Acceptable(body: Body, outputLimit: int) {
    && !body.stateful
    && (if LeftOpen(body.maxOutputTokens) then outputLimit > 0
        else body.maxOutputTokens.Int? && body.maxOutputTokens.n > 0)
  }

  predicate CountsTo(a: Answer, n: nat) { a.count == CountBody(true, Int(n)) }

  /** An admitted request is counted exactly when its body is acceptable and the count
      usable, and then it is granted what both limits allow. */
  lemma AdmissionGrants(l: Local, outputLimit: int, a: Answer)
    requires l.client.Admitted?
    ensures var c := ClientStep(l, outputLimit, a).client;
      && (c.Counted? <==> Acceptable(l.client.body, outputLimit) && exists n: nat :: CountsTo(a, n))
      && (c.Counted? ==>
            GrantedFor(l.client.body, outputLimit, c.limit) && CountsTo(a, c.input) && c.scope == l.client.scope)
      && (!c.Counted? ==> c.Halting?)
  {
    if a.count.CountBody? && a.count.isCount && a.count.inputTokens.Int? && a.count.inputTokens.n >= 0 {
      assert CountsTo(a, a.count.inputTokens.n);
    }
  }

  // ----- where rows come from -----

  /** Some request of the run asked for this. */
  ghost predicate Asked(steps: seq<Step>, body: Body, scope: string) { Arrive(body, scope) in steps }

  ghost predicate CountedIn(steps: seq<Step>, n: nat) {
    exists c: nat, a: Answer :: Act(c, a) in steps && CountsTo(a, n)
  }

  /** A request of the run, acceptable and with this scope, was granted this limit. */
  ghost predicate Backed(steps: seq<Step>, outputLimit: int, input: nat, limit: int, scope: string) {
    && CountedIn(steps, input)
    && exists body :: Asked(steps, body, scope) && Acceptable(body, outputLimit) && GrantedFor(body, outputLimit, limit)
  }

  ghost predicate ClientBacked(steps: seq<Step>, outputLimit: int, c: Client) {
    match c
    case Arrived(body, scope) => Asked(steps, body, scope)
    case Admitted(body, scope) => Asked(steps, body, scope)
    case Counted(input, limit, scope) => Backed(steps, outputLimit, input, limit, scope)
    case Gated(input, granted, scope) => granted > 0 && Backed(steps, outputLimit, input, granted, scope)
    case _ => true
  }

  ghost predicate RowBacked(steps: seq<Step>, outputLimit: int, r: Row) {
    r.limit > 0 && Backed(steps, outputLimit, r.input, r.limit, r.scope)
  }

  /** A step of a thread adds the row of its own request, and no other changes what it
      was requested for. */
  lemma ActKeepsRowsBacked(steps: seq<Step>, outputLimit: int, a: Answer, l: Local, i: nat)
    requires ClientBacked(steps, outputLimit, l.client)
    requires forall r :: r in l.db.rows ==> RowBacked(steps, outputLimit, r)
    requires i < |ClientStep(l, outputLimit, a).db.rows|
    ensures RowBacked(steps, outputLimit, ClientStep(l, outputLimit, a).db.rows[i])
  {
    var db' := ClientStep(l, outputLimit, a).db;
    if i < |l.db.rows| {
      assert RowBacked(steps, outputLimit, l.db.rows[i]);
      assert db'.rows[i].input == l.db.rows[i].input && db'.rows[i].limit == l.db.rows[i].limit
        && db'.rows[i].scope == l.db.rows[i].scope;
    }
  }

  ghost predicate AllBacked(steps: seq<Step>, outputLimit: int, s: System) {
    && (forall c :: c in s.clients ==> ClientBacked(steps, outputLimit, c))
    && (forall r :: r in s.db.rows ==> RowBacked(steps, outputLimit, r))
  }

  lemma ActAllBacked(steps: seq<Step>, outputLimit: int, s: System, c: nat, a: Answer)
    requires AllBacked(steps, outputLimit, s) && Act(c, a) in steps && c < |s.clients|
    ensures AllBacked(steps, outputLimit, Next(s, outputLimit, Act(c, a)))
  {
    var l := Local(s.clients[c], s.db, s.failure);
    var s' := Next(s, outputLimit, Act(c, a));
    assert s.clients[c] in s.clients;
    forall d | d in s'.clients
      ensures ClientBacked(steps, outputLimit, d)
    {
      var i :| 0 <= i < |s'.clients| && s'.clients[i] == d;
      if i != c {
        assert s.clients[i] in s.clients;
      }
    }
    forall r | r in s'.db.rows
      ensures RowBacked(steps, outputLimit, r)
    {
      var i :| 0 <= i < |s'.db.rows| && s'.db.rows[i] == r;
      ActKeepsRowsBacked(steps, outputLimit, a, l, i);
    }
  }

  lemma NextAllBacked(steps: seq<Step>, outputLimit: int, s: System, step: Step)
    requires AllBacked(steps, outputLimit, s) && step in steps
    ensures AllBacked(steps, outputLimit, Next(s, outputLimit, step))
  {
    var s' := Next(s, outputLimit, step);
    match step
    case Act(c, a) =>
      if c < |s.clients| {
        ActAllBacked(steps, outputLimit, s, c, a);
      }
    case Restart(_) =>
      forall r | r in s'.db.rows
        ensures RowBacked(steps, outputLimit, r)
      {
        var i :| 0 <= i < |s'.db.rows| && s'.db.rows[i] == r;
        assert RowBacked(steps, outputLimit, s.db.rows[i]);
      }
    case _ =>
  }

  /** Main result: over every run each row of the ledger belongs to an acceptable request
      that arrived, under its scope, for an input that the provider counted, and reserves
      the output limit that both the configuration and the request allow. */
  lemma {:induction false} EveryRowIsRequested(baseline: nat, cap: nat, outputLimit: int, steps: seq<Step>)
    ensures AllBacked(steps, outputLimit, Exec(Init(baseline, cap), outputLimit, steps))
  {
    if steps != [] {
      var n := |steps| - 1;
      EveryRowIsRequested(baseline, cap, outputLimit, steps[..n]);
      NextAllBacked(steps, outputLimit, Exec(Init(baseline, cap), outputLimit, steps[..n]), steps[n]);
    }
  }

  /** So no row ever reserves more output than the configured limit. */
  lemma {:induction false} EveryLimitIsConfigured(baseline: nat, cap: nat, outputLimit: int, steps: seq<Step>)
    ensures forall r :: r in Exec(Init(baseline, cap), outputLimit, steps).db.rows ==> 0 < r.limit <= outputLimit
  {
    EveryRowIsRequested(baseline, cap, outputLimit, steps);
    var s := Exec(Init(baseline, cap), outputLimit, steps);
    forall r | r in s.db.rows
      ensures 0 < r.limit <= outputLimit
    {
      assert RowBacked(steps, outputLimit, r);
      var body :| Asked(steps, body, r.scope) && Acceptable(body, outputLimit)
        && GrantedFor(body, outputLimit, r.limit);
    }
  }

  // ----- what a restart settles -----

  /** Main result: a restart leaves no earlier row pending, ever after, and if one was, the
      gate is closed from then on. */
  lemma {:induction false} RestartSettles(baseline: nat, cap: nat, outputLimit: int, first: seq<Step>,
                                          second: seq<Step>)
    requires baseline < cap && !Exec(Init(baseline, cap), outputLimit, first).serving
    ensures var a := Exec(Init(baseline, cap), outputLimit, first);
      var b := Exec(Init(baseline, cap), outputLimit, first + [Restart(false)] + second);
      && |a.db.rows| <= |b.db.rows|
      && (forall i :: 0 <= i < |a.db.rows| ==> !b.db.rows[i].status.Reserved?)
      && ((exists rid :: Pending(a.db, rid)) ==> b.db.budget.halted.Some?)
  {
    var s0 := Init(baseline, cap);
    var a := Exec(s0, outputLimit, first);
    ExecSnoc(s0, outputLimit, first, Restart(false));
    ExecInv(baseline, cap, outputLimit, first);
    RecoverSound(a.db);
    RecoverOutcome(a.db);
    EveryRunEvolves(baseline, cap, outputLimit, first + [Restart(false)], second);
    assert forall i :: 0 <= i < |a.db.rows| ==>
      RowEvolves(RecoverTx(a.db).rows[i],
                 Exec(s0, outputLimit, first + [Restart(false)] + second).db.rows[i]);
  }

  // ----- what a closed gate stops -----

  ghost function Number(clients: seq<Client>, p: Client -> bool): nat {
    if clients == [] then 0 else Number(clients[..|clients| - 1], p) + if p(clients[|clients| - 1]) then 1 else 0
  }

  lemma {:induction false} NumberUpdate(clients: seq<Client>, i: nat, c: Client, p: Client -> bool)
    requires i < |clients|
    ensures Number(clients[i := c], p) + (if p(clients[i]) then 1 else 0) == Number(clients, p) + if p(c) then 1 else 0
  {
    var n := |clients| - 1;
    if i == n {
      assert clients[i := c][..n] == clients[..n];
    } else {
      assert clients[i := c][..n] == clients[..n][i := c];
      NumberUpdate(clients[..n], i, c, p);
    }
  }

  function IsAdmitted(c: Client): bool { c.Admitted? }

  function IsGated(c: Client): bool { c.Gated? }

  predicate Closed(s: System) { s.failure.Some? || s.db.budget.halted.Some? }

  /** The requests that may still reserve, and the rows there are. */
  ghost function Prospects(s: System): nat { |s.db.rows| + Number(s.clients, IsGated) }

  ghost predicate Shrinks(s: System, s': System) {
    Closed(s') && Prospects(s') <= Prospects(s) && Number(s'.clients, IsAdmitted) <= Number(s.clients, IsAdmitted)
  }

  lemma ClosedActShrinks(s: System, outputLimit: int, c: nat, a: Answer)
    requires Closed(s) && c < |s.clients|
    ensures Shrinks(s, Next(s, outputLimit, Act(c, a)))
  {
    var l := Local(s.clients[c], s.db, s.failure);
    var l' := ClientStep(l, outputLimit, a);
    NumberUpdate(s.clients, c, l'.client, IsGated);
    NumberUpdate(s.clients, c, l'.client, IsAdmitted);
  }

  lemma ClosedNextShrinks(s: System, outputLimit: int, step: Step)
    requires Closed(s) && s.serving && step != Crash
    ensures Shrinks(s, Next(s, outputLimit, step)) && Next(s, outputLimit, step).serving
  {
    match step
    case Act(c, a) =>
      if c < |s.clients| {
        ClosedActShrinks(s, outputLimit, c, a);
      }
    case Arrive(body, scope) =>
      assert (s.clients + [Arrived(body, scope)])[..|s.clients|] == s.clients;
    case Die(c) =>
      if c < |s.clients| {
        NumberUpdate(s.clients, c, Dead, IsGated);
        NumberUpdate(s.clients, c, Dead, IsAdmitted);
      }
    case _ =>
  }

  /** Main result: once the gate is closed, in the file or only in the memory of the
      serving process because the write failed, no request is let in until the process
      ends, and no row is added but for requests that had already passed their last check. */
  lemma {:induction false} ClosedGateStops(s: System, outputLimit: int, steps: seq<Step>)
    requires Closed(s) && s.serving && Crash !in steps
    ensures var s' := Exec(s, outputLimit, steps); s'.serving && Shrinks(s, s')
  {
    if steps != [] {
      var n := |steps| - 1;
      ClosedGateStops(s, outputLimit, steps[..n]);
      ClosedNextShrinks(Exec(s, outputLimit, steps[..n]), outputLimit, steps[n]);
    }
  }

  /** The latch closes with every refused write, so that this applies. */
  lemma RefusedWriteLatches(l: Local, outputLimit: int, a: Answer, b: Answer)
    requires ClientStep(l, outputLimit, a).client.Failing? && !l.client.Failing?
    ensures var l' := ClientStep(ClientStep(l, outputLimit, a), outputLimit, b);
      l'.failure.Some? && l'.client == Finished(Err(LedgerWriteFailed))
  {
  }

  // ----- one request from its arrival to its end -----

  lemma OneStep(l: Local, outputLimit: int, a: seq<Answer>, k: nat)
    requires k < |a|
    ensures Alone(l, outputLimit, a, k) == Alone(ClientStep(l, outputLimit, a[k]), outputLimit, a, k + 1)
  {
  }

  /** A step that finishes ends the request. */
  lemma LastStep(l: Local, outputLimit: int, a: seq<Answer>, k: nat)
    requires k < |a| && ClientStep(l, outputLimit, a[k]).client.Finished?
    ensures Alone(l, outputLimit, a, k) == ClientStep(l, outputLimit, a[k])
  {
    AloneFinished(ClientStep(l, outputLimit, a[k]), outputLimit, a, k + 1);
  }

  lemma FailingEnds(l: Local, outputLimit: int, a: seq<Answer>, k: nat)
    requires l.client.Failing? && k < |a|
    ensures var f := Alone(l, outputLimit, a, k);
      f.client == Finished(Err(LedgerWriteFailed)) && f.failure.Some? && f.db.rows == l.db.rows
      && (f.db.budget != l.db.budget ==> f.db.budget.halted.Some?)
  {
    LastStep(l, outputLimit, a, k);
  }

  lemma HaltingEnds(l: Local, outputLimit: int, a: seq<Answer>, k: nat)
    requires l.client.Halting? && k + 1 < |a|
    ensures var f := Alone(l, outputLimit, a, k);
      && f.client.Finished? && f.client.result.Err? && f.failure.Some? && f.db.rows == l.db.rows
      && (!a[k].fault ==> f.client.result.error == l.client.reason && f.db == HaltTx(l.db, l.client.reason))
  {
    if a[k].fault {
      OneStep(l, outputLimit, a, k);
      FailingEnds(ClientStep(l, outputLimit, a[k]), outputLimit, a, k + 1);
    } else {
      LastStep(l, outputLimit, a, k);
    }
  }

  predicate GateOpen(l: Local) { l.failure.None? && l.db.budget.halted.None? }

  predicate NoFaults(a: seq<Answer>) { forall k :: 0 <= k < |a| ==> !a[k].fault }

  /** How a request may leave the gate: as it was after a success, closed after a failure
      other than these two, and by a failure that could be written, for the reason that
      the caller is given. */
  predicate GateAfter(l: Local, f: Local, a: seq<Answer>) {
    && f.client.Finished?
    && (f.client.result.Ok? ==> f.db.budget == l.db.budget && f.failure == l.failure)
    && (f.client.result.Err? && f.client.result.error != InvalidRequest
        && f.client.result.error != InvalidTokenCount ==>
          !GateOpen(f) && (GateOpen(l) && NoFaults(a) ==> f.db.budget.halted == Some(f.client.result.error)))
  }

  /** What the provider's answer makes of a pending row, if it can be written. */
  function Accounted(row: Row, call: CallReply, fault: bool): Row {
    if call.CallNotObject? || fault then row
    else match call
      case CallRaised => row.(status := Uncertain, reason := Some(UpstreamResultUnknown))
      case CallBody(None, _) => row.(status := Uncertain, reason := Some(UsageMissing))
      case CallBody(Some(u), _) =>
        if !ValidUsage(u) then row.(status := Uncertain, reason := Some(InvalidUsage))
        else row.(status := Settled, charged := u.inputTokens.n + u.outputTokens.n,
                  actual := Some(u.inputTokens.n + u.outputTokens.n),
                  reason := if WithinReservation(row, u) then None else Some(UsageExceededReservation))
  }

  predicate WithinReservation(row: Row, u: Usage)
    requires ValidUsage(u)
  {
    u.inputTokens.n == row.input && u.outputTokens.n <= row.limit
  }

  /** The provider completed the response and used what was reserved for it. */
  predicate Served(row: Row, call: CallReply) {
    && call.CallBody? && call.completed && call.usage.Some?
    && ValidUsage(call.usage.value) && WithinReservation(row, call.usage.value)
  }

  lemma MarkingEnds(l: Local, outputLimit: int, a: seq<Answer>, rid: nat, reason: Code)
    requires l.client == Marking(rid, reason) && Pending(l.db, rid) && |a| == 8
    requires reason == UpstreamResultUnknown || reason == UsageMissing
    ensures var f := Alone(l, outputLimit, a, 5);
      && OnlyRow(l.db, f.db, rid) && GateAfter(l, f, a) && f.client.result.Err?
      && f.db.rows[rid - 1] == if a[5].fault then l.db.rows[rid - 1]
                               else l.db.rows[rid - 1].(status := Uncertain, reason := Some(reason))
  {
    UncertainOutcome(l.db, rid, reason);
    if a[5].fault {
      OneStep(l, outputLimit, a, 5);
      FailingEnds(ClientStep(l, outputLimit, a[5]), outputLimit, a, 6);
    } else {
      LastStep(l, outputLimit, a, 5);
    }
  }

  lemma SettlingEnds(l: Local, outputLimit: int, a: seq<Answer>, rid: nat, u: Usage, completed: bool)
    requires l.client == Settling(rid, u, completed) && Pending(l.db, rid) && Sound(l.db) && |a| == 8
    ensures var f := Alone(l, outputLimit, a, 5);
      var row, call := l.db.rows[rid - 1], CallBody(Some(u), completed);
      && OnlyRow(l.db, f.db, rid) && GateAfter(l, f, a)
      && f.db.rows[rid - 1] == Accounted(row, call, a[5].fault)
      && (f.client.result.Ok? <==> !a[5].fault && Served(row, call))
  {
    var l' := ClientStep(l, outputLimit, a[5]);
    OneStep(l, outputLimit, a, 5);
    if ValidUsage(u) {
      SettleOutcome(l.db, rid, u);
    } else {
      UncertainOutcome(l.db, rid, InvalidUsage);
    }
    if l'.client.Failing? {
      FailingEnds(l', outputLimit, a, 6);
    } else if l'.client.Halting? {
      HaltingEnds(l', outputLimit, a, 6);
    } else {
      AloneFinished(l', outputLimit, a, 6);
    }
  }

  /** A reserved request ends with its row accounted for, and succeeds exactly when the
      provider served it. */
  lemma HoldingEnds(l: Local, outputLimit: int, a: seq<Answer>, rid: nat)
    requires l.client == Holding(rid) && Pending(l.db, rid) && Sound(l.db) && |a| == 8
    ensures var f := Alone(l, outputLimit, a, 4);
      && OnlyRow(l.db, f.db, rid) && GateAfter(l, f, a)
      && f.db.rows[rid - 1] == Accounted(l.db.rows[rid - 1], a[4].call, a[5].fault)
      && (f.client.result.Ok? <==> !a[5].fault && Served(l.db.rows[rid - 1], a[4].call))
  {
    var l' := ClientStep(l, outputLimit, a[4]);
    OneStep(l, outputLimit, a, 4);
    match a[4].call
    case CallNotObject => AloneFinished(l', outputLimit, a, 5);
    case CallRaised => MarkingEnds(l', outputLimit, a, rid, UpstreamResultUnknown);
    case CallBody(None, _) => MarkingEnds(l', outputLimit, a, rid, UsageMissing);
    case CallBody(Some(u), completed) => SettlingEnds(l', outputLimit, a, rid, u, completed);
  }

  /** The gate is open, the ledger answers and the reservation fits under the cap. */
  ghost predicate Room(l: Local, a: seq<Answer>, n: nat, granted: nat)
    requires |a| == 8
  {
    && GateOpen(l) && !a[0].fault && !a[2].fault && !a[3].fault
    && Committed(l.db) + n + granted <= l.db.budget.cap
  }

  /** How a request for `n` input and `granted` output tokens ends. */
  ghost predicate Ends(l: Local, f: Local, a: seq<Answer>, n: nat, granted: int, scope: string)
    requires |a| == 8
  {
    && GateAfter(l, f, a)
    && if granted > 0 && Room(l, a, n, granted) then
         var row := Row(scope, n, granted, n + granted, None, Reserved, None);
         && f.db.rows == l.db.rows + [Accounted(row, a[4].call, a[5].fault)]
         && (f.client.result.Ok? <==> !a[5].fault && Served(row, a[4].call))
       else f.db.rows == l.db.rows && f.client.result.Err?
  }

  lemma GatedEnds(l: Local, outputLimit: int, a: seq<Answer>, n: nat, granted: nat, scope: string)
    requires l.client == Gated(n, granted, scope) && Sound(l.db) && |a| == 8 && granted > 0
    requires GateOpen(l) && !a[0].fault && !a[2].fault
    ensures Ends(l, Alone(l, outputLimit, a, 3), a, n, granted, scope)
  {
    var l' := ClientStep(l, outputLimit, a[3]);
    OneStep(l, outputLimit, a, 3);
    if a[3].fault {
      FailingEnds(l', outputLimit, a, 4);
    } else if l'.client.Holding? {
      ReserveSound(l.db, n, granted, scope);
      HoldingEnds(l', outputLimit, a, |l.db.rows| + 1);
    } else {
      AloneFinished(l', outputLimit, a, 4);
    }
  }

  lemma CountedEnds(l: Local, outputLimit: int, a: seq<Answer>, n: nat, granted: int, scope: string)
    requires l.client == Counted(n, granted, scope) && Sound(l.db) && |a| == 8 && GateOpen(l) && !a[0].fault
    ensures Ends(l, Alone(l, outputLimit, a, 2), a, n, granted, scope)
  {
    var l' := ClientStep(l, outputLimit, a[2]);
    OneStep(l, outputLimit, a, 2);
    if a[2].fault {
      FailingEnds(l', outputLimit, a, 3);
    } else if granted > 0 {
      GatedEnds(l', outputLimit, a, n, granted, scope);
    } else {
      AloneFinished(l', outputLimit, a, 3);
    }
  }

  /** What a request comes to: refused, it leaves no row; else it ends as counted, with
      the output limit that it was granted. */
  ghost predicate Outcome(l: Local, f: Local, outputLimit: int, a: seq<Answer>, body: Body, scope: string)
    requires |a| == 8
  {
    && GateAfter(l, f, a)
    && (if Acceptable(body, outputLimit) && (exists n: nat :: CountsTo(a[1], n)) then
          exists n: nat, granted: int ::
            CountsTo(a[1], n) && GrantedFor(body, outputLimit, granted) && Ends(l, f, a, n, granted, scope)
        else f.db.rows == l.db.rows && f.client.result.Err?)
  }

  lemma AdmittedEnds(l: Local, outputLimit: int, a: seq<Answer>, body: Body, scope: string)
    requires l.client == Admitted(body, scope) && Sound(l.db) && |a| == 8 && GateOpen(l) && !a[0].fault
    ensures Outcome(l, Alone(l, outputLimit, a, 1), outputLimit, a, body, scope)
  {
    var l' := ClientStep(l, outputLimit, a[1]);
    OneStep(l, outputLimit, a, 1);
    AdmissionGrants(l, outputLimit, a[1]);
    if l'.client.Counted? {
      CountedEnds(l', outputLimit, a, l'.client.input, l'.client.limit, scope);
      assert CountsTo(a[1], l'.client.input)
        && Ends(l, Alone(l', outputLimit, a, 2), a, l'.client.input, l'.client.limit, scope);
    } else {
      HaltingEnds(l', outputLimit, a, 2);
    }
  }

  /** Main result: how every request ends that meets an open gate. A body that cannot be
      accounted for, or no usable count, leaves no row. Otherwise one row is added exactly
      when the reservation fits; it succeeds exactly when the provider completed the
      response within it, and else the row is charged what was used, or in full if that is
      not known. A failure closes the gate, for the reason that the caller is given. */
  lemma {:induction false} RequestOutcome(l: Local, outputLimit: int, a: seq<Answer>, body: Body, scope: string)
    requires l.client == Arrived(body, scope) && Sound(l.db) && |a| == 8 && GateOpen(l) && !a[0].fault
    ensures Outcome(l, Alone(l, outputLimit, a, 0), outputLimit, a, body, scope)
  {
    var l' := ClientStep(l, outputLimit, a[0]);
    OneStep(l, outputLimit, a, 0);
    AdmittedEnds(l', outputLimit, a, body, scope);
    assert forall f, n, granted :: Ends(l', f, a, n, granted, scope) ==> Ends(l, f, a, n, granted, scope);
  }

  /** At a closed gate, or when it cannot be read, a request fails and adds nothing. */
  lemma {:induction false} ClosedRequestOutcome(l: Local, outputLimit: int, a: seq<Answer>, body: Body, scope: string)
    requires l.client == Arrived(body, scope) && |a| == 8 && (!GateOpen(l) || a[0].fault)
    ensures var f := Alone(l, outputLimit, a, 0);
      f.client.Finished? && f.client.result.Err? && f.db.rows == l.db.rows && !GateOpen(f)
  {
    var l' := ClientStep(l, outputLimit, a[0]);
    OneStep(l, outputLimit, a, 0);
    if l'.client.Failing? {
      FailingEnds(l', outputLimit, a, 1);
    } else {
      AloneFinished(l', outputLimit, a, 1);
    }
  }
}
