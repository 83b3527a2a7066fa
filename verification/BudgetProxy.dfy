/** The budget proxy: one request as a sequence of atomic steps, and the whole
    system of concurrent requests, a second process closing the gate, threads that
    die, crashes and restarts, and a provider that bills. */
module BudgetProxy {
  import opened Common
  import opened BudgetLedger

  datatype Body = Body(stateful: bool, maxOutputTokens: Json)

  datatype CountReply = CountRaised | CountBody(isCount: bool, inputTokens: Json)

  datatype CallReply = CallRaised | CallNotObject | CallBody(usage: Option<Usage>, completed: bool)

  /** What the world answers to one step: the upstream's replies and SQLite's verdict. */
  datatype Answer = Answer(count: CountReply, call: CallReply, fault: bool)

  /** The program counter of one request thread, with the locals it still needs. */
  datatype Client =
    | Arrived(body: Body, scope: string)
    | Admitted(body: Body, scope: string)
    | Counted(input: nat, limit: int, scope: string)
    | Gated(input: nat, granted: nat, scope: string)
    | Holding(rid: nat)
    | Marking(rid: nat, reason: Code)
    | Settling(rid: nat, usage: Usage, completed: bool)
    | Halting(reason: Code)
    | Failing
    | Finished(result: Result<(), Code>)
    | Dead

  function Falsy(v: Json): bool {
    v.Absent? || v == Int(0) || v == Other(false)
  }

  function RequestedLimit(body: Body, outputLimit: int): Json {
    if Falsy(body.maxOutputTokens) then Int(outputLimit) else body.maxOutputTokens
  }

  datatype Local = Local(client: Client, db: Db, failure: Option<Code>)

  /** One atomic step of one request thread. */
  ghost function ClientStep(l: Local, outputLimit: int, a: Answer): Local {
    match l.client
    case Arrived(body, scope) =>
      var gate := Gate(l.failure, l.db, a.fault);
      l.(client :=
        if gate == Err(StorageFault) then Failing
        else if gate.Err? then Finished(gate)
        else Admitted(body, scope))
    case Admitted(body, scope) =>
      var limit := RequestedLimit(body, outputLimit);
      l.(client :=
        if body.stateful then Halting(UnsupportedRequest)
        else if !limit.Int? || limit.n <= 0 then Halting(InvalidOutputLimit)
        else if a.count.CountBody? && a.count.isCount && a.count.inputTokens.Int? && a.count.inputTokens.n >= 0
        then Counted(a.count.inputTokens.n, Min(limit.n, outputLimit), scope)
        else Halting(InputCountFailed))
    case Counted(input, limit, scope) =>
      var gate := Gate(l.failure, l.db, a.fault);
      l.(client :=
        if gate == Err(StorageFault) then Failing
        else if gate.Err? then Finished(gate)
        else if limit <= 0 then Finished(Err(InvalidTokenCount))
        else Gated(input, limit, scope))
    case Gated(input, granted, scope) =>
      if a.fault then l.(client := Failing)
      else
        var (db', r) := ReserveTx(l.db, input, granted, scope);
        l.(db := db', client := if r.Ok? then Holding(r.value) else Finished(Err(r.error)))
    case Holding(rid) =>
      l.(client :=
        match a.call
        case CallRaised => Marking(rid, UpstreamResultUnknown)
        case CallNotObject => Finished(Err(InvalidRequest))
        case CallBody(None, _) => Marking(rid, UsageMissing)
        case CallBody(Some(usage), completed) => Settling(rid, usage, completed))
    case Marking(rid, reason) =>
      if a.fault then l.(client := Failing)
      else l.(db := UncertainTx(l.db, rid, reason), client := Finished(Err(reason)))
    case Settling(rid, usage, completed) =>
      if a.fault then l.(client := Failing)
      else if !ValidUsage(usage) then
        l.(db := UncertainTx(l.db, rid, InvalidUsage), client := Finished(Err(InvalidUsage)))
      else
        var (db', r) := SettleTx(l.db, rid, usage);
        l.(db := db',
           client := if r.Err? then Finished(r)
                     else if completed then Finished(Ok(()))
                     else Halting(ResponseNotCompleted))
    case Halting(reason) =>
      l.(failure := Coalesce(l.failure, reason),
         db := if a.fault then l.db else HaltTx(l.db, reason),
         client := if a.fault then Failing else Finished(Err(reason)))
    case Failing =>
      l.(failure := Coalesce(l.failure, LedgerWriteFailed),
         db := if a.fault then l.db else HaltTx(l.db, LedgerWriteFailed),
         client := Finished(Err(LedgerWriteFailed)))
    case _ => l
  }

  // ----- the whole system -----

  /** `billed[i]` is ghost truth: what the provider really charged for row i. */
  datatype System = System(
    db: Db, failure: Option<Code>, serving: bool, clients: seq<Client>,
    billed: seq<Option<(nat, nat)>>)

  datatype Step =
    | Arrive(body: Body, scope: string)
    | Act(c: nat, answer: Answer)
    | Die(c: nat)
    | CloseElsewhere(reason: Code)              // another process, such as the close command
    | CloseHere(reason: Code, fault: bool)      // the HTTP handler of this process
    | Crash
    | Restart(fault: bool)
    | Bill(rid: nat, input: nat, output: nat)

  ghost function Next(s: System, outputLimit: int, step: Step): System {
    match step
    case Arrive(body, scope) =>
      if s.serving then s.(clients := s.clients + [Arrived(body, scope)]) else s
    case Act(c, a) =>
      if c >= |s.clients| then s
      else
        var l := ClientStep(Local(s.clients[c], s.db, s.failure), outputLimit, a);
        s.(db := l.db, failure := l.failure, clients := s.clients[c := l.client],
           billed := if |l.db.rows| > |s.db.rows| then s.billed + [None] else s.billed)
    case Die(c) =>
      if c >= |s.clients| then s else s.(clients := s.clients[c := Dead])
    case CloseElsewhere(reason) => s.(db := HaltTx(s.db, reason))
    case CloseHere(reason, fault) =>
      if !s.serving then s
      else s.(failure := Coalesce(s.failure, reason), db := if fault then s.db else HaltTx(s.db, reason))
    case Crash => s.(serving := false, clients := [], failure := None)
    case Restart(fault) =>
      if s.serving || fault then s
      else s.(db := RecoverTx(s.db), serving := true, failure := None)
    case Bill(rid, input, output) =>
      if 1 <= rid <= |s.billed| && s.billed[rid - 1] == None
      then s.(billed := s.billed[rid - 1 := Some((input, output))]) else s
  }

  ghost function Init(baseline: nat, cap: nat): System {
    System(Db(Budget(baseline, cap, None), []), None, false, [], [])
  }

  ghost function Exec(s: System, outputLimit: int, steps: seq<Step>): System {
    if steps == [] then s
    else Next(Exec(s, outputLimit, steps[..|steps| - 1]), outputLimit, steps[|steps| - 1])
  }

  // ----- invariants of every run, whatever the provider does -----

  predicate Owns(c: Client) { c.Holding? || c.Marking? || c.Settling? }

  predicate Owned(db: Db, c: Client) {
    Owns(c) ==> 1 <= c.rid <= |db.rows| && db.rows[c.rid - 1].status.Reserved?
  }

  /** No thread ever ends because its row was missing or already settled. */
  predicate Tidy(c: Client) {
    && (c.Marking? ==> c.reason == UpstreamResultUnknown || c.reason == UsageMissing)
    && (c.Halting? ==> c.reason in {UnsupportedRequest, InvalidOutputLimit, InputCountFailed, ResponseNotCompleted})
    && (c.Finished? ==> c.result != Err(RequestAlreadySettled) && c.result != Err(NoSuchRequest))
  }

  ghost predicate Inv(s: System) {
    && Sound(s.db)
    && |s.billed| == |s.db.rows|
    && (!s.serving ==> s.clients == [])
    && (forall i :: 0 <= i < |s.clients| ==> Owned(s.db, s.clients[i]) && Tidy(s.clients[i]))
    && (forall i, j :: 0 <= i < j < |s.clients| && Owns(s.clients[i]) && Owns(s.clients[j]) ==>
          s.clients[i].rid != s.clients[j].rid)
  }

  /** What one thread's step does to the ledger: it touches no row but its own, and
      the row it owns afterwards is the one it had or the one it just added. */
  ghost predicate StepEffect(l: Local, l': Local) {
    && Sound(l'.db) && Evolves(l.db, l'.db) && |l'.db.rows| <= |l.db.rows| + 1
    && Owned(l'.db, l'.client) && Tidy(l'.client)
    && (Owns(l'.client) ==>
          if Owns(l.client) then l'.client.rid == l.client.rid else l'.client.rid == |l.db.rows| + 1)
    && (forall i :: 0 <= i < |l.db.rows| && !(Owns(l.client) && l.client.rid == i + 1) ==>
        l'.db.rows[i] == l.db.rows[i])
  }

  lemma GatedEffect(l: Local, outputLimit: int, a: Answer)
    requires Sound(l.db) && l.client.Gated?
    ensures StepEffect(l, ClientStep(l, outputLimit, a))
  {
    ReserveSound(l.db, l.client.input, l.client.granted, l.client.scope);
    ReserveEvolves(l.db, l.client.input, l.client.granted, l.client.scope);
  }

  lemma MarkingEffect(l: Local, outputLimit: int, a: Answer)
    requires Sound(l.db) && Owned(l.db, l.client) && l.client.Marking? && Tidy(l.client)
    ensures StepEffect(l, ClientStep(l, outputLimit, a))
  {
    UncertainSound(l.db, l.client.rid, l.client.reason);
    UncertainEvolves(l.db, l.client.rid, l.client.reason);
  }

  lemma SettlingEffect(l: Local, outputLimit: int, a: Answer)
    requires Sound(l.db) && Owned(l.db, l.client) && l.client.Settling?
    ensures StepEffect(l, ClientStep(l, outputLimit, a))
  {
    if ValidUsage(l.client.usage) {
      SettleSound(l.db, l.client.rid, l.client.usage);
      SettleEvolves(l.db, l.client.rid, l.client.usage);
    } else {
      UncertainSound(l.db, l.client.rid, InvalidUsage);
      UncertainEvolves(l.db, l.client.rid, InvalidUsage);
    }
  }

  lemma {:induction false} ClientStepEffect(l: Local, outputLimit: int, a: Answer)
    requires Sound(l.db) && Owned(l.db, l.client) && Tidy(l.client)
    ensures StepEffect(l, ClientStep(l, outputLimit, a))
  {
    match l.client
    case Gated(_, _, _) => GatedEffect(l, outputLimit, a);
    case Marking(_, _) => MarkingEffect(l, outputLimit, a);
    case Settling(_, _, _) => SettlingEffect(l, outputLimit, a);
    case _ =>
  }

  lemma ActKeepsOwnership(s: System, outputLimit: int, c: nat, a: Answer)
    requires Inv(s) && c < |s.clients|
    ensures var s' := Next(s, outputLimit, Act(c, a));
      && (forall i :: 0 <= i < |s'.clients| ==> Owned(s'.db, s'.clients[i]) && Tidy(s'.clients[i]))
      && (forall i, j :: 0 <= i < j < |s'.clients| && Owns(s'.clients[i]) && Owns(s'.clients[j]) ==>
            s'.clients[i].rid != s'.clients[j].rid)
  {
    ClientStepEffect(Local(s.clients[c], s.db, s.failure), outputLimit, a);
    var s' := Next(s, outputLimit, Act(c, a));
    forall i | 0 <= i < |s'.clients|
      ensures Owned(s'.db, s'.clients[i]) && Tidy(s'.clients[i])
    {
      if i != c {
        assert s'.clients[i] == s.clients[i] && Owned(s.db, s.clients[i]) && Tidy(s.clients[i]);
      }
    }
    forall i, j | 0 <= i < j < |s'.clients| && Owns(s'.clients[i]) && Owns(s'.clients[j])
      ensures s'.clients[i].rid != s'.clients[j].rid
    {
      assert i != c ==> s'.clients[i] == s.clients[i] && Owned(s.db, s.clients[i]);
      assert j != c ==> s'.clients[j] == s.clients[j] && Owned(s.db, s.clients[j]);
    }
  }

  lemma RestartKeepsInv(s: System, outputLimit: int, fault: bool)
    requires Inv(s)
    ensures Inv(Next(s, outputLimit, Restart(fault))) && Evolves(s.db, Next(s, outputLimit, Restart(fault)).db)
  {
    RecoverSound(s.db);
    RecoverEvolves(s.db);
  }

  lemma {:induction false} NextKeepsInv(s: System, outputLimit: int, step: Step)
    requires Inv(s)
    ensures Inv(Next(s, outputLimit, step)) && Evolves(s.db, Next(s, outputLimit, step).db)
  {
    match step
    case Act(c, a) =>
      if c < |s.clients| {
        ClientStepEffect(Local(s.clients[c], s.db, s.failure), outputLimit, a);
        ActKeepsOwnership(s, outputLimit, c, a);
      }
    case Restart(fault) => RestartKeepsInv(s, outputLimit, fault);
    case _ =>
  }

  lemma {:induction false} ExecEvolves(s: System, outputLimit: int, steps: seq<Step>)
    requires Inv(s)
    ensures Inv(Exec(s, outputLimit, steps)) && Evolves(s.db, Exec(s, outputLimit, steps).db)
  {
    if steps != [] {
      var before := Exec(s, outputLimit, steps[..|steps| - 1]);
      ExecEvolves(s, outputLimit, steps[..|steps| - 1]);
      NextKeepsInv(before, outputLimit, steps[|steps| - 1]);
      EvolvesTransitive(s.db, before.db, Exec(s, outputLimit, steps).db);
    }
  }

  lemma {:induction false} ExecInv(baseline: nat, cap: nat, outputLimit: int, steps: seq<Step>)
    requires baseline < cap
    ensures Inv(Exec(Init(baseline, cap), outputLimit, steps))
  {
    ExecEvolves(Init(baseline, cap), outputLimit, steps);
  }

  lemma {:induction false} ExecAppend(s: System, outputLimit: int, first: seq<Step>, second: seq<Step>)
    ensures Exec(s, outputLimit, first + second) == Exec(Exec(s, outputLimit, first), outputLimit, second)
  {
    if second == [] {
      assert first + second == first;
    } else {
      var n := |second| - 1;
      assert (first + second)[..|first| + n] == first + second[..n];
      ExecAppend(s, outputLimit, first, second[..n]);
    }
  }

  /** Main result, no assumption on the provider: at every moment of every run the
      part of the charges that reservations cover fits under the cap, and the figures
      of the ledger add up. */
  lemma {:induction false} EveryRunStaysCovered(baseline: nat, cap: nat, outputLimit: int, steps: seq<Step>)
    requires baseline < cap
    ensures var db := Exec(Init(baseline, cap), outputLimit, steps).db;
      && db.budget.baseline + Sum(db.rows, Covered) <= db.budget.cap
      && Sum(db.rows, Charged) == Sum(db.rows, Actual) + Sum(db.rows, InFlight) + Sum(db.rows, Unknown)
      && (Committed(db) > db.budget.cap ==>
            db.budget.halted.Some? && exists i :: 0 <= i < |db.rows| && Violated(db.rows[i]))
  {
    ExecInv(baseline, cap, outputLimit, steps);
    var db := Exec(Init(baseline, cap), outputLimit, steps).db;
    CommittedSplits(db.rows);
    if Committed(db) > db.budget.cap {
      OverspendIsHaltedViolation(db);
    }
  }

  /** Main result: between any two moments of a run the ledger only evolves; with
      EveryRunDrainsAfterHalt, after a halt nothing is added or grows in flight. */
  lemma EveryRunEvolves(baseline: nat, cap: nat, outputLimit: int, first: seq<Step>, second: seq<Step>)
    requires baseline < cap
    ensures Evolves(Exec(Init(baseline, cap), outputLimit, first).db,
                    Exec(Init(baseline, cap), outputLimit, first + second).db)
  {
    ExecInv(baseline, cap, outputLimit, first);
    ExecAppend(Init(baseline, cap), outputLimit, first, second);
    ExecEvolves(Exec(Init(baseline, cap), outputLimit, first), outputLimit, second);
  }

  lemma EveryRunDrainsAfterHalt(baseline: nat, cap: nat, outputLimit: int, first: seq<Step>, second: seq<Step>)
    requires baseline < cap
    requires Exec(Init(baseline, cap), outputLimit, first).db.budget.halted.Some?
    ensures var a := Exec(Init(baseline, cap), outputLimit, first).db;
      var b := Exec(Init(baseline, cap), outputLimit, first + second).db;
      b.budget.halted.Some? && |b.rows| == |a.rows| && Sum(b.rows, InFlight) <= Sum(a.rows, InFlight)
  {
    EveryRunEvolves(baseline, cap, outputLimit, first, second);
    HaltedInFlightShrinks(Exec(Init(baseline, cap), outputLimit, first).db,
                          Exec(Init(baseline, cap), outputLimit, first + second).db);
  }

  // ----- a provider that keeps its contract -----

  /** The provider bills the counted input and at most the output limit, at any time
      and at most once, and a usable usage figure in a reply is the bill. */
  ghost predicate Honest(s: System, step: Step) {
    match step
    case Bill(rid, input, output) =>
      1 <= rid <= |s.db.rows| ==> input == s.db.rows[rid - 1].input && output <= s.db.rows[rid - 1].limit
    case Act(c, a) =>
      c < |s.clients| && s.clients[c].Holding? && a.call.CallBody? && a.call.usage.Some? ==>
        Truthful(s.billed, s.clients[c].rid, a.call.usage.value)
    case _ => true
  }

  predicate Truthful(billed: seq<Option<(nat, nat)>>, rid: nat, u: Usage) {
    ValidUsage(u) ==>
      1 <= rid <= |billed| && billed[rid - 1] == Some((u.inputTokens.n, u.outputTokens.n))
  }

  ghost predicate HonestRun(s: System, outputLimit: int, steps: seq<Step>) {
    steps == [] ||
    (&& HonestRun(s, outputLimit, steps[..|steps| - 1])
     && Honest(Exec(s, outputLimit, steps[..|steps| - 1]), steps[|steps| - 1]))
  }

  function Spent(b: Option<(nat, nat)>): nat {
    if b.Some? then b.value.0 + b.value.1 else 0
  }

  ghost function TotalSpent(billed: seq<Option<(nat, nat)>>): nat {
    if billed == [] then 0 else TotalSpent(billed[..|billed| - 1]) + Spent(billed[|billed| - 1])
  }

  predicate RowHonest(r: Row, b: Option<(nat, nat)>) {
    && !Violated(r)
    && (b.Some? ==> b.value.0 == r.input && b.value.1 <= r.limit)
    && (r.status.Settled? ==> b.Some? && Spent(b) == r.charged)
  }

  ghost predicate HonestInv(s: System) {
    && Inv(s)
    && (forall i :: 0 <= i < |s.billed| ==> RowHonest(s.db.rows[i], s.billed[i]))
    && (forall i :: 0 <= i < |s.clients| && s.clients[i].Settling? ==>
        Truthful(s.billed, s.clients[i].rid, s.clients[i].usage))
  }

  lemma ActKeepsRowsHonest(s: System, outputLimit: int, c: nat, a: Answer)
    requires HonestInv(s) && c < |s.clients|
    ensures var s' := Next(s, outputLimit, Act(c, a));
      |s'.billed| == |s'.db.rows| && forall i :: 0 <= i < |s'.billed| ==> RowHonest(s'.db.rows[i], s'.billed[i])
  {
    var l := Local(s.clients[c], s.db, s.failure);
    ClientStepEffect(l, outputLimit, a);
    var s' := Next(s, outputLimit, Act(c, a));
    forall i | 0 <= i < |s'.billed|
      ensures RowHonest(s'.db.rows[i], s'.billed[i])
    {
      if i < |s.db.rows| {
        assert RowHonest(s.db.rows[i], s.billed[i]) && RowOk(s.db.rows[i]);
        assert s'.billed[i] == s.billed[i];
      }
    }
  }

  lemma ActKeepsTruthful(s: System, outputLimit: int, c: nat, a: Answer)
    requires HonestInv(s) && Honest(s, Act(c, a)) && c < |s.clients|
    ensures var s' := Next(s, outputLimit, Act(c, a));
      forall i :: 0 <= i < |s'.clients| && s'.clients[i].Settling? ==>
        Truthful(s'.billed, s'.clients[i].rid, s'.clients[i].usage)
  {
  }

  lemma RestartKeepsHonest(s: System, outputLimit: int, fault: bool)
    requires HonestInv(s)
    ensures HonestInv(Next(s, outputLimit, Restart(fault)))
  {
    RestartKeepsInv(s, outputLimit, fault);
    assert forall i :: 0 <= i < |s.billed| ==> RowHonest(s.db.rows[i], s.billed[i]);
  }

  lemma ThreadsComeAndGoHonestly(s: System, outputLimit: int, step: Step)
    requires HonestInv(s) && (step.Arrive? || step.Die? || step.Crash?)
    ensures HonestInv(Next(s, outputLimit, step))
  {
  }

  lemma {:induction false} NextKeepsHonest(s: System, outputLimit: int, step: Step)
    requires HonestInv(s) && Honest(s, step)
    ensures HonestInv(Next(s, outputLimit, step))
  {
    match step
    case Act(c, a) =>
      if c < |s.clients| {
        NextKeepsInv(s, outputLimit, step);
        ActKeepsRowsHonest(s, outputLimit, c, a);
        ActKeepsTruthful(s, outputLimit, c, a);
      }
    case Restart(fault) => RestartKeepsHonest(s, outputLimit, fault);
    case Arrive(_, _) => ThreadsComeAndGoHonestly(s, outputLimit, step);
    case Die(_) => ThreadsComeAndGoHonestly(s, outputLimit, step);
    case Crash => ThreadsComeAndGoHonestly(s, outputLimit, step);
    case _ =>
  }

  lemma {:induction false} SpentLeqCharged(rows: seq<Row>, billed: seq<Option<(nat, nat)>>)
    requires |rows| == |billed|
    requires forall i :: 0 <= i < |rows| ==> Spent(billed[i]) <= Charged(rows[i])
    ensures TotalSpent(billed) <= Sum(rows, Charged)
  {
    if rows != [] {
      SpentLeqCharged(rows[..|rows| - 1], billed[..|rows| - 1]);
    }
  }

  lemma {:induction false} ExecHonest(baseline: nat, cap: nat, outputLimit: int, steps: seq<Step>)
    requires baseline < cap && HonestRun(Init(baseline, cap), outputLimit, steps)
    ensures HonestInv(Exec(Init(baseline, cap), outputLimit, steps))
  {
    if steps != [] {
      ExecHonest(baseline, cap, outputLimit, steps[..|steps| - 1]);
      NextKeepsHonest(Exec(Init(baseline, cap), outputLimit, steps[..|steps| - 1]), outputLimit, steps[|steps| - 1]);
    }
  }

  /** Main result: with a provider that keeps its contract, through every
      interleaving, crash and restart, no request costs more than its row charges
      and everything really spent fits under the cap. */
  lemma {:induction false} EveryRunSpendsWithinCap(baseline: nat, cap: nat, outputLimit: int, steps: seq<Step>)
    requires baseline < cap && HonestRun(Init(baseline, cap), outputLimit, steps)
    ensures var s := Exec(Init(baseline, cap), outputLimit, steps);
      && |s.billed| == |s.db.rows|
      && (forall i :: 0 <= i < |s.billed| ==> Spent(s.billed[i]) <= s.db.rows[i].charged)
      && s.db.budget.baseline + TotalSpent(s.billed) <= Committed(s.db) <= s.db.budget.cap
  {
    ExecHonest(baseline, cap, outputLimit, steps);
    var s := Exec(Init(baseline, cap), outputLimit, steps);
    forall i | 0 <= i < |s.billed|
      ensures Spent(s.billed[i]) <= Charged(s.db.rows[i])
    {
      assert RowHonest(s.db.rows[i], s.billed[i]) && RowOk(s.db.rows[i]);
    }
    SpentLeqCharged(s.db.rows, s.billed);
    assert forall i :: 0 <= i < |s.billed| ==> RowHonest(s.db.rows[i], s.billed[i]);
    if Committed(s.db) > s.db.budget.cap {
      OverspendIsHaltedViolation(s.db);
      assert false;
    }
  }

  lemma ExecSnoc(s: System, outputLimit: int, steps: seq<Step>, step: Step)
    ensures Exec(s, outputLimit, steps + [step]) == Next(Exec(s, outputLimit, steps), outputLimit, step)
  {
  }

  /** A request for 5 counted tokens and 10 output tokens, up to its reservation. */
  lemma ReachesHolding(a: Answer, steps: seq<Step>)
    requires a.count == CountBody(true, Int(5)) && !a.fault
    requires steps ==
      [Restart(false), Arrive(Body(false, Absent), "decision"), Act(0, a), Act(0, a), Act(0, a), Act(0, a)]
    ensures Exec(Init(0, 20), 10, steps)
         == System(Db(Budget(0, 20, None), [Row("decision", 5, 10, 15, None, Reserved, None)]), None, true,
                   [Holding(1)], [None])
  {
    var s0 := Init(0, 20);
    var s2 := s0.(serving := true, clients := [Arrived(Body(false, Absent), "decision")]);
    assert RecoverTx(s0.db) == s0.db;
    assert steps[..1] == [] + [steps[0]] && steps[..2] == steps[..1] + [steps[1]]
      && steps[..3] == steps[..2] + [steps[2]];
    assert steps[..4] == steps[..3] + [steps[3]] && steps[..5] == steps[..4] + [steps[4]]
      && steps == steps[..5] + [steps[5]];
    ExecSnoc(s0, 10, [], steps[0]);
    ExecSnoc(s0, 10, steps[..1], steps[1]);
    assert Exec(s0, 10, steps[..2]) == s2;
    ExecSnoc(s0, 10, steps[..2], steps[2]);
    assert Exec(s0, 10, steps[..3]) == s2.(clients := [Admitted(Body(false, Absent), "decision")]);
    ExecSnoc(s0, 10, steps[..3], steps[3]);
    assert Exec(s0, 10, steps[..4]) == s2.(clients := [Counted(5, 10, "decision")]);
    ExecSnoc(s0, 10, steps[..4], steps[4]);
    assert Exec(s0, 10, steps[..5]) == s2.(clients := [Gated(5, 10, "decision")]);
    ExecSnoc(s0, 10, steps[..5], steps[5]);
  }

  /** The call returns a usage of 45 tokens and the thread settles it. */
  lemma SettlesOver(s: System, a: Answer)
    requires a.call == CallBody(Some(Usage(Int(5), Int(40), Int(45))), true) && !a.fault
    requires s == System(Db(Budget(0, 20, None), [Row("decision", 5, 10, 15, None, Reserved, None)]), None, true,
                         [Holding(1)], [None])
    ensures Next(Next(s, 10, Act(0, a)), 10, Act(0, a)).db
         == Db(Budget(0, 20, Some(UsageExceededReservation)),
               [Row("decision", 5, 10, 45, Some(45), Settled, Some(UsageExceededReservation))])
  {
    assert Next(s, 10, Act(0, a)) == s.(clients := [Settling(1, Usage(Int(5), Int(40), Int(45)), true)]);
  }

  /** The contract is needed: a provider that reports more than the output limit
      drives the committed total past the cap, with the gate closed only afterwards. */
  lemma BrokenContractOverspends()
    ensures exists steps :: var db := Exec(Init(0, 20), 10, steps).db;
      Committed(db) > db.budget.cap && db.budget.halted == Some(UsageExceededReservation)
  {
    var a := Answer(CountBody(true, Int(5)), CallBody(Some(Usage(Int(5), Int(40), Int(45))), true), false);
    var steps := [Restart(false), Arrive(Body(false, Absent), "decision"), Act(0, a), Act(0, a), Act(0, a), Act(0, a)];
    ReachesHolding(a, steps);
    SettlesOver(Exec(Init(0, 20), 10, steps), a);
    ExecSnoc(Init(0, 20), 10, steps, Act(0, a));
    ExecSnoc(Init(0, 20), 10, steps + [Act(0, a)], Act(0, a));
    var db := Exec(Init(0, 20), 10, steps + [Act(0, a)] + [Act(0, a)]).db;
    assert Sum(db.rows[..0], Charged) == 0;
  }

  // ----- the request method of the proxy object -----

  /** One thread run on its own, from its k-th answer on. */
  ghost function Alone(l: Local, outputLimit: int, a: seq<Answer>, k: nat): Local
    decreases |a| - k
  {
    if k >= |a| then l else Alone(ClientStep(l, outputLimit, a[k]), outputLimit, a, k + 1)
  }

  lemma {:induction false} AloneFinished(l: Local, outputLimit: int, a: seq<Answer>, k: nat)
    requires l.client.Finished?
    ensures Alone(l, outputLimit, a, k) == l
    decreases |a| - k
  {
    if k < |a| {
      AloneFinished(l, outputLimit, a, k + 1);
    }
  }

  class Proxy {
    const ledger: Ledger
    const outputLimit: int

    constructor (ledger: Ledger, outputLimit: int)
      ensures this.ledger == ledger && this.outputLimit == outputLimit
    {
      this.ledger := ledger;
      this.outputLimit := outputLimit;
    }

    ghost function At(client: Client): Local
      requires ledger.store.budget.Some?
      reads ledger, ledger.store
    {
      Local(client, ledger.store.Contents(), ledger.failure)
    }

    /** The public entry: a storage error closes the gate, in memory at least. The
        eight answers are one per atomic step of the longest path. */
    method Request(body: Body, scope: string, a: seq<Answer>) returns (r: Result<(), Code>)
      requires ledger.store.budget.Some? && |a| == 8
      modifies ledger, ledger.store
      ensures ledger.store.budget.Some?
      ensures At(Finished(r)) == Alone(old(At(Arrived(body, scope))), outputLimit, a, 0)
    {
      var k;
      r, k := Attempt(body, scope, a);
      if r == Err(StorageFault) {
        var _ := ledger.Halt(LedgerWriteFailed, a[k].fault);
        r := Err(LedgerWriteFailed);
        AloneFinished(At(Finished(r)), outputLimit, a, k + 1);
      } else {
        AloneFinished(At(Finished(r)), outputLimit, a, k);
      }
    }

    /** Check the gate, count, reserve, deliver; `k` answers are used up. */
    method Attempt(body: Body, scope: string, a: seq<Answer>) returns (r: Result<(), Code>, k: nat)
      requires ledger.store.budget.Some? && |a| == 8
      modifies ledger, ledger.store
      ensures ledger.store.budget.Some? && k <= 8
      ensures r == Err(StorageFault) ==> k < 8
      ensures Alone(old(At(Arrived(body, scope))), outputLimit, a, 0)
           == Alone(At(if r == Err(StorageFault) then Failing else Finished(r)), outputLimit, a, k)
    {
      r := ledger.CheckOpen(a[0].fault);
      if r.Err? {
        return r, 1;
      }
      assert Alone(old(At(Arrived(body, scope))), outputLimit, a, 0) ==
        Alone(At(Admitted(body, scope)), outputLimit, a, 1);
      var counted := Count(body, scope, a);
      if counted.Err? {
        return Err(counted.error), 3;
      }
      var (input, granted) := counted.value;
      var gated := ledger.failure.None? && !a[2].fault && ledger.store.budget.value.halted.None? && granted > 0;
      assert gated ==>
        Alone(At(Counted(input, granted, scope)), outputLimit, a, 2)
        == Alone(At(Gated(input, granted, scope)), outputLimit, a, 3);
      var reserved := ledger.Reserve(Int(input), Int(granted), scope, a[2].fault, a[3].fault);
      if reserved.Err? {
        return Err(reserved.error), if gated then 4 else 3;
      }
      assert Alone(old(At(Arrived(body, scope))), outputLimit, a, 0) ==
        Alone(At(Holding(reserved.value)), outputLimit, a, 4);
      r, k := Deliver(reserved.value, a);
    }

    /** Reject what the proxy cannot account for and ask the provider for the input count. */
    method Count(body: Body, scope: string, a: seq<Answer>) returns (r: Result<(nat, int), Code>)
      requires ledger.store.budget.Some? && |a| == 8
      modifies ledger, ledger.store
      ensures ledger.store.budget.Some?
      ensures Alone(old(At(Admitted(body, scope))), outputLimit, a, 1)
           == if r.Ok? then Alone(At(Counted(r.value.0, r.value.1, scope)), outputLimit, a, 2)
              else Alone(At(if r.error == StorageFault then Failing else Finished(Err(r.error))), outputLimit, a, 3)
    {
      var refused := None;
      var limit := RequestedLimit(body, outputLimit);
      var count := a[1].count;
      if body.stateful {
        refused := Some(UnsupportedRequest);
      } else if !limit.Int? || limit.n <= 0 {
        refused := Some(InvalidOutputLimit);
      } else if !(count.CountBody? && count.isCount && count.inputTokens.Int? && count.inputTokens.n >= 0) {
        refused := Some(InputCountFailed);
      }
      if refused.Some? {
        assert ClientStep(At(Admitted(body, scope)), outputLimit, a[1]) == At(Halting(refused.value));
        var halted := HaltAndRaise(refused.value, a, 2);
        return Err(halted.error);
      }
      r := Ok((count.inputTokens.n, Min(limit.n, outputLimit)));
    }

    /** Post a reserved request and account for whatever comes back. */
    method Deliver(rid: nat, a: seq<Answer>) returns (r: Result<(), Code>, k: nat)
      requires ledger.store.budget.Some? && |a| == 8
      modifies ledger, ledger.store
      ensures ledger.store.budget.Some? && k < 8
      ensures Alone(old(At(Holding(rid))), outputLimit, a, 4)
           == Alone(At(if r == Err(StorageFault) then Failing else Finished(r)), outputLimit, a, k)
    {
      var call := a[4].call;
      if call.CallNotObject? {
        return Err(InvalidRequest), 5;
      }
      if call.CallRaised? || call.usage.None? {
        var reason := if call.CallRaised? then UpstreamResultUnknown else UsageMissing;
        assert Alone(At(Holding(rid)), outputLimit, a, 4) == Alone(At(Marking(rid, reason)), outputLimit, a, 5);
        r := ledger.MarkUncertain(rid, reason, a[5].fault);
        return if r.Ok? then Err(reason) else r, 6;
      }
      assert Alone(At(Holding(rid)), outputLimit, a, 4) ==
        Alone(At(Settling(rid, call.usage.value, call.completed)), outputLimit, a, 5);
      r := ledger.Settle(rid, call.usage.value, a[5].fault);
      k := 6;
      if r.Ok? && !call.completed {
        assert Alone(old(At(Holding(rid))), outputLimit, a, 4) ==
          Alone(At(Halting(ResponseNotCompleted)), outputLimit, a, 6);
        r := HaltAndRaise(ResponseNotCompleted, a, 6);
        k := 7;
      }
    }

    method HaltAndRaise(reason: Code, a: seq<Answer>, k: nat) returns (r: Result<(), Code>)
      requires ledger.store.budget.Some? && k < |a| && reason != StorageFault
      modifies ledger, ledger.store
      ensures ledger.store.budget.Some?
      ensures r == Err(if a[k].fault then StorageFault else reason)
      ensures Alone(old(At(Halting(reason))), outputLimit, a, k)
           == Alone(At(if a[k].fault then Failing else Finished(r)), outputLimit, a, k + 1)
    {
      r := ledger.Halt(reason, a[k].fault);
      if r.Ok? {
        r := Err(reason);
      }
    }
  }
}
