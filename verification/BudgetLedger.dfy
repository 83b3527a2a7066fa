/** The shared token-budget ledger: one budget row, one row per request, and the
    transactions that the Ledger class of budget_proxy.py runs on them.
    Each SQLite transaction is one function from a database value to the next;
    the class methods below are proved to perform exactly these transactions. */
module BudgetLedger {
  import opened Common

  /** Halt reasons and error names that the program writes or raises. */
  datatype Code =
    | BudgetGateClosed | InvalidTokenCount | InsufficientTokenBudget
    | OwnerRestarted | InvalidUsage | RequestAlreadySettled | NoSuchRequest
    | UsageExceededReservation | UsageMissing | UpstreamResultUnknown
    | UnsupportedRequest | InvalidOutputLimit | InputCountFailed
    | ResponseNotCompleted | InvalidRequest | OperatorClosed
    | LedgerWriteFailed | ExplicitInitialBudgetRequired | ExistingBudgetCannotBeReset
    | DownstreamDeliveryUnknown
    | StorageFault  // sqlite3.Error: the transaction did not happen

  datatype Status = Reserved | Settled | Uncertain

  datatype Row = Row(
    scope: string, input: nat, limit: nat, charged: nat,
    actual: Option<nat>, status: Status, reason: Option<Code>)

  datatype Budget = Budget(baseline: nat, cap: nat, halted: Option<Code>)

  /** Row ids are 1-based insertion positions: rows are never deleted. */
  datatype Db = Db(budget: Budget, rows: seq<Row>)

  /** A JSON value as the type checks of the program see it. */
  datatype Json = Absent | Int(n: int) | Other(truthy: bool)

  datatype Usage = Usage(inputTokens: Json, outputTokens: Json, totalTokens: Json)

  // ----- sums over rows -----

  ghost function Sum(rows: seq<Row>, f: Row -> nat): nat {
    if rows == [] then 0 else Sum(rows[..|rows| - 1], f) + f(rows[|rows| - 1])
  }

  function Charged(r: Row): nat { r.charged }

  function Actual(r: Row): nat { if r.actual.Some? then r.actual.value else 0 }

  function InFlight(r: Row): nat { if r.status.Reserved? then r.charged else 0 }

  function Unknown(r: Row): nat { if r.status.Uncertain? then r.charged else 0 }

  /** What the reservation of a row allowed for: counted input plus output limit. */
  function Reservation(r: Row): nat { r.input + r.limit }

  /** The part of a charge that its own reservation covers. */
  function Covered(r: Row): nat { if r.charged <= r.input + r.limit then r.charged else r.input + r.limit }

  ghost function Committed(db: Db): nat { db.budget.baseline + Sum(db.rows, Charged) }

  lemma {:induction false} SumUpdate(rows: seq<Row>, i: nat, r: Row, f: Row -> nat)
    requires i < |rows|
    ensures Sum(rows[i := r], f) + f(rows[i]) == Sum(rows, f) + f(r)
  {
    var last := |rows| - 1;
    if i == last {
      assert rows[i := r][..last] == rows[..last];
    } else {
      assert rows[i := r][..last] == rows[..last][i := r];
      SumUpdate(rows[..last], i, r, f);
    }
  }

  lemma {:induction false} SumLeq(a: seq<Row>, b: seq<Row>, f: Row -> nat, g: Row -> nat)
    requires |a| == |b| && forall i :: 0 <= i < |a| ==> f(a[i]) <= g(b[i])
    ensures Sum(a, f) <= Sum(b, g)
  {
    if a != [] {
      SumLeq(a[..|a| - 1], b[..|b| - 1], f, g);
    }
  }

  // ----- transactions -----

  function Coalesce(halted: Option<Code>, reason: Code): Option<Code> {
    if halted.Some? then halted else Some(reason)
  }

  function HaltTx(db: Db, reason: Code): Db {
    db.(budget := db.budget.(halted := Coalesce(db.budget.halted, reason)))
  }

  function Restarted(r: Row): Row {
    if r.status.Reserved? then r.(status := Uncertain, reason := Some(OwnerRestarted)) else r
  }

  function RecoverTx(db: Db): Db {
    if exists i :: 0 <= i < |db.rows| && db.rows[i].status.Reserved? then
      HaltTx(db.(rows := seq(|db.rows|, i requires 0 <= i < |db.rows| => Restarted(db.rows[i]))), OwnerRestarted)
    else db
  }

  ghost function ReserveTx(db: Db, input: nat, limit: nat, scope: string): (Db, Result<nat, Code>) {
    if db.budget.halted.Some? then (db, Err(BudgetGateClosed))
    else if Committed(db) + input + limit > db.budget.cap then
      (db.(budget := db.budget.(halted := Some(InsufficientTokenBudget))), Err(InsufficientTokenBudget))
    else
      (db.(rows := db.rows + [Row(scope, input, limit, input + limit, None, Reserved, None)]),
       Ok(|db.rows| + 1))
  }

  function UncertainTx(db: Db, rid: nat, reason: Code): Db {
    HaltTx(
      if 1 <= rid <= |db.rows| && db.rows[rid - 1].status.Reserved?
      then db.(rows := db.rows[rid - 1 := db.rows[rid - 1].(status := Uncertain, reason := Some(reason))])
      else db,
      reason)
  }

  predicate ValidUsage(u: Usage) {
    && u.inputTokens.Int? && u.outputTokens.Int? && u.totalTokens.Int?
    && u.inputTokens.n >= 0 && u.outputTokens.n >= 0 && u.totalTokens.n >= 0
    && u.inputTokens.n + u.outputTokens.n == u.totalTokens.n
  }

  predicate Violates(r: Row, u: Usage)
    requires ValidUsage(u)
  {
    u.totalTokens.n > r.charged || u.outputTokens.n > r.limit || u.inputTokens.n != r.input
  }

  function SettleTx(db: Db, rid: nat, u: Usage): (Db, Result<(), Code>)
    requires ValidUsage(u)
  {
    if !(1 <= rid <= |db.rows|) then (db, Err(NoSuchRequest))
    else
      var r := db.rows[rid - 1];
      if !r.status.Reserved? then (db, Err(RequestAlreadySettled))
      else
        var total := u.totalTokens.n;
        var bad := Violates(r, u);
        var r' := r.(charged := total, actual := Some(total), status := Settled,
                     reason := if bad then Some(UsageExceededReservation) else None);
        (Db(if bad then db.budget.(halted := Some(UsageExceededReservation)) else db.budget,
            db.rows[rid - 1 := r']),
         if bad then Err(UsageExceededReservation) else Ok(()))
  }

  // ----- what every reachable ledger satisfies -----

  predicate RowOk(r: Row) {
    match r.status
    case Reserved => r.actual == None && r.charged == Reservation(r) && r.reason == None
    case Uncertain => r.actual == None && r.charged == Reservation(r) && r.reason.Some?
    case Settled =>
      && r.actual == Some(r.charged)
      && (r.reason == None || r.reason == Some(UsageExceededReservation))
      && (r.reason == None ==> r.input <= r.charged <= Reservation(r))
  }

  predicate Violated(r: Row) { r.status.Settled? && r.reason == Some(UsageExceededReservation) }

  ghost predicate Sound(db: Db) {
    && db.budget.baseline < db.budget.cap
    && (forall i :: 0 <= i < |db.rows| ==> RowOk(db.rows[i]))
    && (forall i :: 0 <= i < |db.rows| && Violated(db.rows[i]) ==> db.budget.halted.Some?)
    && db.budget.baseline + Sum(db.rows, Covered) <= db.budget.cap
  }

  lemma RecoverSound(db: Db)
    requires Sound(db)
    ensures Sound(RecoverTx(db))
    ensures forall i :: 0 <= i < |db.rows| ==> !RecoverTx(db).rows[i].status.Reserved?
  {
    SumLeq(RecoverTx(db).rows, db.rows, Covered, Covered);
  }

  /** A reservation is refused rather than let commitments pass the cap. */
  lemma ReserveSound(db: Db, input: nat, limit: nat, scope: string)
    requires Sound(db)
    ensures var (db', r) := ReserveTx(db, input, limit, scope);
      && Sound(db')
      && (r.Ok? <==> db.budget.halted.None? && Committed(db) + input + limit <= db.budget.cap)
      && (r.Ok? ==> Committed(db') == Committed(db) + input + limit && 1 <= r.value <= |db'.rows|)
      && (r.Err? ==> db'.rows == db.rows && db'.budget.halted.Some?)
  {
    var (db', r) := ReserveTx(db, input, limit, scope);
    if r.Ok? {
      SumLeq(db.rows, db.rows, Covered, Charged);
    }
  }

  /** Rewriting one row keeps the ledger sound when the new row covers no more. */
  lemma RewriteSound(db: Db, i: nat, r: Row, halted: Option<Code>)
    requires Sound(db) && i < |db.rows|
    requires RowOk(r) && Covered(r) <= Covered(db.rows[i])
    requires (db.budget.halted.Some? || Violated(r)) ==> halted.Some?
    ensures Sound(Db(db.budget.(halted := halted), db.rows[i := r]))
  {
    SumUpdate(db.rows, i, r, Covered);
  }

  lemma UncertainSound(db: Db, rid: nat, reason: Code)
    requires Sound(db)
    ensures Sound(UncertainTx(db, rid, reason))
  {
    if 1 <= rid <= |db.rows| && db.rows[rid - 1].status.Reserved? {
      RewriteSound(db, rid - 1, UncertainTx(db, rid, reason).rows[rid - 1], Coalesce(db.budget.halted, reason));
    }
  }

  lemma SettleSound(db: Db, rid: nat, u: Usage)
    requires Sound(db) && ValidUsage(u)
    ensures Sound(SettleTx(db, rid, u).0)
  {
    if 1 <= rid <= |db.rows| && db.rows[rid - 1].status.Reserved? {
      var db' := SettleTx(db, rid, u).0;
      RewriteSound(db, rid - 1, db'.rows[rid - 1], db'.budget.halted);
    }
  }

  /** Overspending is possible only through a row that broke its reservation, and
      then the gate is closed. */
  lemma OverspendIsHaltedViolation(db: Db)
    requires Sound(db)
    requires Committed(db) > db.budget.cap
    ensures db.budget.halted.Some?
    ensures exists i :: 0 <= i < |db.rows| && Violated(db.rows[i]) && db.rows[i].charged > Reservation(db.rows[i])
  {
    if forall i :: 0 <= i < |db.rows| ==> !(Violated(db.rows[i]) && db.rows[i].charged > Reservation(db.rows[i])) {
      SumLeq(db.rows, db.rows, Charged, Covered);
      assert false;
    }
  }

  /** The figures `status` reports always add up. */
  lemma {:induction false} CommittedSplits(rows: seq<Row>)
    requires forall i :: 0 <= i < |rows| ==> RowOk(rows[i])
    ensures Sum(rows, Charged) == Sum(rows, Actual) + Sum(rows, InFlight) + Sum(rows, Unknown)
  {
    if rows != [] {
      CommittedSplits(rows[..|rows| - 1]);
    }
  }

  // ----- how a ledger may change over time -----

  predicate RowEvolves(r: Row, r': Row) {
    || r' == r
    || (&& r.status.Reserved? && !r'.status.Reserved?
        && r'.scope == r.scope && r'.input == r.input && r'.limit == r.limit
        && (r'.status.Uncertain? ==> r'.charged == r.charged))
  }

  /** The history order: the gate never reopens, a closed gate admits no row, its
      first reason is only ever overwritten by a broken reservation, and each row
      leaves Reserved at most once. */
  predicate Evolves(a: Db, b: Db) {
    && b.budget.baseline == a.budget.baseline && b.budget.cap == a.budget.cap
    && (a.budget.halted.Some? ==>
          (b.budget.halted == a.budget.halted || b.budget.halted == Some(UsageExceededReservation))
          && |b.rows| == |a.rows|)
    && |a.rows| <= |b.rows|
    && forall i :: 0 <= i < |a.rows| ==> RowEvolves(a.rows[i], b.rows[i])
  }

  lemma EvolvesTransitive(a: Db, b: Db, c: Db)
    requires Evolves(a, b) && Evolves(b, c)
    ensures Evolves(a, c)
  {
  }

  lemma HaltEvolves(db: Db, reason: Code)
    ensures Evolves(db, HaltTx(db, reason))
  {
  }

  lemma RecoverEvolves(db: Db)
    ensures Evolves(db, RecoverTx(db))
  {
  }

  lemma ReserveEvolves(db: Db, input: nat, limit: nat, scope: string)
    ensures Evolves(db, ReserveTx(db, input, limit, scope).0)
  {
  }

  lemma UncertainEvolves(db: Db, rid: nat, reason: Code)
    ensures Evolves(db, UncertainTx(db, rid, reason))
  {
  }

  lemma SettleEvolves(db: Db, rid: nat, u: Usage)
    requires ValidUsage(u)
    ensures Evolves(db, SettleTx(db, rid, u).0)
  {
  }

  /** Once halted, the tokens in flight can only go down. */
  lemma HaltedInFlightShrinks(a: Db, b: Db)
    requires a.budget.halted.Some? && Evolves(a, b)
    ensures Sum(b.rows, InFlight) <= Sum(a.rows, InFlight)
  {
    forall i | 0 <= i < |a.rows|
      ensures InFlight(b.rows[i]) <= InFlight(a.rows[i])
    {
      assert RowEvolves(a.rows[i], b.rows[i]);
    }
    SumLeq(b.rows, a.rows, InFlight, InFlight);
  }

  // ----- the program's objects -----

  /** The database file, shared by every process that opens it. */
  class Store {
    var budget: Option<Budget>
    var requests: seq<Row>

    constructor ()
      ensures budget == None && requests == []
    {
      budget, requests := None, [];
    }

    ghost function Contents(): Db
      requires budget.Some?
      reads this
    {
      Db(budget.value, requests)
    }
  }

  datatype Report = Report(
    baseline: nat, cap: nat, halted: Option<Code>,
    actualTokens: nat, committedTokens: nat, inFlight: nat, unknownReserved: nat, remaining: int)

  /** One process's view of the ledger: the shared store and an in-memory latch.
      A `fault` argument says that SQLite refuses the corresponding transaction. */
  class Ledger {
    const store: Store
    var failure: Option<Code>

    constructor (store: Store)
      ensures this.store == store && failure == None
    {
      this.store := store;
      failure := None;
    }

    /** Opening creates the budget once and can never reset it. */
    static method Open(store: Store, baseline: Option<int>, cap: Option<int>)
      returns (r: Result<Ledger, Code>)
      modifies store
      ensures store.requests == old(store.requests)
      ensures old(store.budget).Some? ==> store.budget == old(store.budget)
      ensures r.Ok? ==> fresh(r.value) && r.value.store == store && r.value.failure == None && store.budget.Some?
      ensures old(store.budget) == None ==>
        (r.Ok? <==> baseline.Some? && cap.Some? && 0 <= baseline.value < cap.value)
      ensures old(store.budget) == None && r.Ok? ==>
        store.budget == Some(Budget(baseline.value, cap.value, None))
      ensures r.Err? ==> store.budget == old(store.budget)
      ensures old(store.budget).Some? ==>
        (r.Ok? <==>
           && baseline in [None, Some(store.budget.value.baseline as int)]
           && cap in [None, Some(store.budget.value.cap as int)])
    {
      if store.budget == None {
        if baseline == None || cap == None || !(0 <= baseline.value < cap.value) {
          return Err(ExplicitInitialBudgetRequired);
        }
        store.budget := Some(Budget(baseline.value, cap.value, None));
      } else if (baseline.Some? && baseline.value != store.budget.value.baseline)
             || (cap.Some? && cap.value != store.budget.value.cap) {
        return Err(ExistingBudgetCannotBeReset);
      }
      var ledger := new Ledger(store);
      r := Ok(ledger);
    }

    /** Totals every column in one pass over a snapshot of the rows. */
    method StatusReport() returns (r: Report)
      requires store.budget.Some?
      ensures r.baseline == store.budget.value.baseline && r.cap == store.budget.value.cap
      ensures r.halted == store.budget.value.halted
      ensures r.committedTokens == Committed(store.Contents())
      ensures r.committedTokens + r.remaining == r.cap
      ensures r.inFlight == Sum(store.requests, InFlight)
      ensures r.unknownReserved == Sum(store.requests, Unknown)
      ensures r.actualTokens == r.baseline + Sum(store.requests, Actual)
      ensures Sound(store.Contents()) ==> r.committedTokens == r.actualTokens + r.inFlight + r.unknownReserved
    {
      var b := store.budget.value;
      var actual, committed, inFlight, unknown := 0, 0, 0, 0;
      var rows := store.requests;
      for i := 0 to |rows|
        invariant actual == Sum(rows[..i], Actual) && committed == Sum(rows[..i], Charged)
        invariant inFlight == Sum(rows[..i], InFlight) && unknown == Sum(rows[..i], Unknown)
      {
        assert rows[..i + 1][..i] == rows[..i];
        actual := actual + Actual(rows[i]);
        committed := committed + Charged(rows[i]);
        inFlight := inFlight + InFlight(rows[i]);
        unknown := unknown + Unknown(rows[i]);
      }
      assert rows[..|rows|] == rows;
      if Sound(store.Contents()) {
        CommittedSplits(rows);
      }
      r := Report(b.baseline, b.cap, b.halted, b.baseline + actual, b.baseline + committed,
                  inFlight, unknown, b.cap - b.baseline - committed);
    }

    method CheckOpen(fault: bool) returns (r: Result<(), Code>)
      requires store.budget.Some?
      ensures r == Gate(failure, store.Contents(), fault)
    {
      if failure.Some? {
        return Err(BudgetGateClosed);
      }
      if fault {
        return Err(StorageFault);
      }
      r := if store.budget.value.halted.Some? then Err(BudgetGateClosed) else Ok(());
    }

    /** The in-memory latch closes even when the write fails. */
    method Halt(reason: Code, fault: bool) returns (r: Result<(), Code>)
      requires store.budget.Some?
      modifies this, store
      ensures failure == Coalesce(old(failure), reason)
      ensures store.budget.Some?
      ensures store.Contents() == if fault then old(store.Contents()) else HaltTx(old(store.Contents()), reason)
      ensures r == if fault then Err(StorageFault) else Ok(())
    {
      failure := Coalesce(failure, reason);
      if fault {
        return Err(StorageFault);
      }
      store.budget := Some(store.budget.value.(halted := Coalesce(store.budget.value.halted, reason)));
      r := Ok(());
    }

    /** SQL updates every pending row in one statement; here that statement is a loop. */
    method RecoverPending(fault: bool) returns (r: Result<(), Code>)
      requires store.budget.Some?
      modifies store
      ensures store.budget.Some?
      ensures store.Contents() == if fault then old(store.Contents()) else RecoverTx(old(store.Contents()))
      ensures r == if fault then Err(StorageFault) else Ok(())
    {
      if fault {
        return Err(StorageFault);
      }
      var rows, pending := store.requests, 0;
      var updated: seq<Row> := [];
      for i := 0 to |rows|
        invariant |updated| == i
        invariant forall j :: 0 <= j < i ==> updated[j] == Restarted(rows[j])
        invariant pending > 0 <==> exists j :: 0 <= j < i && rows[j].status.Reserved?
      {
        updated := updated + [Restarted(rows[i])];
        if rows[i].status.Reserved? {
          pending := pending + 1;
        }
      }
      if pending > 0 {
        store.requests := updated;
        store.budget := Some(store.budget.value.(halted := Coalesce(store.budget.value.halted, OwnerRestarted)));
        assert store.requests == RecoverTx(old(store.Contents())).rows;
      }
      r := Ok(());
    }

    /** Reserves input plus output limit, or closes the gate when the cap forbids it. */
    method Reserve(input: Json, limit: Json, scope: string, gateFault: bool, fault: bool)
      returns (r: Result<nat, Code>)
      requires store.budget.Some?
      modifies store
      ensures store.budget.Some?
      ensures var gate := Gate(failure, old(store.Contents()), gateFault);
        var badCount := !(input.Int? && input.n >= 0 && limit.Int? && limit.n > 0);
        if gate.Err? || badCount || fault then
          && store.Contents() == old(store.Contents())
          && r == if gate.Err? then Err(gate.error) else if badCount then Err(InvalidTokenCount) else Err(StorageFault)
        else (store.Contents(), r) == ReserveTx(old(store.Contents()), input.n, limit.n, scope)
    {
      var gate := CheckOpen(gateFault);
      if gate.Err? {
        return Err(gate.error);
      }
      if !(input.Int? && input.n >= 0 && limit.Int? && limit.n > 0) {
        return Err(InvalidTokenCount);
      }
      if fault {
        return Err(StorageFault);
      }
      if store.budget.value.halted.Some? {
        return Err(BudgetGateClosed);
      }
      var used := TotalCharged();
      var amount := input.n + limit.n;
      if store.budget.value.baseline + used + amount > store.budget.value.cap {
        store.budget := Some(store.budget.value.(halted := Some(InsufficientTokenBudget)));
        return Err(InsufficientTokenBudget);
      }
      store.requests := store.requests + [Row(scope, input.n, limit.n, amount, None, Reserved, None)];
      r := Ok(|store.requests|);
    }

    method TotalCharged() returns (used: nat)
      ensures used == Sum(store.requests, Charged)
    {
      used := 0;
      var rows := store.requests;
      for i := 0 to |rows|
        invariant used == Sum(rows[..i], Charged)
      {
        assert rows[..i + 1][..i] == rows[..i];
        used := used + Charged(rows[i]);
      }
      assert rows[..|rows|] == rows;
    }

    method MarkUncertain(rid: nat, reason: Code, fault: bool) returns (r: Result<(), Code>)
      requires store.budget.Some?
      modifies store
      ensures store.budget.Some?
      ensures store.Contents() == 
        if fault then old(store.Contents()) else UncertainTx(old(store.Contents()), rid, reason)
      ensures r == if fault then Err(StorageFault) else Ok(())
    {
      if fault {
        return Err(StorageFault);
      }
      if 1 <= rid <= |store.requests| && store.requests[rid - 1].status.Reserved? {
        store.requests := store.requests[rid - 1 :=
          store.requests[rid - 1].(status := Uncertain, reason := Some(reason))];
      }
      store.budget := Some(store.budget.value.(halted := Coalesce(store.budget.value.halted, reason)));
      r := Ok(());
    }

    method Settle(rid: nat, usage: Usage, fault: bool) returns (r: Result<(), Code>)
      requires store.budget.Some?
      modifies store
      ensures store.budget.Some?
      ensures fault ==> store.Contents() == old(store.Contents()) && r == Err(StorageFault)
      ensures !fault && !ValidUsage(usage) ==>
        store.Contents() == UncertainTx(old(store.Contents()), rid, InvalidUsage) && r == Err(InvalidUsage)
      ensures !fault && ValidUsage(usage) ==> (store.Contents(), r) == SettleTx(old(store.Contents()), rid, usage)
    {
      if !ValidUsage(usage) {
        var marked := MarkUncertain(rid, InvalidUsage, fault);
        return if marked.Ok? then Err(InvalidUsage) else marked;
      }
      if fault {
        return Err(StorageFault);
      }
      if !(1 <= rid <= |store.requests|) {
        return Err(NoSuchRequest);
      }
      var row := store.requests[rid - 1];
      if !row.status.Reserved? {
        return Err(RequestAlreadySettled);
      }
      var total := usage.totalTokens.n;
      var violation := total > row.charged || usage.outputTokens.n > row.limit || usage.inputTokens.n != row.input;
      store.requests := store.requests[rid - 1 := row.(
        charged := total, actual := Some(total), status := Settled,
        reason := if violation then Some(UsageExceededReservation) else None)];
      if violation {
        store.budget := Some(store.budget.value.(halted := Some(UsageExceededReservation)));
        return Err(UsageExceededReservation);
      }
      r := Ok(());
    }
  }

  /** What `check_open` answers: the latch first, then the stored gate. */
  function Gate(failure: Option<Code>, db: Db, fault: bool): Result<(), Code> {
    if failure.Some? then Err(BudgetGateClosed)
    else if fault then Err(StorageFault)
    else if db.budget.halted.Some? then Err(BudgetGateClosed)
    else Ok(())
  }
}
