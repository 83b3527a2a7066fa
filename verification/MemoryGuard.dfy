/** The memory guard: an O(1) persisted state that must agree with the whole sample
    history, restarts that stay apart through crashes, and log rotation. */
module MemoryGuard {
  import opened Common

  const RESTART_BYTES: int := 3900 * 1024 * 1024
  const HIGH_SECONDS: real := 180.0
  const MAX_SAMPLE_GAP: real := 90.0
  const COOLDOWN_SECONDS: real := 3600.0
  const LOG_DAYS: int := 14
  const LOG_TOTAL_BYTES: nat := 16 * 1024 * 1024

  datatype Reading = Reading(epoch: string, bytes: int)

  /** Fields missing from the state file read as these defaults. */
  datatype State = State(epoch: Option<string>, sampleAt: real, highSince: Option<real>, lastAttempt: real,
                         dailyDate: Option<int>)

  const EMPTY := State(None, 0.0, None, 0.0, None)

  datatype Action = Observe | Cooldown | Restart
  datatype Reason = NoReason | Daily | HighMemory
  datatype Decision = Decision(state: State, action: Action, reason: Reason, highFor: real)

  predicate Continuous(s: State, r: Reading, now: real) {
    s.epoch == Some(r.epoch) && 0.0 <= now - s.sampleAt <= MAX_SAMPLE_GAP
  }

  function Decide(s: State, r: Reading, now: real, daily: bool): Decision {
    var since := if Continuous(s, r, now) then s.highSince else None;
    var highSince := if r.bytes > RESTART_BYTES then Some(if since.Some? then since.value else now) else None;
    var highFor := if highSince.Some? then now - highSince.value else 0.0;
    var reason := if daily then Daily else if highFor >= HIGH_SECONDS then HighMemory else NoReason;
    var cooling := now - s.lastAttempt < COOLDOWN_SECONDS;
    Decision(s.(epoch := Some(r.epoch), sampleAt := now, highSince := highSince),
             if reason == NoReason then Observe else if cooling then Cooldown else Restart,
             reason, highFor)
  }

  // ----- one run of the program, which may crash or raise anywhere -----

  datatype Disk = NoFile | Corrupt | Good(state: State)

  /** How far a run gets: up to the first save, up to the second, up to the restart
      command, into the command, or to the end. */
  datatype Point = FirstSave | Decided | SecondSave | BeforeCommand | InCommand

  /** A raised exception reaches the handler, whose own save may fail. */
  datatype Fate = Completes | Crashes(at: Point) | Raises(at: Point, handlerSaves: bool)

  /** Which alerts are due for sending, and so save the state once more. */
  datatype Alerts = Alerts(restartOrOom: bool, outcome: bool, failure: bool)

  datatype Env = Env(sample: Option<Reading>, now: real, dailyMinute: bool, date: int, alerts: Alerts, fate: Fate)

  function Failed(s: State): State { s.(highSince := None, epoch := None) }

  function Handled(disk: Disk, s: State, saves: bool): Disk { if saves then Good(Failed(s)) else disk }

  function Loaded(disk: Disk): State
    requires disk != Corrupt
  {
    if disk.Good? then disk.state else EMPTY
  }

  function IsDaily(s: State, e: Env): bool { e.dailyMinute && s.dailyDate != Some(e.date) }

  /** The decision of a run, with the daily date noted. */
  function Judged(disk: Disk, e: Env): Decision
    requires disk != Corrupt && e.sample.Some?
  {
    var s := Loaded(disk);
    var d := Decide(s, e.sample.value, e.now, IsDaily(s, e));
    d.(state := if IsDaily(s, e) then d.state.(dailyDate := Some(e.date)) else d.state)
  }

  function Attempted(s: State, now: real): State { s.(lastAttempt := now, highSince := None) }

  function Reaches(f: Fate, p: Point): bool {
    f.Completes? || Rank(f.at) > Rank(p)
  }

  function Rank(p: Point): nat {
    match p case FirstSave => 0 case Decided => 1 case SecondSave => 2 case BeforeCommand => 3 case InCommand => 4
  }

  /** What a run leaves on disk and whether it ran the restart command. */
  datatype Ending = Ending(disk: Disk, restarted: bool)

  function RunOnce(disk: Disk, e: Env): Ending {
    if disk == Corrupt then Ending(disk, false)
    else if e.sample == None then
      Ending(Handled(disk, Loaded(disk), e.fate.Completes? || (e.fate.Raises? && e.fate.handlerSaves)), false)
    else
      var d := Judged(disk, e);
      var s1, s2 := d.state, Attempted(d.state, e.now);
      var saves := e.fate.Raises? && e.fate.handlerSaves;
      if !Reaches(e.fate, FirstSave) then Ending(Handled(disk, s1, saves), false)
      else if d.action != Restart || !Reaches(e.fate, Decided) then Ending(Handled(Good(s1), s1, saves), false)
      else if !Reaches(e.fate, SecondSave) then Ending(Handled(Good(s1), s2, saves), false)
      else Ending(Handled(Good(s2), s2, saves), Reaches(e.fate, BeforeCommand))
  }

  datatype World = World(disk: Disk, restarts: seq<real>)

  function Play(start: Disk, envs: seq<Env>): World {
    if envs == [] then World(start, [])
    else
      var w := Play(start, envs[..|envs| - 1]);
      var e := envs[|envs| - 1];
      var r := RunOnce(w.disk, e);
      World(r.disk, if r.restarted then w.restarts + [e.now] else w.restarts)
  }

  /** The persisted attempt dominates every executed restart. */
  predicate Spaced(w: World) {
    && (forall i :: 0 <= i < |w.restarts| ==> w.disk.Good? && w.restarts[i] <= w.disk.state.lastAttempt)
    && (forall i, j :: 0 <= i < j < |w.restarts| ==> w.restarts[j] - w.restarts[i] >= COOLDOWN_SECONDS)
  }

  lemma RunOnceKeepsAttempt(disk: Disk, e: Env)
    ensures var r := RunOnce(disk, e);
      && (disk.Good? ==> r.disk.Good? && r.disk.state.lastAttempt >= disk.state.lastAttempt)
      && (r.restarted ==> r.disk.Good? && r.disk.state.lastAttempt == e.now && disk != Corrupt
                          && e.now - Loaded(disk).lastAttempt >= COOLDOWN_SECONDS)
  {
  }

  /** Main result: any two executed restarts are at least 3600 s apart on the clock,
      through every crash, every failing command and every backward clock, because the
      attempt is saved before the command runs. */
  lemma {:induction false} RestartsStayApart(start: Disk, envs: seq<Env>)
    ensures Spaced(Play(start, envs))
  {
    if envs != [] {
      var w := Play(start, envs[..|envs| - 1]);
      RestartsStayApart(start, envs[..|envs| - 1]);
      RunOnceKeepsAttempt(w.disk, envs[|envs| - 1]);
    }
  }

  // ----- the state agrees with the history -----

  /** What the persisted runs looked like: a sample, or a break after a restart or a failure. */
  datatype Record = Sample(epoch: string, high: bool, at: real) | Break

  function SampleOf(e: Env): Record
    requires e.sample.Some?
  {
    Sample(e.sample.value.epoch, e.sample.value.bytes > RESTART_BYTES, e.now)
  }

  /** The records a run adds, read off what it left on disk. */
  function Recorded(disk: Disk, e: Env): seq<Record> {
    if disk == Corrupt then []
    else if e.sample == None then if e.fate.Completes? || (e.fate.Raises? && e.fate.handlerSaves) then [Break] else []
    else
      var saves := e.fate.Raises? && e.fate.handlerSaves;
      if !Reaches(e.fate, FirstSave) then if saves then [Break] else []
      else if saves then [SampleOf(e), Break]
      else if Judged(disk, e).action == Restart && Reaches(e.fate, SecondSave) then [SampleOf(e), Break]
      else [SampleOf(e)]
  }

  function History(envs: seq<Env>): seq<Record> {
    if envs == [] then []
    else History(envs[..|envs| - 1]) + Recorded(Play(NoFile, envs[..|envs| - 1]).disk, envs[|envs| - 1])
  }

  predicate Linked(a: Record, b: Record) {
    a.Sample? && b.Sample? && a.epoch == b.epoch && 0.0 <= b.at - a.at <= MAX_SAMPLE_GAP
  }

  predicate Extends(a: Record, b: Record) { Linked(a, b) && a.high && b.high }

  /** i starts the maximal run of linked high samples that the history ends with. */
  predicate StartsHighRun(h: seq<Record>, i: nat) {
    && i < |h|
    && (forall j :: i <= j < |h| ==> h[j].Sample? && h[j].high)
    && (forall j :: i < j < |h| ==> Linked(h[j - 1], h[j]))
    && (i > 0 ==> !Extends(h[i - 1], h[i]))
  }

  predicate EndsHigh(h: seq<Record>) { h != [] && h[|h| - 1].Sample? && h[|h| - 1].high }

  predicate Agrees(s: State, h: seq<Record>) {
    && (h == [] ==> s.epoch == None)
    && (h != [] && h[|h| - 1].Sample? ==> s.epoch == Some(h[|h| - 1].epoch) && s.sampleAt == h[|h| - 1].at)
    && (s.highSince.Some? <==> EndsHigh(h))
    && (s.highSince.Some? ==> exists i :: 0 <= i < |h| && StartsHighRun(h, i) && h[i].at == s.highSince.value)
  }

  lemma SampleAgrees(s: State, h: seq<Record>, r: Reading, now: real, daily: bool)
    requires Agrees(s, h)
    ensures Agrees(Decide(s, r, now, daily).state, h + [Sample(r.epoch, r.bytes > RESTART_BYTES, now)])
  {
    var x := Sample(r.epoch, r.bytes > RESTART_BYTES, now);
    var h' := h + [x];
    if x.high {
      if Continuous(s, r, now) && s.highSince.Some? {
        var i :| 0 <= i < |h| && StartsHighRun(h, i) && h[i].at == s.highSince.value;
        assert StartsHighRun(h', i) && h'[i].at == s.highSince.value;
      } else {
        assert StartsHighRun(h', |h|) && h'[|h|].at == now;
      }
    }
  }

  lemma {:induction false} RunOnceAgrees(disk: Disk, e: Env, h: seq<Record>)
    requires disk != Corrupt && Agrees(Loaded(disk), h)
    ensures var r := RunOnce(disk, e);
      r.disk != Corrupt && Agrees(Loaded(r.disk), h + Recorded(disk, e))
  {
    var r := RunOnce(disk, e);
    if Recorded(disk, e) == [] {
      assert h + [] == h;
    } else if e.sample.Some? && Reaches(e.fate, FirstSave) {
      var s := Loaded(disk);
      SampleAgrees(s, h, e.sample.value, e.now, IsDaily(s, e));
      var h1 := h + [SampleOf(e)];
      if |Recorded(disk, e)| == 2 {
        assert h + Recorded(disk, e) == h1 + [Break];
      }
    }
  }

  lemma {:induction false} StateAgrees(envs: seq<Env>)
    ensures Play(NoFile, envs).disk != Corrupt && Agrees(Loaded(Play(NoFile, envs).disk), History(envs))
  {
    if envs != [] {
      var n := |envs| - 1;
      StateAgrees(envs[..n]);
      RunOnceAgrees(Play(NoFile, envs[..n]).disk, envs[n], History(envs[..n]));
    }
  }

  lemma StartIsUnique(h: seq<Record>, i: nat, j: nat)
    requires StartsHighRun(h, i) && StartsHighRun(h, j)
    ensures i == j
  {
  }

  /** The maximal high run that the history ends with began at time t. */
  predicate HighRunSince(h: seq<Record>, t: real) {
    exists i :: 0 <= i < |h| && StartsHighRun(h, i) && h[i].at == t
  }

  /** Main result: the persisted `high_since` is the time of the first sample in the
      maximal run of same-epoch samples above the threshold, with gaps of at most 90 s,
      that crosses no restart and no failure. */
  lemma {:induction false} HighSinceMeansRun(envs: seq<Env>, t: real)
    ensures var disk := Play(NoFile, envs).disk;
      disk != Corrupt && (Loaded(disk).highSince == Some(t) <==> HighRunSince(History(envs), t))
  {
    StateAgrees(envs);
  }

  /** A restart for memory is decided exactly when that run, this sample included, has
      lasted 180 s, no daily restart is due, and the cooldown is over. */
  lemma {:induction false} RestartDecidedIff(envs: seq<Env>, e: Env)
    requires e.sample.Some?
    ensures var disk := Play(NoFile, envs).disk;
      var h := History(envs) + [SampleOf(e)];
      disk != Corrupt &&
      (Judged(disk, e).reason == HighMemory && Judged(disk, e).action == Restart <==>
        && !IsDaily(Loaded(disk), e)
        && e.now - Loaded(disk).lastAttempt >= COOLDOWN_SECONDS
        && exists i :: 0 <= i < |h| && StartsHighRun(h, i) && e.now - h[i].at >= HIGH_SECONDS)
  {
    StateAgrees(envs);
    var disk := Play(NoFile, envs).disk;
    var s := Loaded(disk);
    var h := History(envs) + [SampleOf(e)];
    SampleAgrees(s, History(envs), e.sample.value, e.now, IsDaily(s, e));
    var s1 := Decide(s, e.sample.value, e.now, IsDaily(s, e)).state;
    if s1.highSince.Some? {
      var k :| 0 <= k < |h| && StartsHighRun(h, k) && h[k].at == s1.highSince.value;
      forall i | 0 <= i < |h| && StartsHighRun(h, i)
        ensures i == k
      {
        StartIsUnique(h, i, k);
      }
    }
  }

  // ----- what else a run decides and does -----

  /** A daily restart comes before any other reason, and a restart of either kind is
      decided exactly when there is a reason and the cooldown is over. */
  lemma DecisionIff(disk: Disk, e: Env)
    requires disk != Corrupt && e.sample.Some?
    ensures var d := Judged(disk, e);
      && (d.reason == Daily <==> e.dailyMinute && Loaded(disk).dailyDate != Some(e.date))
      && (d.action == Observe <==> d.reason == NoReason)
      && (d.action == Restart <==> d.reason != NoReason && e.now - Loaded(disk).lastAttempt >= 3600.0)
  {
  }

  /** The restart command runs exactly when a restart is decided and the run gets as far. */
  lemma RestartExecutedIff(disk: Disk, e: Env)
    ensures RunOnce(disk, e).restarted <==>
      && disk != Corrupt && e.sample.Some? && Judged(disk, e).action == Restart
      && (e.fate.Completes? || e.fate.at == InCommand)
  {
  }

  predicate NotedDaily(disk: Disk, date: int) { disk.Good? && disk.state.dailyDate == Some(date) }

  /** From one moment on. */
  function PlayOn(disk: Disk, envs: seq<Env>): Disk {
    if envs == [] then disk else RunOnce(PlayOn(disk, envs[..|envs| - 1]), envs[|envs| - 1]).disk
  }

  lemma {:induction false} NotedStays(disk: Disk, envs: seq<Env>, date: int)
    requires NotedDaily(disk, date) && forall e :: e in envs ==> e.date == date
    ensures NotedDaily(PlayOn(disk, envs), date)
  {
    if envs != [] {
      NotedStays(disk, envs[..|envs| - 1], date);
    }
  }

  /** Main result: once a daily restart was decided and saved, no later run of that day
      decides another, through crashes, failures and cooldowns. */
  lemma {:induction false} DailyOncePerDay(disk: Disk, first: Env, envs: seq<Env>, e: Env)
    requires disk != Corrupt && first.sample.Some? && Judged(disk, first).reason == Daily
    requires Reaches(first.fate, FirstSave) && e.sample.Some?
    requires e.date == first.date && forall x :: x in envs ==> x.date == first.date
    ensures var later := PlayOn(RunOnce(disk, first).disk, envs);
      later != Corrupt && Judged(later, e).reason != Daily
  {
    NotedStays(RunOnce(disk, first).disk, envs, first.date);
  }

  /** A state file that does not parse is left alone and nothing is restarted on it. */
  lemma {:induction false} CorruptStaysPut(envs: seq<Env>)
    ensures Play(Corrupt, envs) == World(Corrupt, [])
  {
    if envs != [] {
      CorruptStaysPut(envs[..|envs| - 1]);
    }
  }

  // ----- the program object -----

  class Guard {
    var disk: Disk
    var restarts: seq<real>

    constructor (disk: Disk)
      ensures this.disk == disk && restarts == []
    {
      this.disk := disk;
      restarts := [];
    }

    /** The temporary file is replaced atomically: the file is the old one or the new one. */
    method Save(s: State)
      modifies this`disk
      ensures disk == Good(s)
    {
      disk := Good(s);
    }

    /** An alert that is due saves the state it is given before it sends. */
    method Alert(s: State, due: bool)
      modifies this`disk
      ensures disk == if due then Good(s) else old(disk)
    {
      if due {
        Save(s);
      }
    }

    /** The handler of a raised exception. */
    method Handle(s: State, fate: Fate, alert: bool)
      modifies this`disk
      ensures disk == Handled(old(disk), s, fate.Raises? && fate.handlerSaves)
    {
      if fate.Raises? && fate.handlerSaves {
        var failed := s.(highSince := None, epoch := None);
        Save(failed);
        Alert(failed, alert);
      }
    }

    /** One run of the program; the saves that alerts add write what is there already. */
    method GuardOnce(e: Env)
      modifies this
      ensures var r := RunOnce(old(disk), e);
        disk == r.disk && restarts == old(restarts) + if r.restarted then [e.now] else []
    {
      if disk == Corrupt {
        return;
      }
      var s := if disk.Good? then disk.state else EMPTY;
      if e.sample == None {
        if !e.fate.Crashes? && (e.fate.Completes? || e.fate.handlerSaves) {
          var failed := s.(highSince := None, epoch := None);
          Save(failed);
          Alert(failed, e.alerts.failure);
        }
        return;
      }
      var daily := IsDaily(s, e);
      var d := Decide(s, e.sample.value, e.now, daily);
      s := d.state;
      if daily {
        s := s.(dailyDate := Some(e.date));
      }
      if !Reaches(e.fate, FirstSave) {
        Handle(s, e.fate, e.alerts.failure);
        return;
      }
      Save(s);
      Alert(s, e.alerts.restartOrOom);
      if d.action != Restart || !Reaches(e.fate, Decided) {
        Alert(s, e.alerts.outcome);
        Handle(s, e.fate, e.alerts.failure);
        return;
      }
      s := s.(lastAttempt := e.now, highSince := None);
      if !Reaches(e.fate, SecondSave) {
        Handle(s, e.fate, e.alerts.failure);
        return;
      }
      Save(s);
      if Reaches(e.fate, BeforeCommand) {
        restarts := restarts + [e.now];
        Alert(s, e.alerts.outcome && e.fate.Completes?);
      }
      Handle(s, e.fate, e.alerts.failure);
    }
  }

  // ----- log rotation -----

  datatype LogFile = LogFile(date: int, size: nat)

  function TotalSize(files: seq<LogFile>): nat {
    if files == [] then 0 else files[0].size + TotalSize(files[1..])
  }

  /** Everything from k on is young enough and small enough to stay. */
  predicate MayStay(files: seq<LogFile>, today: int, k: nat) {
    k == |files| || (k < |files| && today - files[k].date < LOG_DAYS && TotalSize(files[k..]) <= LOG_TOTAL_BYTES)
  }

  /** Rotation keeps exactly the longest suffix of the files, in date order, that is
      younger than 14 days and at most 16 MiB in all. */
  method RotateLogs(files: seq<LogFile>, today: int) returns (kept: seq<LogFile>, k: nat)
    requires forall i, j :: 0 <= i < j < |files| ==> files[i].date <= files[j].date
    ensures k <= |files| && kept == files[k..] && TotalSize(kept) <= LOG_TOTAL_BYTES
    ensures MayStay(files, today, k) && forall j :: 0 <= j < k ==> !MayStay(files, today, j)
  {
    kept, k := [], 0;
    var total := TotalSize(files);
    assert files[0..] == files;
    for i := 0 to |files|
      invariant k <= i && kept == files[k..i] && total == TotalSize(files[k..])
      invariant k < i ==> MayStay(files, today, k)
      invariant forall j :: 0 <= j < k ==> !MayStay(files, today, j)
    {
      if today - files[i].date >= LOG_DAYS || total > LOG_TOTAL_BYTES {
        assert k == i;
        assert files[i..][1..] == files[i + 1..];
        total := total - files[i].size;
        k := i + 1;
      } else {
        kept := kept + [files[i]];
      }
    }
  }
}
