/** scanOrg of internal/scanner/aws/scanner.go as a state machine: one goroutine for each account
    behind a semaphore, checkpointing under a lock, and a process that may crash between any two
    steps and be started again over the same checkpoint file. */
module OrgScan {
  import opened Base
  import opened Calculator
  import opened Checkpoint

  const MAX_CONCURRENT_ACCOUNTS := 5

  /** What stays the same across restarts: the discovered accounts, the rows a successful scan of
      each account yields, and the request's options. */
  datatype Config = Config(
    accounts: seq<string>, names: map<string, string>, rows: map<string, seq<FindingRow>>,
    maxWorkers: int, hasPath: bool)

  ghost predicate ValidConfig(c: Config)
  {
    Distinct(c.accounts) && forall id | id in c.accounts :: id in c.rows && id in c.names
  }

  /** Checkpointing is used for more than one account and a non-empty path. */
  predicate Checkpointed(c: Config) { c.hasPath && |c.accounts| > 1 }

  function Workers(c: Config): nat
  {
    SemaphoreCapacity(if c.maxWorkers > 0 then c.maxWorkers else MAX_CONCURRENT_ACCOUNTS)
  }

  /** Where one account's goroutine stands. */
  datatype Phase =
    | Waiting                                  // blocked in Acquire
    | Holding                                  // owns a slot, has not looked at the skip-set yet
    | Scanned(rows: seq<FindingRow>, ok: bool) // scanOneAccount has returned
    | Appended(rows: seq<FindingRow>)          // findings merged, about to call AddUnit
    | Locked                                   // unit appended in memory, temporary file not yet whole
    | Written                                  // temporary file whole, not yet renamed
    | Leaving                                  // about to release the slot
    | Gone

  /** The memory of one process. `log`, `loaded`, `saves`, `dropped` and `failed` are history:
      the contributions to `findings` in order, the units found on disk, the length of the last
      saved state, the accounts abandoned because the context was cancelled, and those whose scan
      returned an error in this run. */
  datatype Run = Run(
    completed: set<string>, findings: seq<FindingRow>, units: seq<CompletedUnit>,
    phase: map<string, Phase>, lock: Option<string>, cancelled: bool, deleted: bool,
    log: seq<CompletedUnit>, loaded: Option<seq<CompletedUnit>>, saves: nat,
    dropped: set<string>, failed: set<string>)

  datatype Process = Down | Up(run: Run) | Returned(findings: seq<FindingRow>, last: Run)

  datatype State = State(disk: Disk, process: Process)

  datatype Action =
    | Start(readable: bool)
    | Crash
    | Cancel
    | Acquire(id: string)
    | GiveUp(id: string)
    | Skip(id: string)
    | ScanOk(id: string)
    | ScanError(id: string, partial: seq<FindingRow>)
    | Append(id: string)
    | Lock(id: string)
    | TearTmp(id: string)
    | WriteTmp(id: string)
    | WriteFails(id: string)
    | Rename(id: string)
    | RenameFails(id: string)
    | Release(id: string)
    | DeleteCheckpoint(fails: bool)
    | Return

  const EMPTY_DISK := Disk(None, None)

  function Saved(units: seq<CompletedUnit>): Content
  {
    Whole(CheckpointState(VERSION, "", "aws", units))
  }

  function FindingsOf(log: seq<CompletedUnit>): seq<FindingRow>
  {
    if log == [] then [] else FindingsOf(log[..|log| - 1]) + log[|log| - 1].findings
  }

  function Ids(log: seq<CompletedUnit>): set<string>
  {
    set u | u in log :: u.id
  }

  /** A process begins with what it can load; a checkpoint it cannot load counts as none, but stays on disk. */
  function StartRun(c: Config, disk: Disk, readable: bool): Run
  {
    var found := if Checkpointed(c) then Load(disk, readable) else Fresh;
    var present := if Checkpointed(c) then Load(disk, true) else Fresh;
    var units := if found.Loaded? then found.state.completedUnits else [];
    Run(Ids(units), FindingsOf(units), [], map id | id in c.accounts :: Waiting, None, false, false,
        units, if present.Loaded? then Some(present.state.completedUnits) else None, 0, {}, {})
  }

  predicate Busy(p: Phase) { !p.Waiting? && !p.Gone? }

  /** Accounts that own a semaphore slot. */
  function InFlight(r: Run): set<string>
  {
    set id | id in r.phase && Busy(r.phase[id])
  }

  function At(r: Run, id: string, p: Phase): Run
  {
    r.(phase := r.phase[id := p])
  }

  function Unit(c: Config, id: string, rows: seq<FindingRow>): CompletedUnit
  {
    CompletedUnit(id, if id in c.names then c.names[id] else "", rows)
  }

  /** One step of the running process; None when the action is not enabled. */
  function StepRun(c: Config, disk: Disk, r: Run, a: Action): Option<(Disk, Run)>
    requires ValidConfig(c)
  {
    match a
    case Cancel => Some((disk, r.(cancelled := true)))
    case Acquire(id) =>
      if id in r.phase && r.phase[id].Waiting? && |InFlight(r)| < Workers(c) then Some((disk, At(r, id, Holding)))
      else None
    case GiveUp(id) =>
      if id in r.phase && r.phase[id].Waiting? && r.cancelled
      then Some((disk, At(r, id, Gone).(dropped := r.dropped + ({id} - r.completed)))) else None
    case Skip(id) =>
      if id in r.phase && r.phase[id].Holding? && id in r.completed then Some((disk, At(r, id, Leaving))) else None
    case ScanOk(id) =>
      if id in r.phase && r.phase[id].Holding? && id !in r.completed && id in c.rows
      then Some((disk, At(r, id, Scanned(c.rows[id], true)))) else None
    case ScanError(id, partial) =>
      if id in r.phase && r.phase[id].Holding? && id !in r.completed
      then Some((disk, At(r, id, Scanned(partial, false)).(failed := r.failed + {id}))) else None
    case Append(id) =>
      if id in r.phase && r.phase[id].Scanned?
      then var p := r.phase[id];
           Some((disk, At(r, id, if p.ok && Checkpointed(c) then Appended(p.rows) else Leaving)
                         .(findings := r.findings + p.rows, log := r.log + [Unit(c, id, p.rows)])))
      else None
    case Lock(id) =>
      if id in r.phase && r.phase[id].Appended? && r.lock.None?
      then Some((disk, At(r, id, Locked).(lock := Some(id), units := r.units + [Unit(c, id, r.phase[id].rows)])))
      else None
    case TearTmp(id) =>
      if id in r.phase && r.phase[id].Locked? then Some((disk.(tmp := Some(Torn)), r)) else None
    case WriteTmp(id) =>
      if id in r.phase && r.phase[id].Locked?
      then Some((disk.(tmp := Some(Saved(r.units))), At(r, id, Written))) else None
    case WriteFails(id) =>
      if id in r.phase && r.phase[id].Locked? then Some((disk, At(r, id, Leaving).(lock := None))) else None
    case Rename(id) =>
      if id in r.phase && r.phase[id].Written? && disk.tmp.Some?
      then Some((Disk(disk.tmp, None), At(r, id, Leaving).(lock := None, saves := |r.units|))) else None
    case RenameFails(id) =>
      if id in r.phase && r.phase[id].Written? then Some((disk, At(r, id, Leaving).(lock := None))) else None
    case Release(id) =>
      if id in r.phase && r.phase[id].Leaving? then Some((disk, At(r, id, Gone))) else None
    case DeleteCheckpoint(fails) =>
      if (forall id | id in r.phase :: r.phase[id].Gone?) && Checkpointed(c) && !r.deleted
      then Some((if fails then disk else disk.(main := None), r.(deleted := true))) else None
    case Start(_) => None
    case Crash => None
    case Return => None
  }

  function Step(c: Config, s: State, a: Action): Option<State>
    requires ValidConfig(c)
  {
    match s.process
    case Down => if a.Start? then Some(State(s.disk, Up(StartRun(c, s.disk, a.readable)))) else None
    case Returned(_, _) => None
    case Up(r) =>
      if a.Crash? then Some(State(s.disk, Down))
      else if a.Return? then
        if (forall id | id in r.phase :: r.phase[id].Gone?) && (Checkpointed(c) ==> r.deleted)
        then Some(State(s.disk, Returned(r.findings, r))) else None
      else
        var o := StepRun(c, s.disk, r, a);
        if o.Some? then Some(State(o.value.0, Up(o.value.1))) else None
  }

  const INIT := State(EMPTY_DISK, Down)

  /** The state after a schedule; an action that is not enabled changes nothing. */
  function Exec(c: Config, s: State, schedule: seq<Action>): State
    requires ValidConfig(c)
  {
    if schedule == [] then s
    else
      var prior := Exec(c, s, schedule[..|schedule| - 1]);
      var next := Step(c, prior, schedule[|schedule| - 1]);
      if next.Some? then next.value else prior
  }

  // ---------------------------------------------------------------- invariant

  /** Units as a successful scan makes them, one for each account at most. */
  ghost predicate GoodUnits(c: Config, units: seq<CompletedUnit>)
    requires ValidConfig(c)
  {
    && (forall i, j | 0 <= i < j < |units| :: units[i].id != units[j].id)
    && (forall u | u in units :: u.id in c.accounts && u.findings == c.rows[u.id] && u.name == c.names[u.id])
  }

  /** A content that Load accepts and that a resumed run may trust. */
  ghost predicate GoodMain(c: Config, main: Option<Content>)
    requires ValidConfig(c)
  {
    main.Some? ==> exists units :: main == Some(Saved(units)) && GoodUnits(c, units)
  }

  /** The account's rows are in `findings`. */
  predicate Contributed(p: Phase) { p.Appended? || p.Locked? || p.Written? || p.Leaving? || p.Gone? }

  ghost predicate PhaseInv(c: Config, r: Run, id: string)
    requires ValidConfig(c) && id in c.accounts && id in r.phase
  {
    var p := r.phase[id];
    && (id in r.completed ==> p.Waiting? || p.Holding? || p.Leaving? || p.Gone?)
    && (p.Scanned? && p.ok ==> p.rows == c.rows[id])
    && (p.Scanned? && !p.ok ==> id in r.failed)
    && (p.Appended? ==> p.rows == c.rows[id] && Checkpointed(c) && id !in Ids(r.units))
    && (p.Locked? || p.Written? <==> r.lock == Some(id))
    && (p.Locked? || p.Written? ==> id in Ids(r.units) && Checkpointed(c))
    && (id in Ids(r.log) <==> id in r.completed || (Contributed(p) && id !in r.dropped))
    && (id in r.dropped ==> p.Gone? && id !in r.completed)
    && (id in Ids(r.units) ==> Contributed(p) && !p.Appended? && id !in r.completed)
    && (id in r.failed ==> id !in r.completed && (p.Scanned? ==> !p.ok) && (p.Scanned? || p.Leaving? || p.Gone?))
  }

  ghost predicate PhasesInv(c: Config, r: Run)
    requires ValidConfig(c)
  {
    && (forall id :: id in r.phase <==> id in c.accounts)
    && (forall id | id in c.accounts :: PhaseInv(c, r, id))
    && (r.lock.Some? ==> r.lock.value in c.accounts)
    && |InFlight(r)| <= Workers(c)
  }

  ghost predicate RunInv(c: Config, disk: Disk, r: Run)
    requires ValidConfig(c)
  {
    && PhasesInv(c, r) && LogInv(c, r) && GoodUnits(c, r.units) && FileInv(c, disk, r)
  }

  ghost predicate LogInv(c: Config, r: Run)
    requires ValidConfig(c)
  {
    && r.findings == FindingsOf(r.log)
    && (forall i, j | 0 <= i < j < |r.log| :: r.log[i].id != r.log[j].id)
    && (forall u | u in r.log :: u.id in c.accounts && (u.findings == c.rows[u.id] || u.id in r.failed))
  }

  /** The checkpoint is what this run found until its first save, then a state it saved. */
  ghost predicate FileInv(c: Config, disk: Disk, r: Run)
    requires ValidConfig(c)
  {
    && r.saves <= |r.units|
    && (r.lock.Some? && r.lock.value in r.phase && r.phase[r.lock.value].Written? ==> disk.tmp == Some(Saved(r.units)))
    && (Checkpointed(c) && !r.deleted ==>
         disk.main == if r.saves > 0 then Some(Saved(r.units[..r.saves]))
                      else if r.loaded.Some? then Some(Saved(r.loaded.value)) else None)
  }

  ghost predicate Inv(c: Config, s: State)
    requires ValidConfig(c)
  {
    && GoodMain(c, s.disk.main)
    && (s.process.Up? ==> RunInv(c, s.disk, s.process.run))
    && (s.process.Returned? ==>
         && RunInv(c, s.disk, s.process.last)
         && s.process.findings == s.process.last.findings
         && forall id | id in c.accounts :: s.process.last.phase[id].Gone?)
  }

  // ------------------------------------------------------------ preservation

  lemma {:induction false} InFlightAt(r: Run, id: string, p: Phase)
    requires id in r.phase
    ensures InFlight(At(r, id, p)) == if Busy(p) then InFlight(r) + {id} else InFlight(r) - {id}
    ensures |InFlight(At(r, id, p))| <= |InFlight(r)| + (if Busy(p) && !Busy(r.phase[id]) then 1 else 0)
  {
    assert InFlight(At(r, id, p)) == if Busy(p) then InFlight(r) + {id} else InFlight(r) - {id};
    if Busy(r.phase[id]) {
      assert InFlight(r) + {id} == InFlight(r);
    }
  }

  lemma {:induction false} IdsSnoc(log: seq<CompletedUnit>, u: CompletedUnit)
    ensures Ids(log + [u]) == Ids(log) + {u.id}
  {
    assert forall x | x in log + [u] :: x in log || x == u;
    assert u in log + [u];
    assert forall x | x in log :: x in log + [u];
  }

  /** Accounts other than the one that moves keep their invariant. */
  lemma {:induction false} OtherKeeps(c: Config, r: Run, r': Run, x: string)
    requires ValidConfig(c) && x in c.accounts && x in r.phase && PhaseInv(c, r, x)
    requires x in r'.phase && r'.phase[x] == r.phase[x] && r'.completed == r.completed
    requires x in r'.dropped <==> x in r.dropped
    requires x in r'.failed <==> x in r.failed
    requires r'.lock == Some(x) <==> r.lock == Some(x)
    requires x in Ids(r'.log) <==> x in Ids(r.log)
    requires x in Ids(r'.units) <==> x in Ids(r.units)
    ensures PhaseInv(c, r', x)
  {
  }

  /** One account moves; the history and lock may change for that account alone. */
  lemma {:induction false} MovePhases(c: Config, r: Run, r': Run, id: string)
    requires ValidConfig(c) && PhasesInv(c, r) && id in r.phase && id in r'.phase
    requires r'.phase == r.phase[id := r'.phase[id]] && r'.completed == r.completed
    requires r.dropped <= r'.dropped <= r.dropped + {id} && r.failed <= r'.failed <= r.failed + {id}
    requires Ids(r.log) <= Ids(r'.log) <= Ids(r.log) + {id}
    requires Ids(r.units) <= Ids(r'.units) <= Ids(r.units) + {id}
    requires r'.lock == r.lock || (r.lock in {None, Some(id)} && r'.lock in {None, Some(id)})
    requires PhaseInv(c, r', id)
    requires Busy(r'.phase[id]) && !Busy(r.phase[id]) ==> |InFlight(r)| < Workers(c)
    ensures PhasesInv(c, r')
  {
    InFlightAt(r, id, r'.phase[id]);
    assert InFlight(r') == InFlight(At(r, id, r'.phase[id]));
    forall x | x in c.accounts
      ensures PhaseInv(c, r', x)
    {
      if x != id {
        OtherKeeps(c, r, r', x);
      }
    }
  }

  /** A step that only moves one account, and perhaps notes it as dropped or failed. */
  lemma {:induction false} MoveKeepsInv(c: Config, disk: Disk, r: Run, r': Run, id: string)
    requires ValidConfig(c) && RunInv(c, disk, r) && id in r.phase && id in r'.phase
    requires r' == r.(phase := r.phase[id := r'.phase[id]], dropped := r'.dropped, failed := r'.failed)
    requires r.dropped <= r'.dropped <= r.dropped + {id} && r.failed <= r'.failed <= r.failed + {id}
    requires PhaseInv(c, r', id)
    requires Busy(r'.phase[id]) && !Busy(r.phase[id]) ==> |InFlight(r)| < Workers(c)
    requires !r'.phase[id].Written?
    ensures RunInv(c, disk, r')
  {
    MovePhases(c, r, r', id);
  }

  /** The steps that take or leave a slot, or skip. */
  lemma {:induction false} SlotStepInv(c: Config, disk: Disk, r: Run, a: Action)
    requires ValidConfig(c) && RunInv(c, disk, r)
    requires a.Acquire? || a.GiveUp? || a.Skip? || a.Release?
    requires StepRun(c, disk, r, a).Some?
    ensures StepRun(c, disk, r, a).value.0 == disk
    ensures RunInv(c, disk, StepRun(c, disk, r, a).value.1)
  {
    assert PhaseInv(c, r, a.id);
    MoveKeepsInv(c, disk, r, StepRun(c, disk, r, a).value.1, a.id);
  }

  /** The steps that end a scan. */
  lemma {:induction false} ScanStepInv(c: Config, disk: Disk, r: Run, a: Action)
    requires ValidConfig(c) && RunInv(c, disk, r)
    requires a.ScanOk? || a.ScanError?
    requires StepRun(c, disk, r, a).Some?
    ensures StepRun(c, disk, r, a).value.0 == disk
    ensures RunInv(c, disk, StepRun(c, disk, r, a).value.1)
  {
    assert PhaseInv(c, r, a.id);
    MoveKeepsInv(c, disk, r, StepRun(c, disk, r, a).value.1, a.id);
  }

  lemma {:induction false} AppendInv(c: Config, disk: Disk, r: Run, id: string)
    requires ValidConfig(c) && RunInv(c, disk, r) && StepRun(c, disk, r, Append(id)).Some?
    ensures StepRun(c, disk, r, Append(id)).value.0 == disk
    ensures RunInv(c, disk, StepRun(c, disk, r, Append(id)).value.1)
  {
    var r' := StepRun(c, disk, r, Append(id)).value.1;
    var u := Unit(c, id, r.phase[id].rows);
    assert PhaseInv(c, r, id);
    IdsSnoc(r.log, u);
    MovePhases(c, r, r', id);
    AppendLog(c, r, r', u);
  }

  lemma {:induction false} AppendLog(c: Config, r: Run, r': Run, u: CompletedUnit)
    requires ValidConfig(c) && LogInv(c, r)
    requires r'.log == r.log + [u] && r'.findings == r.findings + u.findings && r'.failed == r.failed
    requires u.id in c.accounts && u.id !in Ids(r.log) && (u.findings == c.rows[u.id] || u.id in r.failed)
    ensures LogInv(c, r')
  {
    assert r'.log[..|r'.log| - 1] == r.log;
    assert forall i | 0 <= i < |r.log| :: r.log[i].id in Ids(r.log);
    assert forall x | x in r'.log :: x in r.log || x == u;
  }

  lemma {:induction false} LockInv(c: Config, disk: Disk, r: Run, id: string)
    requires ValidConfig(c) && RunInv(c, disk, r) && StepRun(c, disk, r, Lock(id)).Some?
    ensures StepRun(c, disk, r, Lock(id)).value.0 == disk
    ensures RunInv(c, disk, StepRun(c, disk, r, Lock(id)).value.1)
  {
    var r' := StepRun(c, disk, r, Lock(id)).value.1;
    var u := Unit(c, id, r.phase[id].rows);
    assert PhaseInv(c, r, id);
    IdsSnoc(r.units, u);
    MovePhases(c, r, r', id);
    GoodUnitsSnoc(c, r.units, u);
    assert r'.units[..r.saves] == r.units[..r.saves];
  }

  lemma {:induction false} GoodUnitsSnoc(c: Config, units: seq<CompletedUnit>, u: CompletedUnit)
    requires ValidConfig(c) && GoodUnits(c, units)
    requires u.id in c.accounts && u.id !in Ids(units) && u.findings == c.rows[u.id] && u.name == c.names[u.id]
    ensures GoodUnits(c, units + [u])
  {
    assert forall i | 0 <= i < |units| :: units[i].id in Ids(units);
    assert forall x | x in units + [u] :: x in units || x == u;
  }

  /** Writing the temporary file, piece by piece, under the lock. */
  lemma {:induction false} WriteStepInv(c: Config, disk: Disk, r: Run, a: Action)
    requires ValidConfig(c) && RunInv(c, disk, r) && (a.TearTmp? || a.WriteTmp?)
    requires StepRun(c, disk, r, a).Some?
    ensures RunInv(c, StepRun(c, disk, r, a).value.0, StepRun(c, disk, r, a).value.1)
    ensures StepRun(c, disk, r, a).value.0.main == disk.main
  {
    assert PhaseInv(c, r, a.id);
    MovePhases(c, r, StepRun(c, disk, r, a).value.1, a.id);
  }

  /** A failed write or rename gives the lock back and leaves the checkpoint alone. */
  lemma {:induction false} FailedSaveInv(c: Config, disk: Disk, r: Run, a: Action)
    requires ValidConfig(c) && RunInv(c, disk, r) && (a.WriteFails? || a.RenameFails?)
    requires StepRun(c, disk, r, a).Some?
    ensures RunInv(c, disk, StepRun(c, disk, r, a).value.1)
    ensures StepRun(c, disk, r, a).value.0 == disk
  {
    assert PhaseInv(c, r, a.id);
    MovePhases(c, r, StepRun(c, disk, r, a).value.1, a.id);
  }

  /** The rename is the one step that changes the checkpoint during a run. */
  lemma {:induction false} RenameInv(c: Config, disk: Disk, r: Run, id: string)
    requires ValidConfig(c) && RunInv(c, disk, r) && StepRun(c, disk, r, Rename(id)).Some?
    ensures RunInv(c, StepRun(c, disk, r, Rename(id)).value.0, StepRun(c, disk, r, Rename(id)).value.1)
    ensures StepRun(c, disk, r, Rename(id)).value.0.main == Some(Saved(r.units))
  {
    assert PhaseInv(c, r, id);
    MovePhases(c, r, StepRun(c, disk, r, Rename(id)).value.1, id);
    assert r.units[..|r.units|] == r.units;
    assert r.units != [] by { assert Ids([]) == {}; }
  }

  lemma {:induction false} StartInv(c: Config, disk: Disk, readable: bool)
    requires ValidConfig(c) && GoodMain(c, disk.main)
    ensures RunInv(c, disk, StartRun(c, disk, readable))
  {
    var r := StartRun(c, disk, readable);
    assert InFlight(r) == {};
    if r.loaded.Some? {
      var units :| disk.main == Some(Saved(units)) && GoodUnits(c, units);
      assert r.log == if readable then units else [];
    }
    assert Ids([]) == {};
    forall id | id in c.accounts
      ensures PhaseInv(c, r, id)
    {
    }
  }

  lemma {:induction false} StepInv(c: Config, s: State, a: Action)
    requires ValidConfig(c) && Inv(c, s) && Step(c, s, a).Some?
    ensures Inv(c, Step(c, s, a).value)
  {
    if s.process.Down? {
      StartInv(c, s.disk, a.readable);
    } else if s.process.Up? && !a.Crash? && !a.Return? {
      var disk, r := s.disk, s.process.run;
      match a
      case Acquire(_) => SlotStepInv(c, disk, r, a);
      case GiveUp(_) => SlotStepInv(c, disk, r, a);
      case Skip(_) => SlotStepInv(c, disk, r, a);
      case ScanOk(_) => ScanStepInv(c, disk, r, a);
      case ScanError(_, _) => ScanStepInv(c, disk, r, a);
      case Release(_) => SlotStepInv(c, disk, r, a);
      case Append(id) => AppendInv(c, disk, r, id);
      case Lock(id) => LockInv(c, disk, r, id);
      case TearTmp(_) => WriteStepInv(c, disk, r, a);
      case WriteTmp(_) => WriteStepInv(c, disk, r, a);
      case WriteFails(_) => FailedSaveInv(c, disk, r, a);
      case Rename(id) => RenameInv(c, disk, r, id);
      case RenameFails(_) => FailedSaveInv(c, disk, r, a);
      case Cancel => OtherStepInv(c, disk, r, a);
      case DeleteCheckpoint(_) => OtherStepInv(c, disk, r, a);
    }
  }

  lemma {:induction false} OtherStepInv(c: Config, disk: Disk, r: Run, a: Action)
    requires ValidConfig(c) && RunInv(c, disk, r) && (a.Cancel? || a.DeleteCheckpoint?)
    requires StepRun(c, disk, r, a).Some?
    ensures RunInv(c, StepRun(c, disk, r, a).value.0, StepRun(c, disk, r, a).value.1)
    ensures StepRun(c, disk, r, a).value.0.main in {disk.main, None}
  {
    var r' := StepRun(c, disk, r, a).value.1;
    assert InFlight(r') == InFlight(r);
    forall id | id in c.accounts
      ensures PhaseInv(c, r', id)
    {
      OtherKeeps(c, r, r', id);
    }
  }

  // ---------------------------------------------------- theorems over all schedules

  /** Every reachable state satisfies the invariant. */
  lemma {:induction false} ReachableInv(c: Config, schedule: seq<Action>)
    requires ValidConfig(c)
    ensures Inv(c, Exec(c, INIT, schedule))
  {
    if schedule != [] {
      var before := schedule[..|schedule| - 1];
      ReachableInv(c, before);
      var a := schedule[|schedule| - 1];
      if Step(c, Exec(c, INIT, before), a).Some? {
        StepInv(c, Exec(c, INIT, before), a);
      }
    }
  }

  /** At every moment the checkpoint is absent or holds one complete state, whose units are whole
      results of distinct accounts; and no more accounts are in flight than there are workers. */
  lemma {:induction false} CheckpointNeverTorn(c: Config, schedule: seq<Action>)
    requires ValidConfig(c)
    ensures var s := Exec(c, INIT, schedule);
      && !Load(s.disk, true).LoadError?
      && (Load(s.disk, true).Loaded? ==> GoodUnits(c, Load(s.disk, true).state.completedUnits))
      && (s.process.Up? ==> |InFlight(s.process.run)| <= if c.maxWorkers > 0 then c.maxWorkers else 5)
  {
    ReachableInv(c, schedule);
    var s := Exec(c, INIT, schedule);
    if s.disk.main.Some? {
      var units :| s.disk.main == Some(Saved(units)) && GoodUnits(c, units);
    }
  }

  /** The first save of a resumed run drops every unit it had resumed from: they stay on disk only when
      nothing was resumed. */
  lemma {:induction false} FirstSaveForgetsResumedUnits(c: Config, schedule: seq<Action>)
    requires ValidConfig(c) && Checkpointed(c)
    ensures var s := Exec(c, INIT, schedule);
      s.process.Up? && s.process.run.saves > 0 && !s.process.run.deleted ==>
        && Load(s.disk, true).Loaded?
        && Ids(Load(s.disk, true).state.completedUnits) !! s.process.run.completed
        && (s.process.run.completed <= Ids(Load(s.disk, true).state.completedUnits) <==> s.process.run.completed == {})
  {
    ReachableInv(c, schedule);
    var s := Exec(c, INIT, schedule);
    if s.process.Up? && s.process.run.saves > 0 && !s.process.run.deleted {
      var r := s.process.run;
      var kept := Ids(r.units[..r.saves]);
      forall u | u in r.units[..r.saves]
        ensures u.id !in r.completed
      {
        assert u in r.units && u.id in Ids(r.units) && PhaseInv(c, r, u.id);
      }
      assert kept !! r.completed;
      assert r.completed <= kept ==> forall x | x in r.completed :: x in kept;
    }
  }

  /** When the scan returns: each account that was not abandoned contributed exactly once, with the
      rows of a successful scan unless its scan failed in this very run. */
  lemma {:induction false} ReturnedContributions(c: Config, schedule: seq<Action>)
    requires ValidConfig(c)
    ensures var p := Exec(c, INIT, schedule).process;
      p.Returned? ==>
        && p.findings == FindingsOf(p.last.log)
        && Ids(p.last.log) == Elements(c.accounts) - p.last.dropped
        && (forall i, j | 0 <= i < j < |p.last.log| :: p.last.log[i].id != p.last.log[j].id)
        && (forall u | u in p.last.log :: u.id in c.accounts && (u.findings == c.rows[u.id] || u.id in p.last.failed))
  {
    ReachableInv(c, schedule);
    var p := Exec(c, INIT, schedule).process;
    if p.Returned? {
      forall id
        ensures id in Ids(p.last.log) <==> id in c.accounts && id !in p.last.dropped
      {
        if id in c.accounts {
          assert PhaseInv(c, p.last, id);
        }
      }
    }
  }

  function RowsOf(c: Config, id: string): seq<FindingRow>
  {
    if id in c.rows then c.rows[id] else []
  }

  /** One copy of every account's rows. */
  function AllRows(c: Config, order: seq<string>): seq<FindingRow>
  {
    if order == [] then [] else AllRows(c, order[..|order| - 1]) + RowsOf(c, order[|order| - 1])
  }

  lemma {:induction false} FindingsAppend(a: seq<CompletedUnit>, b: seq<CompletedUnit>)
    ensures FindingsOf(a + b) == FindingsOf(a) + FindingsOf(b)
  {
    if b == [] {
      assert a + b == a;
    } else {
      assert (a + b)[..|a + b| - 1] == a + b[..|b| - 1];
      FindingsAppend(a, b[..|b| - 1]);
    }
  }

  lemma {:induction false} FindingsRemove(log: seq<CompletedUnit>, k: nat)
    requires k < |log|
    ensures multiset(FindingsOf(log)) == multiset(FindingsOf(log[..k] + log[k + 1..])) + multiset(log[k].findings)
  {
    assert log == log[..k] + ([log[k]] + log[k + 1..]);
    FindingsAppend(log[..k], [log[k]] + log[k + 1..]);
    FindingsAppend([log[k]], log[k + 1..]);
    FindingsAppend(log[..k], log[k + 1..]);
    assert [log[k]][..0] == [];
    assert FindingsOf([log[k]]) == log[k].findings;
  }

  ghost predicate TrueLog(c: Config, log: seq<CompletedUnit>)
  {
    && (forall i, j | 0 <= i < j < |log| :: log[i].id != log[j].id)
    && (forall u | u in log :: u.findings == RowsOf(c, u.id))
  }

  lemma {:induction false} OneCopyEach(c: Config, order: seq<string>, log: seq<CompletedUnit>)
    requires Distinct(order) && Ids(log) == Elements(order) && TrueLog(c, log)
    ensures multiset(FindingsOf(log)) == multiset(AllRows(c, order))
  {
    if order == [] {
      assert forall u | u in log :: u.id in Ids(log);
    } else {
      var n := |order| - 1;
      assert order == order[..n] + [order[n]];
      var k := IndexOfId(log, order[n]);
      FindingsRemove(log, k);
      RestIds(log, k);
      TrueLogRest(c, log, k);
      assert Elements(order[..n]) == Elements(order) - {order[n]};
      OneCopyEach(c, order[..n], log[..k] + log[k + 1..]);
    }
  }

  lemma {:induction false} TrueLogRest(c: Config, log: seq<CompletedUnit>, k: nat)
    requires TrueLog(c, log) && k < |log|
    ensures TrueLog(c, log[..k] + log[k + 1..]) && log[k].findings == RowsOf(c, log[k].id)
  {
    var rest := log[..k] + log[k + 1..];
    forall u | u in rest
      ensures u in log
    {
    }
  }

  lemma {:induction false} IndexOfId(log: seq<CompletedUnit>, id: string) returns (k: nat)
    requires id in Ids(log)
    ensures k < |log| && log[k].id == id
  {
    var u :| u in log && u.id == id;
    k :| k < |log| && log[k] == u;
  }

  lemma {:induction false} RestIds(log: seq<CompletedUnit>, k: nat)
    requires k < |log| && forall i, j | 0 <= i < j < |log| :: log[i].id != log[j].id
    ensures Ids(log[..k] + log[k + 1..]) == Ids(log) - {log[k].id}
  {
    var rest := log[..k] + log[k + 1..];
    forall x
      ensures x in Ids(rest) <==> x in Ids(log) && x != log[k].id
    {
      if x in Ids(log) && x != log[k].id {
        var i :| 0 <= i < |log| && log[i].id == x;
        assert log[i] == rest[if i < k then i else i - 1];
      }
    }
  }

  /** No cancellation and no failing scan so far. */
  predicate Calm(schedule: seq<Action>)
  {
    forall a | a in schedule :: !a.Cancel? && !a.ScanError?
  }

  ghost predicate NothingLost(p: Process)
  {
    && (p.Up? ==> !p.run.cancelled && p.run.dropped == {} && p.run.failed == {})
    && (p.Returned? ==> p.last.dropped == {} && p.last.failed == {})
  }

  lemma {:induction false} CalmLosesNothing(c: Config, schedule: seq<Action>)
    requires ValidConfig(c) && Calm(schedule)
    ensures NothingLost(Exec(c, INIT, schedule).process)
  {
    if schedule != [] {
      CalmLosesNothing(c, schedule[..|schedule| - 1]);
      assert schedule[|schedule| - 1] in schedule;
    }
  }

  /** Crash-safe resume: with successful scans and no cancellation, whatever the interleaving and
      however often the process crashed, was started again or failed to save, the run that returns
      returns exactly one copy of each account's rows. */
  lemma {:induction false} CrashSafeResume(c: Config, schedule: seq<Action>, order: seq<string>)
    requires ValidConfig(c) && Calm(schedule)
    requires Distinct(order) && Elements(order) == Elements(c.accounts)
    ensures var p := Exec(c, INIT, schedule).process;
      p.Returned? ==> multiset(p.findings) == multiset(AllRows(c, order))
  {
    forall id | id in order
      ensures id in c.accounts
    {
      assert id in Elements(order);
    }
    CalmLosesNothing(c, schedule);
    ReturnedContributions(c, schedule);
    var p := Exec(c, INIT, schedule).process;
    if p.Returned? {
      OneCopyEach(c, order, p.last.log);
    }
  }

  // ------------------------------------------------------------------ progress

  function PhaseWeight(p: Phase): nat
  {
    match p
    case Waiting => 7
    case Holding => 6
    case Scanned(_, _) => 5
    case Appended(_) => 4
    case Locked => 3
    case Written => 2
    case Leaving => 1
    case Gone => 0
  }

  function Weight(accounts: seq<string>, phase: map<string, Phase>): nat
  {
    if accounts == [] then 0
    else Weight(accounts[1..], phase) + (if accounts[0] in phase then PhaseWeight(phase[accounts[0]]) else 0)
  }

  lemma {:induction false} WeightMoves(accounts: seq<string>, phase: map<string, Phase>, id: string, p: Phase)
    requires Distinct(accounts) && id in phase
    ensures Weight(accounts, phase[id := p])
            == Weight(accounts, phase) + (if id in accounts then PhaseWeight(p) - PhaseWeight(phase[id]) else 0)
  {
    if accounts != [] {
      WeightMoves(accounts[1..], phase, id, p);
    }
  }

  /** `a` is enabled, benign, and brings one account closer to the end. */
  ghost predicate Advances(c: Config, disk: Disk, r: Run, a: Action)
    requires ValidConfig(c)
  {
    && Benign(a) && StepRun(c, disk, r, a).Some?
    && Weight(c.accounts, StepRun(c, disk, r, a).value.1.phase) < Weight(c.accounts, r.phase)
  }

  lemma {:induction false} MoveAdvances(c: Config, disk: Disk, r: Run, a: Action, id: string, p: Phase)
    requires ValidConfig(c) && id in c.accounts && id in r.phase && Benign(a)
    requires StepRun(c, disk, r, a).Some? && StepRun(c, disk, r, a).value.1.phase == r.phase[id := p]
    requires PhaseWeight(p) < PhaseWeight(r.phase[id])
    ensures Advances(c, disk, r, a)
  {
    WeightMoves(c.accounts, r.phase, id, p);
  }

  lemma {:induction false} LockHolderAdvances(c: Config, disk: Disk, r: Run, id: string) returns (a: Action)
    requires ValidConfig(c) && RunInv(c, disk, r) && r.lock == Some(id)
    ensures Advances(c, disk, r, a)
  {
    assert PhaseInv(c, r, id);
    hide PhaseInv, LogInv, GoodUnits;
    if r.phase[id].Locked? {
      a := WriteTmp(id);
      MoveAdvances(c, disk, r, a, id, Written);
    } else {
      a := Rename(id);
      MoveAdvances(c, disk, r, a, id, Leaving);
    }
  }

  lemma {:induction false} HoldingAdvances(c: Config, disk: Disk, r: Run, id: string) returns (a: Action)
    requires ValidConfig(c) && RunInv(c, disk, r) && id in r.phase && r.phase[id].Holding?
    ensures Advances(c, disk, r, a)
  {
    if id in r.completed {
      a := Skip(id);
      MoveAdvances(c, disk, r, a, id, Leaving);
    } else {
      a := ScanOk(id);
      MoveAdvances(c, disk, r, a, id, Scanned(c.rows[id], true));
    }
  }

  lemma {:induction false} ScannedAdvances(c: Config, disk: Disk, r: Run, id: string)
    requires ValidConfig(c) && RunInv(c, disk, r) && id in r.phase && r.phase[id].Scanned?
    ensures Advances(c, disk, r, Append(id))
  {
    var p := r.phase[id];
    MoveAdvances(c, disk, r, Append(id), id, if p.ok && Checkpointed(c) then Appended(p.rows) else Leaving);
  }

  lemma {:induction false} AppendedAdvances(c: Config, disk: Disk, r: Run, id: string)
    requires ValidConfig(c) && RunInv(c, disk, r) && r.lock.None? && id in r.phase && r.phase[id].Appended?
    ensures Advances(c, disk, r, Lock(id))
  {
    MoveAdvances(c, disk, r, Lock(id), id, Locked);
  }

  lemma {:induction false} LeavingAdvances(c: Config, disk: Disk, r: Run, id: string)
    requires ValidConfig(c) && RunInv(c, disk, r) && id in r.phase && r.phase[id].Leaving?
    ensures Advances(c, disk, r, Release(id))
  {
    MoveAdvances(c, disk, r, Release(id), id, Gone);
  }

  lemma {:induction false} WaitingAdvances(c: Config, disk: Disk, r: Run, id: string)
    requires ValidConfig(c) && RunInv(c, disk, r) && id in r.phase && r.phase[id].Waiting? && InFlight(r) == {}
    ensures Advances(c, disk, r, Acquire(id))
  {
    MoveAdvances(c, disk, r, Acquire(id), id, Holding);
  }

  /** Somebody can always move while someone is still at work. */
  lemma {:induction false} NextAction(c: Config, disk: Disk, r: Run) returns (a: Action)
    requires ValidConfig(c) && RunInv(c, disk, r)
    requires exists id :: id in r.phase && !r.phase[id].Gone?
    ensures Advances(c, disk, r, a)
  {
    if r.lock.Some? {
      a := LockHolderAdvances(c, disk, r, r.lock.value);
    } else if id :| id in r.phase && Busy(r.phase[id]) {
      assert PhaseInv(c, r, id);
      match r.phase[id] {
        case Holding => a := HoldingAdvances(c, disk, r, id);
        case Scanned(_, _) => a := Append(id); ScannedAdvances(c, disk, r, id);
        case Appended(_) => a := Lock(id); AppendedAdvances(c, disk, r, id);
        case Leaving => a := Release(id); LeavingAdvances(c, disk, r, id);
      }
    } else {
      var id :| id in r.phase && !r.phase[id].Gone?;
      assert InFlight(r) == {};
      a := Acquire(id);
      WaitingAdvances(c, disk, r, id);
    }
  }

  /** Steps of an undisturbed run: no crash, no cancellation, no failing scan or write. */
  predicate Benign(a: Action)
  {
    !a.Crash? && !a.Cancel? && !a.GiveUp? && !a.ScanError? && !a.WriteFails? && !a.RenameFails?
    && !a.TearTmp? && a != DeleteCheckpoint(true)
  }

  lemma {:induction false} ExecCons(c: Config, s: State, a: Action, rest: seq<Action>)
    requires ValidConfig(c) && Step(c, s, a).Some?
    ensures Exec(c, s, [a] + rest) == Exec(c, Step(c, s, a).value, rest)
  {
    var all := [a] + rest;
    if rest == [] {
      assert all == [a];
      ExecOne(c, s, a);
    } else {
      assert all[..|all| - 1] == [a] + rest[..|rest| - 1];
      ExecCons(c, s, a, rest[..|rest| - 1]);
    }
  }

  lemma {:induction false} ExecAppend(c: Config, s: State, before: seq<Action>, after: seq<Action>)
    requires ValidConfig(c)
    ensures Exec(c, s, before + after) == Exec(c, Exec(c, s, before), after)
  {
    if after == [] {
      assert before + after == before;
    } else {
      assert (before + after)[..|before + after| - 1] == before + after[..|after| - 1];
      ExecAppend(c, s, before, after[..|after| - 1]);
    }
  }

  /** From any reachable running state an undisturbed schedule leads to the return. */
  lemma {:induction false} CanFinish(c: Config, s: State) returns (schedule: seq<Action>)
    requires ValidConfig(c) && Inv(c, s) && s.process.Up?
    ensures forall a | a in schedule :: Benign(a)
    ensures Exec(c, s, schedule).process.Returned?
    decreases Weight(c.accounts, s.process.run.phase), if s.process.run.deleted then 0 else 1
  {
    hide RunInv, Weight;
    var r := s.process.run;
    if id :| id in r.phase && !r.phase[id].Gone? {
      var a := NextAction(c, s.disk, r);
      StepInv(c, s, a);
      var rest := CanFinish(c, Step(c, s, a).value);
      schedule := [a] + rest;
      ExecCons(c, s, a, rest);
    } else if Checkpointed(c) && !r.deleted {
      var a := DeleteCheckpoint(false);
      StepInv(c, s, a);
      var rest := CanFinish(c, Step(c, s, a).value);
      schedule := [a] + rest;
      ExecCons(c, s, a, rest);
    } else {
      schedule := [Return];
      ExecOne(c, s, Return);
    }
  }

  /** No schedule of crashes and restarts can leave the scan stuck: from wherever it stands it can
      be run to the end, and that end is complete. */
  lemma {:induction false} AlwaysRecoverable(c: Config, schedule: seq<Action>) returns (rest: seq<Action>)
    requires ValidConfig(c) && Calm(schedule)
    ensures Calm(schedule + rest)
    ensures var p := Exec(c, INIT, schedule + rest).process;
      p.Returned? && multiset(p.findings) == multiset(AllRows(c, c.accounts))
  {
    ReachableInv(c, schedule);
    var s := Exec(c, INIT, schedule);
    if s.process.Returned? {
      rest := [];
    } else if s.process.Up? {
      rest := CanFinish(c, s);
    } else {
      StepInv(c, s, Start(true));
      var tail := CanFinish(c, Step(c, s, Start(true)).value);
      rest := [Start(true)] + tail;
      ExecCons(c, s, Start(true), tail);
    }
    ExecAppend(c, INIT, schedule, rest);
    forall a | a in schedule + rest
      ensures !a.Cancel? && !a.ScanError?
    {
      assert a in schedule || a in rest;
    }
    CrashSafeResume(c, schedule + rest, c.accounts);
  }

  /** Deletion is not reserved to full success: a run that is cancelled while its other accounts still wait for
      a slot can only give them all up, and then it deletes the checkpoint and returns no more than it had. */
  lemma {:induction false} CancelledRunStillDeletes(c: Config, s: State) returns (schedule: seq<Action>)
    requires ValidConfig(c) && Inv(c, s) && s.process.Up? && Checkpointed(c)
    requires var r := s.process.run;
      r.cancelled && !r.deleted && forall id | id in r.phase :: r.phase[id].Waiting? || r.phase[id].Gone?
    ensures var e := Exec(c, s, schedule);
      && e.process.Returned? && e.disk.main.None?
      && e.process.findings == s.process.run.findings && e.process.last.log == s.process.run.log
    decreases Weight(c.accounts, s.process.run.phase)
  {
    hide LogInv, FileInv, GoodUnits, PhaseInv;
    var r := s.process.run;
    if id :| id in r.phase && r.phase[id].Waiting? {
      var a := GiveUp(id);
      StepInv(c, s, a);
      WeightMoves(c.accounts, r.phase, id, Gone);
      var rest := CancelledRunStillDeletes(c, Step(c, s, a).value);
      schedule := [a] + rest;
      ExecCons(c, s, a, rest);
    } else {
      schedule := DeleteThenReturn(c, s);
    }
  }

  lemma {:induction false} DeleteThenReturn(c: Config, s: State) returns (schedule: seq<Action>)
    requires ValidConfig(c) && s.process.Up? && Checkpointed(c) && !s.process.run.deleted
    requires forall id | id in s.process.run.phase :: s.process.run.phase[id].Gone?
    ensures var e := Exec(c, s, schedule);
      && e.process.Returned? && e.disk.main.None?
      && e.process.findings == s.process.run.findings && e.process.last.log == s.process.run.log
  {
    var s1 := Step(c, s, DeleteCheckpoint(false)).value;
    ExecOne(c, s1, Return);
    schedule := [DeleteCheckpoint(false)] + [Return];
    ExecCons(c, s, DeleteCheckpoint(false), [Return]);
  }

  lemma {:induction false} ExecOne(c: Config, s: State, a: Action)
    requires ValidConfig(c) && Step(c, s, a).Some?
    ensures Exec(c, s, [a]) == Step(c, s, a).value
  {
    assert [a][..0] == [];
    assert Exec(c, s, [a][..|[a]| - 1]) == s;
  }
}
