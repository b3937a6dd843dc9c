/** What a run of scanOrg has lost by the time it deletes its checkpoint (internal/scanner/aws/scanner.go),
    schedules that show such losses, and AddUnit's saves as steps of the run. */
module OrgOutcomes {
  import opened Base
  import opened Calculator
  import opened Checkpoint
  import opened OrgScan

  // -------------------------------------------------- deletion and full success

  /** What a step of a run adds to the losses: an unfinished account that gives up, or a scan that fails short of
      the account's rows. */
  function Lost(c: Config, r: Run, a: Action): set<string>
  {
    match a
    case GiveUp(id) => {id} - r.completed
    case ScanError(id, partial) => if partial != RowsOf(c, id) then {id} else {}
    case _ => {}
  }

  function LossesAfter(c: Config, losses: set<string>, s: State, a: Action): set<string>
  {
    match s.process
    case Down => {}
    case Up(r) => if a.Crash? || a.Return? then losses else losses + Lost(c, r, a)
    case Returned(_, _) => losses
  }

  /** The accounts lost since the last start. */
  function Losses(c: Config, schedule: seq<Action>): set<string>
    requires ValidConfig(c)
  {
    if schedule == [] then {}
    else
      var before, a := schedule[..|schedule| - 1], schedule[|schedule| - 1];
      var s := Exec(c, INIT, before);
      if Step(c, s, a).None? then Losses(c, before) else LossesAfter(c, Losses(c, before), s, a)
  }

  /** The run has contributed the rows of a successful scan of the account. */
  ghost predicate Delivered(c: Config, r: Run, id: string)
  {
    exists u | u in r.log :: u.id == id && u.findings == RowsOf(c, id)
  }

  ghost predicate Misdelivered(c: Config, log: seq<CompletedUnit>, id: string)
  {
    exists u | u in log :: u.id == id && u.findings != RowsOf(c, id)
  }

  ghost predicate LostAt(c: Config, r: Run, id: string)
  {
    || id in r.dropped
    || (id in r.phase && r.phase[id].Scanned? && r.phase[id].rows != RowsOf(c, id))
    || Misdelivered(c, r.log, id)
  }

  /** The losses are where the run shows them. */
  ghost predicate LossInv(c: Config, r: Run, losses: set<string>)
  {
    && (forall id :: id in losses <==> LostAt(c, r, id))
    && (forall id | id in losses :: id in c.accounts)
  }

  function Last(p: Process): Option<Run>
  {
    match p
    case Down => None
    case Up(r) => Some(r)
    case Returned(_, r) => Some(r)
  }

  lemma {:induction false} MisdeliveredSnoc(c: Config, log: seq<CompletedUnit>, u: CompletedUnit, id: string)
    ensures Misdelivered(c, log + [u], id) <==> Misdelivered(c, log, id) || (u.id == id && u.findings != RowsOf(c, id))
  {
    assert forall x | x in log + [u] :: x in log || x == u;
    assert u in log + [u] && forall x | x in log :: x in log + [u];
  }

  lemma {:induction false} StartLosesNothing(c: Config, disk: Disk, readable: bool)
    requires ValidConfig(c) && GoodMain(c, disk.main)
    ensures LossInv(c, StartRun(c, disk, readable), {})
  {
    var r := StartRun(c, disk, readable);
    if r.loaded.Some? {
      var units :| disk.main == Some(Saved(units)) && GoodUnits(c, units);
      assert r.log == if readable then units else [];
    }
    assert r.log == [] || GoodUnits(c, r.log);
    forall id
      ensures !LostAt(c, r, id)
    {
    }
  }

  /** The account that a step moves, if any. */
  function Mover(a: Action): Option<string>
  {
    match a
    case Start(_) => None
    case Crash => None
    case Cancel => None
    case DeleteCheckpoint(_) => None
    case Return => None
    case _ => Some(a.id)
  }

  lemma {:induction false} OthersKeep(c: Config, disk: Disk, r: Run, a: Action, id: string)
    requires ValidConfig(c) && StepRun(c, disk, r, a).Some? && Mover(a) != Some(id)
    ensures LostAt(c, StepRun(c, disk, r, a).value.1, id) <==> LostAt(c, r, id)
  {
    if a.Append? && a.id in r.phase && r.phase[a.id].Scanned? {
      MisdeliveredSnoc(c, r.log, Unit(c, a.id, r.phase[a.id].rows), id);
    }
  }

  lemma {:induction false} MoverLoses(c: Config, disk: Disk, r: Run, a: Action, id: string)
    requires ValidConfig(c) && RunInv(c, disk, r)
    requires StepRun(c, disk, r, a).Some? && Mover(a) == Some(id)
    ensures LostAt(c, StepRun(c, disk, r, a).value.1, id) <==> LostAt(c, r, id) || id in Lost(c, r, a)
  {
    assert PhaseInv(c, r, id);
    if a.Append? {
      MisdeliveredSnoc(c, r.log, Unit(c, id, r.phase[id].rows), id);
    }
  }

  lemma {:induction false} LostIsMover(c: Config, disk: Disk, r: Run, a: Action)
    requires ValidConfig(c) && PhasesInv(c, r) && StepRun(c, disk, r, a).Some?
    ensures forall id | id in Lost(c, r, a) :: Mover(a) == Some(id) && id in c.accounts
  {
  }

  lemma {:induction false} StepLosses(c: Config, disk: Disk, r: Run, a: Action, losses: set<string>)
    requires ValidConfig(c) && RunInv(c, disk, r) && LossInv(c, r, losses)
    requires StepRun(c, disk, r, a).Some?
    ensures LossInv(c, StepRun(c, disk, r, a).value.1, losses + Lost(c, r, a))
  {
    LostIsMover(c, disk, r, a);
    hide RunInv, StepRun, Lost, Mover;
    forall id
      ensures id in losses + Lost(c, r, a) <==> LostAt(c, StepRun(c, disk, r, a).value.1, id)
    {
      hide LostAt;
      if Mover(a) == Some(id) {
        MoverLoses(c, disk, r, a, id);
      } else {
        OthersKeep(c, disk, r, a, id);
      }
    }
  }

  lemma {:induction false} LossesStep(c: Config, s: State, a: Action, losses: set<string>)
    requires ValidConfig(c) && Inv(c, s) && Step(c, s, a).Some?
    requires Last(s.process).Some? ==> LossInv(c, Last(s.process).value, losses)
    ensures var last := Last(Step(c, s, a).value.process);
      last.Some? ==> LossInv(c, last.value, LossesAfter(c, losses, s, a))
  {
    hide LossInv, StepRun, RunInv, StartRun;
    if s.process.Up? {
      if StepRun(c, s.disk, s.process.run, a).Some? {
        StepLosses(c, s.disk, s.process.run, a, losses);
      }
    } else if s.process.Down? {
      StartLosesNothing(c, s.disk, a.readable);
    }
  }

  /** The losses read off the schedule are those the run shows. */
  lemma {:induction false} LossesAreShown(c: Config, schedule: seq<Action>)
    requires ValidConfig(c)
    ensures var last := Last(Exec(c, INIT, schedule).process);
      last.Some? ==> LossInv(c, last.value, Losses(c, schedule))
  {
    if schedule != [] {
      var before, a := schedule[..|schedule| - 1], schedule[|schedule| - 1];
      LossesAreShown(c, before);
      ReachableInv(c, before);
      hide Step, LossInv, Inv, LossesAfter;
      if Step(c, Exec(c, INIT, before), a).Some? {
        LossesStep(c, Exec(c, INIT, before), a, Losses(c, before));
      }
    }
  }

  ghost predicate AllGone(c: Config, r: Run)
  {
    forall id | id in c.accounts :: id in r.phase && r.phase[id].Gone?
  }

  lemma {:induction false} DeletedStep(c: Config, disk: Disk, r: Run, a: Action)
    requires ValidConfig(c) && PhasesInv(c, r) && StepRun(c, disk, r, a).Some?
    requires r.deleted ==> AllGone(c, r)
    ensures StepRun(c, disk, r, a).value.1.deleted ==> AllGone(c, StepRun(c, disk, r, a).value.1)
  {
    GoneStays(c, disk, r, a);
    hide PhaseInv;
  }

  lemma {:induction false} GoneStays(c: Config, disk: Disk, r: Run, a: Action)
    requires ValidConfig(c) && PhasesInv(c, r)
    ensures AllGone(c, r) && Mover(a).Some? ==> StepRun(c, disk, r, a).None?
  {
  }

  lemma {:induction false} DeletedMeansGone(c: Config, schedule: seq<Action>)
    requires ValidConfig(c)
    ensures var s := Exec(c, INIT, schedule);
      s.process.Returned? || (s.process.Up? && s.process.run.deleted) ==> AllGone(c, Last(s.process).value)
  {
    ReachableInv(c, schedule);
    if schedule != [] {
      var before, a := schedule[..|schedule| - 1], schedule[|schedule| - 1];
      DeletedMeansGone(c, before);
      ReachableInv(c, before);
      var s := Exec(c, INIT, before);
      if s.process.Up? && StepRun(c, s.disk, s.process.run, a).Some? {
        DeletedStep(c, s.disk, s.process.run, a);
      }
      hide StepRun, RunInv, AllGone;
    }
  }

  /** Once the account is done, it was either lost or delivered. */
  lemma {:induction false} LostOrDelivered(c: Config, disk: Disk, r: Run, id: string)
    requires ValidConfig(c) && RunInv(c, disk, r) && id in c.accounts && r.phase[id].Gone?
    ensures Delivered(c, r, id) <==> !LostAt(c, r, id)
  {
    assert PhaseInv(c, r, id);
    if id in Ids(r.log) {
      var k := IndexOfId(r.log, id);
      assert forall u | u in r.log && u.id == id :: u == r.log[k];
      assert r.log[k] in r.log;
    } else {
      assert forall u | u in r.log :: u.id in Ids(r.log);
    }
  }

  /** Full success is exactly this: once a run has deleted the checkpoint, or has returned, every account has
      contributed the rows of a successful scan if and only if nothing was lost since the last start. */
  lemma {:induction false} CompleteIff(c: Config, schedule: seq<Action>)
    requires ValidConfig(c)
    ensures var s := Exec(c, INIT, schedule);
      s.process.Returned? || (s.process.Up? && s.process.run.deleted) ==>
        ((forall id | id in c.accounts :: Delivered(c, Last(s.process).value, id)) <==> Losses(c, schedule) == {})
  {
    ReachableInv(c, schedule);
    DeletedMeansGone(c, schedule);
    LossesAreShown(c, schedule);
    var s := Exec(c, INIT, schedule);
    if s.process.Returned? || (s.process.Up? && s.process.run.deleted) {
      var r, losses := Last(s.process).value, Losses(c, schedule);
      forall id | id in c.accounts
        ensures Delivered(c, r, id) <==> id !in losses
      {
        LostOrDelivered(c, s.disk, r, id);
      }
      assert losses == {} <==> forall id | id in c.accounts :: id !in losses;
    }
  }

  /** A run that returns without losses returns one copy of each account's rows, whatever earlier runs went through. */
  lemma {:induction false} NoLossesNoGaps(c: Config, schedule: seq<Action>, order: seq<string>)
    requires ValidConfig(c) && Losses(c, schedule) == {}
    requires Distinct(order) && Elements(order) == Elements(c.accounts)
    ensures var p := Exec(c, INIT, schedule).process;
      p.Returned? ==> multiset(p.findings) == multiset(AllRows(c, order))
  {
    ReachableInv(c, schedule);
    DeletedMeansGone(c, schedule);
    LossesAreShown(c, schedule);
    ReturnedContributions(c, schedule);
    var p := Exec(c, INIT, schedule).process;
    if p.Returned? {
      var r := p.last;
      forall u | u in r.log
        ensures u.findings == RowsOf(c, u.id)
      {
        assert !LostAt(c, r, u.id);
      }
      forall id | id in r.dropped
        ensures false
      {
        assert LostAt(c, r, id);
      }
      OneCopyEach(c, order, r.log);
    }
  }

  // ------------------------------------------------------------ witness runs

  ghost predicate TwoAccounts(c: Config, a: string, b: string)
  {
    ValidConfig(c) && c.hasPath && c.accounts == [a, b]
  }

  /** The steps of one account that is scanned and saved undisturbed. */
  function SaveSteps(id: string): seq<Action>
  {
    [Acquire(id)] + ([ScanOk(id)] + ([Append(id)] + ([Lock(id)] + ([WriteTmp(id)] + [Rename(id)]))))
  }

  /** The state in which those steps leave a run that nothing else is moving. */
  function AfterSave(c: Config, r: Run, id: string): State
    requires id in c.rows
  {
    var u := Unit(c, id, c.rows[id]);
    State(Disk(Some(Saved(r.units + [u])), None),
          Up(r.(phase := r.phase[id := Leaving], findings := r.findings + u.findings, log := r.log + [u],
                units := r.units + [u], saves := |r.units| + 1)))
  }

  ghost predicate ReadyToSave(c: Config, r: Run, id: string)
    requires ValidConfig(c)
  {
    && Checkpointed(c) && id in r.phase && id in c.rows && r.phase[id].Waiting? && InFlight(r) == {}
    && r.lock.None? && id !in r.completed
  }

  lemma {:induction false} AtTwice(r: Run, id: string, p: Phase, q: Phase)
    ensures r.phase[id := p][id := q] == r.phase[id := q]
  {
  }

  lemma {:induction false} SaveOne(c: Config, disk: Disk, r: Run, id: string)
    requires ValidConfig(c) && ReadyToSave(c, r, id)
    ensures Exec(c, State(disk, Up(r)), SaveSteps(id)) == AfterSave(c, r, id)
  {
    var u := Unit(c, id, c.rows[id]);
    var s := State(disk, Up(r));
    var s1 := State(disk, Up(At(r, id, Holding)));
    var s2 := State(disk, Up(At(r, id, Scanned(u.findings, true))));
    var r3 := At(r, id, Appended(u.findings)).(findings := r.findings + u.findings, log := r.log + [u]);
    assert Step(c, s, Acquire(id)) == Some(s1);
    AtTwice(r, id, Holding, Scanned(u.findings, true));
    assert Step(c, s1, ScanOk(id)) == Some(s2);
    AtTwice(r, id, Scanned(u.findings, true), Appended(u.findings));
    assert Step(c, s2, Append(id)) == Some(State(disk, Up(r3)));
    SaveTail(c, disk, r3, id, u.findings);
    AtTwice(r, id, Appended(u.findings), Leaving);
    hide Step;
    var tail := [Lock(id)] + ([WriteTmp(id)] + [Rename(id)]);
    ExecCons(c, s2, Append(id), tail);
    ExecCons(c, s1, ScanOk(id), [Append(id)] + tail);
    ExecCons(c, s, Acquire(id), [ScanOk(id)] + ([Append(id)] + tail));
  }

  lemma {:induction false} SaveTail(c: Config, disk: Disk, r: Run, id: string, rows: seq<FindingRow>)
    requires ValidConfig(c) && id in r.phase && r.phase[id] == Appended(rows) && r.lock.None?
    ensures Exec(c, State(disk, Up(r)), [Lock(id)] + ([WriteTmp(id)] + [Rename(id)]))
            == State(Disk(Some(Saved(r.units + [Unit(c, id, rows)])), None),
                     Up(At(r, id, Leaving).(units := r.units + [Unit(c, id, rows)], saves := |r.units| + 1)))
  {
    var units := r.units + [Unit(c, id, rows)];
    var whole := disk.(tmp := Some(Saved(units)));
    var s := State(disk, Up(r));
    var s1 := State(disk, Up(At(r, id, Locked).(lock := Some(id), units := units)));
    var s2 := State(whole, Up(At(r, id, Phase.Written).(lock := Some(id), units := units)));
    assert Step(c, s, Lock(id)) == Some(s1);
    AtTwice(r, id, Locked, Phase.Written);
    AtTwice(r, id, Phase.Written, Leaving);
    assert Step(c, s1, WriteTmp(id)) == Some(s2);
    assert Step(c, s2, Rename(id)).Some?;
    ExecCons(c, s1, WriteTmp(id), [Rename(id)]);
    ExecCons(c, s, Lock(id), [WriteTmp(id)] + [Rename(id)]);
    ExecOne(c, s2, Rename(id));
  }

  /** A first process saves `a` and crashes; a second one resumes from that checkpoint. */
  lemma {:induction false} Resumed(c: Config, a: string, b: string) returns (schedule: seq<Action>)
    requires TwoAccounts(c, a, b)
    ensures var disk := Disk(Some(Saved([Unit(c, a, c.rows[a])])), None);
      Exec(c, INIT, schedule) == State(disk, Up(StartRun(c, disk, true)))
  {
    var r0 := StartRun(c, EMPTY_DISK, true);
    var disk := Disk(Some(Saved([Unit(c, a, c.rows[a])])), None);
    assert InFlight(r0) == {} && ReadyToSave(c, r0, a);
    assert Step(c, INIT, Start(true)) == Some(State(EMPTY_DISK, Up(r0)));
    ExecCons(c, INIT, Start(true), SaveSteps(a));
    SaveOne(c, EMPTY_DISK, r0, a);
    var saved := AfterSave(c, r0, a);
    assert r0.units == [] && saved.disk == disk by { assert [] + [Unit(c, a, c.rows[a])] == [Unit(c, a, c.rows[a])]; }
    assert Step(c, saved, Crash) == Some(State(disk, Down));
    assert Step(c, State(disk, Down), Start(true)) == Some(State(disk, Up(StartRun(c, disk, true))));
    hide Step, SaveSteps, StartRun;
    ExecOne(c, State(disk, Down), Start(true));
    ExecCons(c, saved, Crash, [Start(true)]);
    schedule := ([Start(true)] + SaveSteps(a)) + ([Crash] + [Start(true)]);
    ExecAppend(c, INIT, [Start(true)] + SaveSteps(a), [Crash] + [Start(true)]);
  }

  lemma {:induction false} ResumedRun(c: Config, a: string, b: string)
    requires TwoAccounts(c, a, b)
    ensures var r := StartRun(c, Disk(Some(Saved([Unit(c, a, c.rows[a])])), None), true);
      && r.completed == {a} && r.findings == c.rows[a] && r.log == [Unit(c, a, c.rows[a])] && r.units == []
      && r.phase == map[a := Waiting, b := Waiting] && a != b && r.lock.None? && !r.deleted && r.dropped == {}
      && InFlight(r) == {}
  {
    var u := Unit(c, a, c.rows[a]);
    OneUnit(u);
    assert a == c.accounts[0] && b == c.accounts[1];
    hide FindingsOf, Ids, Unit;
    var r := StartRun(c, Disk(Some(Saved([u])), None), true);
    assert forall id :: id in r.phase <==> id == a || id == b;
    NobodyInFlight(r);
  }

  lemma {:induction false} NobodyInFlight(r: Run)
    requires forall id | id in r.phase :: r.phase[id].Waiting?
    ensures InFlight(r) == {}
  {
  }

  lemma {:induction false} OneUnit(u: CompletedUnit)
    ensures Ids([u]) == {u.id} && FindingsOf([u]) == u.findings
  {
    IdsSnoc([], u);
    assert [] + [u] == [u] && Ids([]) == {};
    assert [u][..0] == [];
  }

  /** A reachable run of two accounts that has resumed `a`: its first save leaves `b` alone on disk. */
  lemma {:induction false} SavedUnitsCanVanish(c: Config, a: string, b: string) returns (schedule: seq<Action>)
    requires TwoAccounts(c, a, b)
    ensures var s := Exec(c, INIT, schedule);
      && s.process.Up? && s.process.run.completed == {a} && s.process.run.saves > 0 && !s.process.run.deleted
      && Load(s.disk, true).Loaded? && Ids(Load(s.disk, true).state.completedUnits) == {b}
  {
    var before := Resumed(c, a, b);
    ResumedRun(c, a, b);
    var s := Exec(c, INIT, before);
    var r := s.process.run;
    assert b in c.accounts && ReadyToSave(c, r, b);
    SaveOne(c, s.disk, r, b);
    schedule := before + SaveSteps(b);
    ExecAppend(c, INIT, before, SaveSteps(b));
    IdsSnoc([], Unit(c, b, c.rows[b]));
    assert [] + [Unit(c, b, c.rows[b])] == [Unit(c, b, c.rows[b])] && Ids([]) == {};
  }

  /** A reachable run that is cancelled, deletes the checkpoint holding `a`, and returns without `b`. */
  lemma {:induction false} CancelledRunLosesAnAccount(c: Config, a: string, b: string) returns (schedule: seq<Action>)
    requires TwoAccounts(c, a, b)
    ensures var s := Exec(c, INIT, schedule);
      && s.process.Returned? && s.disk.main.None? && s.process.findings == c.rows[a]
      && !Delivered(c, s.process.last, b) && Losses(c, schedule) == {b}
  {
    var before := Resumed(c, a, b);
    ResumedRun(c, a, b);
    var s := Exec(c, INIT, before);
    var ending := [Cancel] + ([GiveUp(a)] + ([GiveUp(b)] + ([DeleteCheckpoint(false)] + [Return])));
    var last := s.process.run.(phase := map[a := Gone, b := Gone], cancelled := true, dropped := {b}, deleted := true);
    GiveUpBoth(c, s.disk, s.process.run, a, b, last);
    schedule := before + ending;
    ExecAppend(c, INIT, before, ending);
    LossesAreShown(c, schedule);
    forall id
      ensures LostAt(c, last, id) <==> id == b
    {
    }
  }

  lemma {:induction false} GiveUpBoth(c: Config, disk: Disk, r: Run, a: string, b: string, last: Run)
    requires TwoAccounts(c, a, b) && a != b && Checkpointed(c)
    requires r.completed == {a} && r.phase == map[a := Waiting, b := Waiting] && !r.deleted && r.dropped == {}
    requires last == r.(phase := map[a := Gone, b := Gone], cancelled := true, dropped := {b}, deleted := true)
    ensures Exec(c, State(disk, Up(r)),
                 [Cancel] + ([GiveUp(a)] + ([GiveUp(b)] + ([DeleteCheckpoint(false)] + [Return]))))
            == State(disk.(main := None), Returned(r.findings, last))
  {
    var s := State(disk, Up(r));
    var r1 := r.(cancelled := true);
    var r2 := r1.(phase := map[a := Gone, b := Waiting]);
    var r3 := r1.(phase := map[a := Gone, b := Gone], dropped := {b});
    assert r.dropped + ({a} - r.completed) == {} && {} + ({b} - r.completed) == {b};
    assert r1.phase[a := Gone] == r2.phase && r2.phase[b := Gone] == r3.phase;
    assert Step(c, s, Cancel) == Some(State(disk, Up(r1)));
    assert Step(c, State(disk, Up(r1)), GiveUp(a)) == Some(State(disk, Up(r2)));
    assert Step(c, State(disk, Up(r2)), GiveUp(b)) == Some(State(disk, Up(r3)));
    assert Step(c, State(disk, Up(r3)), DeleteCheckpoint(false)) == Some(State(disk.(main := None), Up(last)));
    assert Step(c, State(disk.(main := None), Up(last)), Return)
           == Some(State(disk.(main := None), Returned(r.findings, last)));
    hide Step;
    ExecOne(c, State(disk.(main := None), Up(last)), Return);
    ExecCons(c, State(disk, Up(r3)), DeleteCheckpoint(false), [Return]);
    ExecCons(c, State(disk, Up(r2)), GiveUp(b), [DeleteCheckpoint(false)] + [Return]);
    ExecCons(c, State(disk, Up(r1)), GiveUp(a), [GiveUp(b)] + ([DeleteCheckpoint(false)] + [Return]));
    ExecCons(c, s, Cancel, [GiveUp(a)] + ([GiveUp(b)] + ([DeleteCheckpoint(false)] + [Return])));
  }

  // ------------------------------------------------ AddUnit as steps of the run

  /** The steps of one account that saves, with the write and the rename ending as given. */
  function SaveActions(id: string, write: WriteOutcome, renameFails: bool): (r: seq<Action>)
  {
    match write
    case Refused => [Lock(id), WriteFails(id)]
    case CutShort => [Lock(id), TearTmp(id), WriteFails(id)]
    case AllWritten => [Lock(id), TearTmp(id), WriteTmp(id), if renameFails then RenameFails(id) else Rename(id)]
  }

  /** `states` are what the schedule passes, from the first state to the last. */
  ghost predicate Trace(c: Config, actions: seq<Action>, states: seq<State>)
    requires ValidConfig(c)
  {
    && |states| == |actions| + 1
    && forall k | 0 <= k < |actions| :: Step(c, states[k], actions[k]) == Some(states[k + 1])
  }

  lemma {:induction false} TraceIsExec(c: Config, actions: seq<Action>, states: seq<State>, k: nat)
    requires ValidConfig(c) && Trace(c, actions, states) && k <= |actions|
    ensures Exec(c, states[0], actions[..k]) == states[k]
  {
    if k > 0 {
      TraceIsExec(c, actions, states, k - 1);
      assert actions[..k][..k - 1] == actions[..k - 1];
    }
  }

  /** The run in the middle of a save, or after it. */
  function SaveAt(r: Run, id: string, units: seq<CompletedUnit>, phase: Phase, saved: bool): Run
    requires id in r.phase
  {
    r.(phase := r.phase[id := phase], lock := if phase.Leaving? then None else Some(id), units := units,
       saves := if saved then |units| else r.saves)
  }

  /** The states of a save: taking the lock, one state for each disk state of `path`, and the end. */
  function SaveStates(disk: Disk, r: Run, id: string, units: seq<CompletedUnit>, write: WriteOutcome,
                      renameFails: bool): seq<State>
    requires id in r.phase
  {
    var locked, written := Up(SaveAt(r, id, units, Locked, false)), Up(SaveAt(r, id, units, Phase.Written, false));
    var torn, whole := disk.(tmp := Some(Torn)), disk.(tmp := Some(Saved(units)));
    var failed, done := Up(SaveAt(r, id, units, Leaving, false)), Up(SaveAt(r, id, units, Leaving, true));
    match write
    case Refused => [State(disk, Up(r)), State(disk, locked), State(disk, failed)]
    case CutShort => [State(disk, Up(r)), State(disk, locked), State(torn, locked), State(torn, failed)]
    case AllWritten =>
      [State(disk, Up(r)), State(disk, locked), State(torn, locked), State(whole, written),
       if renameFails then State(whole, failed) else State(Disk(Some(Saved(units)), None), done)]
  }

  lemma {:induction false} SaveTrace(c: Config, disk: Disk, r: Run, id: string, units: seq<CompletedUnit>,
                                     write: WriteOutcome, renameFails: bool)
    requires ValidConfig(c) && id in r.phase && r.phase[id].Appended? && r.lock.None?
    requires units == r.units + [Unit(c, id, r.phase[id].rows)]
    ensures Trace(c, SaveActions(id, write, renameFails), SaveStates(disk, r, id, units, write, renameFails))
  {
    TempStepsTaken(c, disk, r, id, units);
    RenameStepsTaken(c, disk, r, id, units);
    hide Step, SaveAt, Saved;
  }

  /** Every disk state that AddUnit passes is passed by the run's steps, in the same order, and both end alike:
      the same disk, the unit in memory, and the lock free. */
  lemma {:induction false} SavesAreSteps(c: Config, disk: Disk, r: Run, id: string, write: WriteOutcome,
                                         renameFails: bool)
    requires ValidConfig(c) && id in r.phase && r.phase[id].Appended? && r.lock.None?
    ensures var units := r.units + [Unit(c, id, r.phase[id].rows)];
      var path := SavePath(disk, CheckpointState(VERSION, "", "aws", units), write, renameFails);
      var s, actions := State(disk, Up(r)), SaveActions(id, write, renameFails);
      && |path| + 1 <= |actions|
      && (forall i | 0 <= i < |path| :: Exec(c, s, actions[..i + 2]).disk == path[i])
      && Exec(c, s, actions).disk == (if path == [] then disk else path[|path| - 1])
      && Exec(c, s, actions).process == Up(SaveAt(r, id, units, Leaving, write.AllWritten? && !renameFails))
  {
    var units := r.units + [Unit(c, id, r.phase[id].rows)];
    var path := SavePath(disk, CheckpointState(VERSION, "", "aws", units), write, renameFails);
    var actions := SaveActions(id, write, renameFails);
    var states := SaveStates(disk, r, id, units, write, renameFails);
    SaveTrace(c, disk, r, id, units, write, renameFails);
    hide Exec, Trace, SaveAt, Unit;
    TraceIsExec(c, actions, states, |actions|);
    assert actions[..|actions|] == actions;
    forall i | 0 <= i < |path|
      ensures Exec(c, states[0], actions[..i + 2]).disk == path[i]
    {
      TraceIsExec(c, actions, states, i + 2);
    }
  }

  /** The single steps of a save up to the whole temporary file ... */
  lemma {:induction false} TempStepsTaken(c: Config, disk: Disk, r: Run, id: string, units: seq<CompletedUnit>)
    requires ValidConfig(c) && id in r.phase && r.phase[id].Appended? && r.lock.None?
    requires units == r.units + [Unit(c, id, r.phase[id].rows)]
    ensures var locked, written :=
            Up(SaveAt(r, id, units, Locked, false)), Up(SaveAt(r, id, units, Phase.Written, false));
      var torn, whole := disk.(tmp := Some(Torn)), disk.(tmp := Some(Saved(units)));
      && Step(c, State(disk, Up(r)), Lock(id)) == Some(State(disk, locked))
      && Step(c, State(disk, locked), TearTmp(id)) == Some(State(torn, locked))
      && Step(c, State(torn, locked), WriteTmp(id)) == Some(State(whole, written))
  {
    AtTwice(r, id, Locked, Phase.Written);
  }

  /** ... and the steps that end it. */
  lemma {:induction false} RenameStepsTaken(c: Config, disk: Disk, r: Run, id: string, units: seq<CompletedUnit>)
    requires ValidConfig(c) && id in r.phase && r.lock.None?
    ensures var locked, written :=
            Up(SaveAt(r, id, units, Locked, false)), Up(SaveAt(r, id, units, Phase.Written, false));
      var torn, whole := disk.(tmp := Some(Torn)), disk.(tmp := Some(Saved(units)));
      var failed := Up(SaveAt(r, id, units, Leaving, false));
      && Step(c, State(disk, locked), WriteFails(id)) == Some(State(disk, failed))
      && Step(c, State(torn, locked), WriteFails(id)) == Some(State(torn, failed))
      && Step(c, State(whole, written), RenameFails(id)) == Some(State(whole, failed))
      && Step(c, State(whole, written), Rename(id))
         == Some(State(Disk(Some(Saved(units)), None), Up(SaveAt(r, id, units, Leaving, true))))
  {
    AtTwice(r, id, Locked, Leaving);
    AtTwice(r, id, Phase.Written, Leaving);
  }

  // ------------------------------------------------ without a checkpoint, and up to the limit

  lemma {:induction false} DiskStaysEmpty(c: Config, s: State, a: Action)
    requires ValidConfig(c) && Inv(c, s) && s.disk == EMPTY_DISK && Step(c, s, a).Some?
    requires !c.hasPath || |c.accounts| <= 1
    ensures Step(c, s, a).value.disk == EMPTY_DISK
  {
    if s.process.Up? && Mover(a).Some? && Mover(a).value in s.process.run.phase {
      assert PhaseInv(c, s.process.run, Mover(a).value);
    }
  }

  /** Without a path, or for a single account, no file is ever written. */
  lemma {:induction false} NoCheckpointNoFile(c: Config, schedule: seq<Action>)
    requires ValidConfig(c) && (!c.hasPath || |c.accounts| <= 1)
    ensures Exec(c, INIT, schedule).disk == EMPTY_DISK
  {
    if schedule != [] {
      var before, a := schedule[..|schedule| - 1], schedule[|schedule| - 1];
      NoCheckpointNoFile(c, before);
      ReachableInv(c, before);
      hide Step, Inv;
      if Step(c, Exec(c, INIT, before), a).Some? {
        DiskStaysEmpty(c, Exec(c, INIT, before), a);
      }
    }
  }

  /** A waiting account gets a slot whenever fewer are in flight than the workers asked for, five by default. */
  lemma {:induction false} SlotsAreGiven(c: Config, disk: Disk, r: Run, id: string)
    requires ValidConfig(c) && id in r.phase && r.phase[id].Waiting?
    requires |InFlight(r)| < if c.maxWorkers > 0 then c.maxWorkers else 5
    ensures Step(c, State(disk, Up(r)), Acquire(id)) == Some(State(disk, Up(At(r, id, Holding))))
  {
  }
}
