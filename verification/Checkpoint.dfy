/** internal/checkpoint/checkpoint.go and internal/cloudutil/semaphore.go as objects. */
module Checkpoint {
  import opened Base
  import opened Calculator

  const VERSION := 1

  datatype CompletedUnit = CompletedUnit(id: string, name: string, findings: seq<FindingRow>)

  datatype CheckpointState = CheckpointState(
    version: int, scanId: string, provider: string, completedUnits: seq<CompletedUnit>)

  /** What a file holds: the JSON of one state, or bytes that do not decode (a write cut short). */
  datatype Content = Whole(state: CheckpointState) | Torn

  /** The two paths that matter: the checkpoint itself and its ".tmp" neighbour. */
  datatype Disk = Disk(main: Option<Content>, tmp: Option<Content>)

  datatype LoadResult = Fresh | Loaded(state: CheckpointState) | LoadError

  /** Load: an absent file is a fresh scan; a file that cannot be read, undecodable bytes and other versions are
      errors. */
  function Load(disk: Disk, readable: bool): (r: LoadResult)
    ensures forall st :: r == Loaded(st) <==> readable && disk.main == Some(Whole(st)) && st.version == 1
    ensures r.Fresh? <==> disk.main.None?
  {
    match disk.main
    case None => Fresh
    case Some(Torn) => LoadError
    case Some(Whole(state)) => if !readable || state.version != VERSION then LoadError else Loaded(state)
  }

  /** How os.WriteFile ends: the file was not opened, the bytes stopped arriving, or all were written. */
  datatype WriteOutcome = Refused | CutShort | AllWritten

  /** The disk states passed by one save of `state`, oldest first: truncation, the whole temporary file, the rename. */
  function SavePath(disk: Disk, state: CheckpointState, write: WriteOutcome, renameFails: bool): (path: seq<Disk>)
  {
    var torn, whole := Disk(disk.main, Some(Torn)), Disk(disk.main, Some(Whole(state)));
    match write
    case Refused => []
    case CutShort => [torn]
    case AllWritten => [torn, whole] + (if renameFails then [] else [Disk(Some(Whole(state)), None)])
  }

  /** A file system on which a crash can strike between any two recorded states. */
  class FileSystem {
    var disk: Disk
    ghost var passed: seq<Disk>  // every disk state so far, oldest first

    ghost predicate Valid()
      reads this
    {
      passed != [] && passed[|passed| - 1] == disk
    }

    constructor ()
      ensures Valid() && disk == Disk(None, None) && passed == [disk]
    {
      disk := Disk(None, None);
      passed := [Disk(None, None)];
    }

    /** os.WriteFile to the temporary path: truncates first, then the bytes arrive. */
    method WriteTmp(state: CheckpointState, outcome: WriteOutcome) returns (ok: bool)
      requires Valid()
      modifies this
      ensures Valid() && ok == outcome.AllWritten?
      ensures passed == old(passed) + SavePath(old(disk), state, outcome, true)
      ensures disk == if outcome.Refused? then old(disk)
                      else Disk(old(disk.main), Some(if ok then Whole(state) else Torn))
    {
      if outcome.Refused? {
        return false;
      }
      disk := disk.(tmp := Some(Torn));
      passed := passed + [disk];
      if outcome.CutShort? {
        return false;
      }
      disk := disk.(tmp := Some(Whole(state)));
      passed := passed + [disk];
      return true;
    }

    /** os.Rename of the temporary file over the checkpoint: one atomic step. */
    method RenameTmp(fails: bool) returns (ok: bool)
      requires Valid()
      modifies this
      ensures Valid() && ok == (!fails && old(disk.tmp).Some?)
      ensures disk == if ok then Disk(old(disk.tmp), None) else old(disk)
      ensures passed == if ok then old(passed) + [disk] else old(passed)
    {
      if fails || disk.tmp.None? {
        return false;
      }
      disk := Disk(disk.tmp, None);
      passed := passed + [disk];
      return true;
    }

    /** Delete: removing an absent checkpoint succeeds. */
    method Remove(fails: bool) returns (ok: bool)
      requires Valid()
      modifies this
      ensures Valid() && ok == (old(disk.main).None? || !fails)
      ensures disk == if ok then old(disk).(main := None) else old(disk)
      ensures old(passed) <= passed
    {
      if disk.main.Some? && fails {
        return false;
      }
      disk := disk.(main := None);
      passed := passed + [disk];
      return true;
    }
  }

  /** The in-memory accumulator. */
  class Checkpoint {
    var state: CheckpointState

    constructor New(scanId: string, provider: string)
      ensures state == CheckpointState(VERSION, scanId, provider, [])
    {
      state := CheckpointState(VERSION, scanId, provider, []);
    }

    /** AddUnit: the unit stays in memory even when saving fails. Whatever the outcome, at every
        moment the checkpoint file is the old one or the complete new state. */
    method AddUnit(unit: CompletedUnit, fs: FileSystem, write: WriteOutcome, renameFails: bool) returns (ok: bool)
      requires fs.Valid()
      modifies this, fs
      ensures fs.Valid() && state == old(state).(completedUnits := old(state.completedUnits) + [unit])
      ensures ok == (write.AllWritten? && !renameFails)
      ensures fs.disk.main == if ok then Some(Whole(state)) else old(fs.disk.main)
      ensures fs.passed == old(fs.passed) + SavePath(old(fs.disk), state, write, renameFails)
      ensures forall i | |old(fs.passed)| <= i < |fs.passed| ::
        fs.passed[i].main == old(fs.disk.main) || fs.passed[i].main == Some(Whole(state))
    {
      state := state.(completedUnits := state.completedUnits + [unit]);
      ok := fs.WriteTmp(state, write);
      if ok {
        ok := fs.RenameTmp(renameFails);
      }
    }
  }

  /** What a loader finds after a crash at any moment of AddUnit: the old units or the new ones. */
  lemma {:induction false} LoadSeesOldOrNew(before: Disk, at: Disk, state: CheckpointState, readable: bool)
    requires at.main == before.main || at.main == Some(Whole(state))
    requires state.version == VERSION
    ensures Load(at, readable) in {Load(before, readable), if readable then Loaded(state) else LoadError}
  {
  }

  datatype AcquireResult = Acquired | Cancelled | Blocked

  /** NewSemaphore: a non-positive capacity becomes one. */
  function SemaphoreCapacity(n: int): (c: nat)
    ensures c >= 1 && (n >= 1 ==> c == n) && (n <= 0 ==> c == 1)
  {
    if n <= 0 then 1 else n
  }

  /** A buffered channel of tokens. */
  class Semaphore {
    const capacity: nat
    var used: nat

    ghost predicate Valid()
      reads this
    {
      used <= capacity && capacity >= 1
    }

    constructor (n: int)
      ensures Valid() && used == 0 && capacity == SemaphoreCapacity(n)
    {
      capacity := SemaphoreCapacity(n);
      used := 0;
    }

    /** One poll of the select: a ready branch is taken, `preferCancel` breaks the tie. */
    method Acquire(ctxDone: bool, preferCancel: bool) returns (r: AcquireResult)
      requires Valid()
      modifies this
      ensures Valid()
      ensures used == old(used) + (if r.Acquired? then 1 else 0)
      ensures r.Cancelled? ==> ctxDone
      ensures r.Blocked? <==> old(used) == capacity && !ctxDone
    {
      if ctxDone && (preferCancel || used == capacity) {
        return Cancelled;
      }
      if used == capacity {
        return Blocked;
      }
      used := used + 1;
      return Acquired;
    }

    method Release()
      requires Valid() && used > 0
      modifies this
      ensures Valid() && used == old(used) - 1
    {
      used := used - 1;
    }
  }
}
