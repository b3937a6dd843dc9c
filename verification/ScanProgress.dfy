/** No subscriber can hold up a scan: from every reachable state Run can return without any subscriber
    doing anything. Also the expansion of the requests for several Active Directory forests. */
module ScanProgress {
  import opened ScanRun
  import opened ScanResults

  // ------------------------------------------------------------ progress

  function Weight(p: Phase): nat
  {
    match p
    case ToStart => 5
    case Scanning => 4
    case ToError => 3
    case ToComplete => 2
    case ToMerge => 1
    case Done => 0
  }

  function Weights(phase: seq<Phase>): nat
  {
    if phase == [] then 0 else Weight(phase[0]) + Weights(phase[1..])
  }

  function MainWeight(m: MainPhase): nat { if m == Waiting then 2 else if m == Announced then 1 else 0 }

  /** Steps left to take, sending aside. */
  function Left(s: State): nat { Weights(s.phase) + MainWeight(s.main) }

  lemma {:induction false} WeightsMove(phase: seq<Phase>, i: nat, p: Phase)
    requires i < |phase|
    ensures Weights(phase[i := p]) == Weights(phase) - Weight(phase[i]) + Weight(p)
  {
    if i > 0 {
      assert phase[i := p][1..] == phase[1..][i - 1 := p];
      WeightsMove(phase[1..], i - 1, p);
    } else {
      assert phase[i := p][1..] == phase[1..];
    }
  }

  predicate OfRun(a: Action) { !a.Client? }

  lemma {:induction false} ExecSnoc(tasks: seq<Task>, schedule: seq<Action>, a: Action)
    requires Step(tasks, Exec(tasks, schedule), a).Some?
    ensures Exec(tasks, schedule + [a]) == Step(tasks, Exec(tasks, schedule), a).value
  {
    assert (schedule + [a])[..|schedule|] == schedule;
  }

  /** The next step of a publisher that is sending. */
  lemma {:induction false} Served(tasks: seq<Task>, s: State, p: Pub) returns (a: Action)
    requires |s.phase| == |tasks| && B.Inv(s.bus) && p in s.bus.sending
    ensures OfRun(a) && Step(tasks, s, a).Some?
    ensures var t := Step(tasks, s, a).value;
      && t.phase == s.phase && t.main == s.main
      && if s.bus.sending[p].left == {} then t.bus.sending == s.bus.sending - {p}
         else t.bus.sending.Keys == s.bus.sending.Keys && t.bus.sending[p].left < s.bus.sending[p].left
  {
    assert B.SendInv(s.bus, p);
    if s.bus.sending[p].left == {} {
      a := Carry(B.End(p));
    } else {
      var ch :| ch in s.bus.sending[p].left;
      a := Carry(B.Deliver(p, ch));
    }
  }

  /** A publisher can always be let finish. */
  lemma {:induction false} Drain(tasks: seq<Task>, schedule: seq<Action>, p: Pub) returns (rest: seq<Action>)
    requires p in Exec(tasks, schedule).bus.sending
    ensures forall a | a in rest :: OfRun(a)
    ensures var s, t := Exec(tasks, schedule), Exec(tasks, schedule + rest);
      t.phase == s.phase && t.main == s.main && t.bus.sending.Keys == s.bus.sending.Keys - {p}
    decreases |Exec(tasks, schedule).bus.sending[p].left|
  {
    hide Exec, Step, Inv, B.Inv;
    var s := Exec(tasks, schedule);
    BusInv(tasks, schedule);
    var a := Served(tasks, s, p);
    ExecSnoc(tasks, schedule, a);
    if s.bus.sending[p].left == {} {
      rest := [a];
    } else {
      SmallerSet(Exec(tasks, schedule + [a]).bus.sending[p].left, s.bus.sending[p].left);
      var more := Drain(tasks, schedule + [a], p);
      rest := [a] + more;
      assert schedule + [a] + more == schedule + rest;
    }
  }

  lemma {:induction false} SmallerSet<T>(a: set<T>, b: set<T>)
    requires a < b
    ensures |a| < |b|
  {
    assert b == a + (b - a);
  }

  lemma {:induction false} BusInv(tasks: seq<Task>, schedule: seq<Action>)
    ensures B.Inv(Exec(tasks, schedule).bus)
  {
    ReachableInv(tasks, schedule);
  }

  /** What a provider's goroutine does next, when its scanner has nothing more to say. */
  function Advance(p: Phase, i: nat): Action
  {
    match p
    case ToStart => Start(i)
    case Scanning => ScanReturn(i)
    case ToError => ReportError(i)
    case ToComplete => Complete(i)
    case _ => Merge(i)
  }

  /** With nobody sending, a provider or the orchestrator can take its next step. */
  lemma {:induction false} NextStep(tasks: seq<Task>, s: State) returns (a: Action)
    requires |s.phase| == |tasks| && s.bus.sending == map[] && s.main != Returned && (s.main != Waiting ==> AllDone(s))
    ensures OfRun(a) && Step(tasks, s, a).Some? && Left(Step(tasks, s, a).value) < Left(s)
  {
    if i :| 0 <= i < |s.phase| && s.phase[i] != Done {
      a := Advance(s.phase[i], i);
      WeightsMove(s.phase, i, PhaseAfter(tasks, a));
      PhaseMoves(tasks, s, a, i);
      assert Step(tasks, s, a).value.main == s.main;
    } else {
      a := if s.main == Waiting then Announce else CloseBroker;
      MainMoves(tasks, s, a);
    }
  }

  lemma {:induction false} MainMoves(tasks: seq<Task>, s: State, a: Action)
    requires |s.phase| == |tasks| && s.bus.sending == map[] && AllDone(s) && s.main != Returned
    requires a == if s.main == Waiting then Announce else CloseBroker
    ensures Step(tasks, s, a).Some? && Step(tasks, s, a).value.phase == s.phase
    ensures MainWeight(Step(tasks, s, a).value.main) < MainWeight(s.main)
  {
  }

  lemma {:induction false} PhaseMoves(tasks: seq<Task>, s: State, a: Action, i: nat)
    requires |s.phase| == |tasks| && s.bus.sending == map[] && i < |tasks| && s.phase[i] != Done
    requires a == Advance(s.phase[i], i)
    ensures Step(tasks, s, a).Some? && Step(tasks, s, a).value.phase == s.phase[i := PhaseAfter(tasks, a)]
    ensures Step(tasks, s, a).value.main == s.main && Weight(PhaseAfter(tasks, a)) < Weight(s.phase[i])
  {
  }

  /** However slow the subscribers are, every run can be completed without them. */
  lemma {:induction false} RunCanReturn(tasks: seq<Task>, schedule: seq<Action>) returns (rest: seq<Action>)
    ensures forall a | a in rest :: OfRun(a)
    ensures Exec(tasks, schedule + rest).main == Returned
    decreases Left(Exec(tasks, schedule)), |Exec(tasks, schedule).bus.sending.Keys|
  {
    hide Exec, Step, Left;
    var s := Exec(tasks, schedule);
    if s.main == Returned {
      rest := [];
      assert schedule + rest == schedule;
    } else if p :| p in s.bus.sending {
      var drained := Drain(tasks, schedule, p);
      SameLeft(s, Exec(tasks, schedule + drained));
      SmallerSet(s.bus.sending.Keys - {p}, s.bus.sending.Keys);
      var more := RunCanReturn(tasks, schedule + drained);
      rest := drained + more;
      assert schedule + drained + more == schedule + rest;
    } else {
      DoneWhenAnnounced(tasks, schedule);
      assert s.bus.sending == map[];
      var a := NextStep(tasks, s);
      ExecSnoc(tasks, schedule, a);
      var more := RunCanReturn(tasks, schedule + [a]);
      rest := [a] + more;
      assert schedule + [a] + more == schedule + rest;
    }
  }

  lemma {:induction false} SameLeft(s: State, t: State)
    requires t.phase == s.phase && t.main == s.main
    ensures Left(t) == Left(s)
  {
  }

  // ------------------------------------------------------------ requests

  const AD := "ad"
  const NIOS := "nios"
  const EFFICIENT_IP := "efficientip"

  datatype Request = Request(provider: string, subscriptions: seq<string>, selectionMode: string, backupPath: string,
                             selectedMembers: seq<string>, mode: string, maxWorkers: int, requestTimeout: int,
                             checkpointPath: string, forestIndex: nat)

  /** The request for an additional forest: the settings of the primary one, without its selection. */
  function ForestRequest(p: Request, i: nat): Request
  {
    Request(AD, [], p.selectionMode, "", [], "", p.maxWorkers, p.requestTimeout, p.checkpointPath, i + 1)
  }

  function ForestsOf(p: Request, forests: nat): seq<Request>
  {
    if p.provider != AD then [] else seq(forests, i requires 0 <= i < forests => ForestRequest(p, i))
  }

  function Expand(providers: seq<Request>, forests: nat): seq<Request>
  {
    if providers == [] then []
    else Expand(providers[..|providers| - 1], forests)
         + [providers[|providers| - 1]] + ForestsOf(providers[|providers| - 1], forests)
  }

  method ExpandADForests(providers: seq<Request>, forests: nat) returns (expanded: seq<Request>)
    ensures expanded == Expand(providers, forests)
  {
    expanded := [];
    for n := 0 to |providers|
      invariant expanded == Expand(providers[..n], forests)
    {
      assert providers[..n + 1][..n] == providers[..n];
      var p := providers[n];
      ghost var before := expanded + [p];
      expanded := expanded + [p];
      if p.provider != AD {
        continue;
      }
      for i := 0 to forests
        invariant expanded == before + ForestsOf(p, forests)[..i]
      {
        assert ForestsOf(p, forests)[..i + 1] == ForestsOf(p, forests)[..i] + [ForestRequest(p, i)];
        expanded := expanded + [ForestRequest(p, i)];
      }
      assert ForestsOf(p, forests)[..forests] == ForestsOf(p, forests);
    }
    assert providers[..|providers|] == providers;
  }

  /** The requests that ask for one forest of one provider. */
  function Asking(rs: seq<Request>, provider: string, forest: nat): nat
  {
    if rs == [] then 0
    else Asking(rs[..|rs| - 1], provider, forest)
         + if rs[|rs| - 1].provider == provider && rs[|rs| - 1].forestIndex == forest then 1 else 0
  }

  lemma {:induction false} AskingAppend(a: seq<Request>, b: seq<Request>, provider: string, forest: nat)
    ensures Asking(a + b, provider, forest) == Asking(a, provider, forest) + Asking(b, provider, forest)
  {
    if b == [] {
      assert a + b == a;
    } else {
      assert (a + b)[..|a + b| - 1] == a + b[..|b| - 1];
      AskingAppend(a, b[..|b| - 1], provider, forest);
    }
  }

  lemma {:induction false} AskingForests(p: Request, forests: nat, n: nat, provider: string, forest: nat)
    requires n <= forests && p.provider == AD
    ensures Asking(ForestsOf(p, forests)[..n], provider, forest) == if provider == AD && 1 <= forest <= n then 1 else 0
  {
    if n > 0 {
      AskingForests(p, forests, n - 1, provider, forest);
      assert ForestsOf(p, forests)[..n][..n - 1] == ForestsOf(p, forests)[..n - 1];
    }
  }

  /** When the requests name primary forests only, the expansion asks for every additional forest as
      often as for the primary one, and for everything else as often as before. */
  lemma {:induction false} EveryForestOnce(providers: seq<Request>, forests: nat, provider: string, forest: nat)
    requires forall p | p in providers :: p.forestIndex == 0
    ensures Asking(Expand(providers, forests), provider, forest)
            == if forest == 0 || (provider == "ad" && forest <= forests) then Asking(providers, provider, 0) else 0
  {
    if providers != [] {
      var n := |providers| - 1;
      var p, before := providers[n], Expand(providers[..n], forests);
      EveryForestOnce(providers[..n], forests, provider, forest);
      AskingAppend(before + [p], ForestsOf(p, forests), provider, forest);
      AskingAppend(before, [p], provider, forest);
      assert [p][..0] == [];
      assert Asking([p], provider, forest) == if p.provider == provider && forest == 0 then 1 else 0;
      if p.provider == AD {
        AskingForests(p, forests, forests, provider, forest);
        assert ForestsOf(p, forests)[..forests] == ForestsOf(p, forests);
      }
    }
  }

  function SelectScannerKey(p: Request): string
  {
    if p.provider == NIOS && p.mode == "wapi" then "nios-wapi"
    else if p.provider == EFFICIENT_IP && p.mode == "backup" then "efficientip-backup"
    else p.provider
  }

  /** The goroutines Run starts: one for each request with a registered scanner, in order. */
  function Launched(requests: seq<Request>, scanners: map<string, Request -> Outcome>): seq<Task>
  {
    if requests == [] then []
    else
      var r := requests[|requests| - 1];
      Launched(requests[..|requests| - 1], scanners)
      + if SelectScannerKey(r) in scanners then [Task(r.provider, scanners[SelectScannerKey(r)](r))] else []
  }

  /** The loop of Run up to the wait. */
  method Launch(providers: seq<Request>, forests: nat, scanners: map<string, Request -> Outcome>)
      returns (tasks: seq<Task>)
    ensures tasks == Launched(Expand(providers, forests), scanners)
  {
    var requests := ExpandADForests(providers, forests);
    tasks := LaunchAll(requests, scanners);
  }

  method LaunchAll(requests: seq<Request>, scanners: map<string, Request -> Outcome>) returns (tasks: seq<Task>)
    ensures tasks == Launched(requests, scanners)
  {
    hide SelectScannerKey;
    tasks := [];
    for n := 0 to |requests|
      invariant tasks == Launched(requests[..n], scanners)
    {
      assert requests[..n + 1][..n] == requests[..n];
      var p := requests[n];
      var key := SelectScannerKey(p);
      if key !in scanners {
        continue;
      }
      tasks := tasks + [Task(p.provider, scanners[key](p))];
    }
    assert requests[..|requests|] == requests;
  }

  /** A request becomes one goroutine when the scanner that serves it is registered: NIOS in WAPI mode and EfficientIP
      in backup mode have scanners of their own, every other request its provider's. */
  lemma {:induction false} LaunchesEach(a: seq<Request>, r: Request, b: seq<Request>,
                                        scanners: map<string, Request -> Outcome>)
    ensures Launched([], scanners) == []
    ensures var key := if r.provider == "nios" && r.mode == "wapi" then "nios-wapi"
                       else if r.provider == "efficientip" && r.mode == "backup" then "efficientip-backup"
                       else r.provider;
      Launched(a + [r] + b, scanners)
      == Launched(a, scanners) + (if key in scanners then [Task(r.provider, scanners[key](r))] else [])
         + Launched(b, scanners)
  {
    LaunchedAppend(a + [r], b, scanners);
    LaunchedAppend(a, [r], scanners);
    assert [r][..0] == [];
  }

  lemma {:induction false} LaunchedAppend(a: seq<Request>, b: seq<Request>, scanners: map<string, Request -> Outcome>)
    ensures Launched(a + b, scanners) == Launched(a, scanners) + Launched(b, scanners)
  {
    if b == [] {
      assert a + b == a;
    } else {
      assert (a + b)[..|a + b| - 1] == a + b[..|b| - 1];
      LaunchedAppend(a, b[..|b| - 1], scanners);
    }
  }

  /** An Active Directory request is followed by one for each additional forest, with its settings and without its
      selection; any other request stands alone. */
  lemma {:induction false} ExpandsEach(a: seq<Request>, p: Request, b: seq<Request>, forests: nat)
    ensures Expand([], forests) == []
    ensures Expand(a + [p] + b, forests) == Expand(a, forests) + ([p] + ForestsOf(p, forests)) + Expand(b, forests)
    ensures |ForestsOf(p, forests)| == if p.provider == "ad" then forests else 0
    ensures forall i | 0 <= i < |ForestsOf(p, forests)| ::
      ForestsOf(p, forests)[i] == p.(subscriptions := [], backupPath := "", selectedMembers := [], mode := "",
                                     forestIndex := i + 1)
  {
    ExpandsOne(p, forests);
    hide ForestsOf;
    ExpandAppend(a + [p], b, forests);
    ExpandAppend(a, [p], forests);
    hide Expand;
  }

  lemma {:induction false} ExpandsOne(p: Request, forests: nat)
    ensures Expand([p], forests) == [p] + ForestsOf(p, forests) && Expand([], forests) == []
    ensures |ForestsOf(p, forests)| == if p.provider == "ad" then forests else 0
    ensures forall i | 0 <= i < |ForestsOf(p, forests)| ::
      ForestsOf(p, forests)[i] == p.(subscriptions := [], backupPath := "", selectedMembers := [], mode := "",
                                     forestIndex := i + 1)
  {
    assert [p][..0] == [];
    assert Expand([p], forests) == [] + [p] + ForestsOf(p, forests);
  }

  lemma {:induction false} ExpandAppend(a: seq<Request>, b: seq<Request>, forests: nat)
    ensures Expand(a + b, forests) == Expand(a, forests) + Expand(b, forests)
  {
    if b == [] {
      assert a + b == a;
    } else {
      assert (a + b)[..|a + b| - 1] == a + b[..|b| - 1];
      ExpandAppend(a, b[..|b| - 1], forests);
    }
  }
}
