/** What Run guarantees for every schedule: the lifecycle of each provider, the same results, and that
    no subscriber can hold it up. */
module ScanResults {
  import opened Base
  import opened Calculator
  import opened ScanRun

  // ------------------------------------------------------------ lifecycle

  function StartMsg(tasks: seq<Task>, i: nat): Msg
    requires i < |tasks|
  {
    MsgOf(tasks, Start(i))
  }

  function FinishMsg(tasks: seq<Task>, i: nat): Msg
    requires i < |tasks|
  {
    MsgOf(tasks, Complete(i))
  }

  /** What has been published so far. */
  ghost predicate Told(tasks: seq<Task>, s: State)
    requires |s.phase| == |tasks|
  {
    && (forall i | 0 <= i < |tasks| && s.phase[i] != ToStart :: StartMsg(tasks, i) in s.history)
    && (forall i | 0 <= i < |tasks| && s.phase[i] in {ToMerge, Done} :: FinishMsg(tasks, i) in s.history)
    && (s.main != Waiting ==> s.history != [] && s.history[|s.history| - 1] == MsgOf(tasks, Announce))
    && (s.main == Returned ==> s.bus.closed)
  }

  lemma {:induction false} StillClosed(b: B.State, a: B.Action)
    requires B.Step(b, a).Some?
    ensures b.closed ==> B.Step(b, a).value.closed
    ensures a.Close? ==> B.Step(b, a).value.closed
  {
  }

  lemma {:induction false} QuietWhenAnnounced(tasks: seq<Task>, s: State, a: Action)
    requires |s.phase| == |tasks| && (s.main != Waiting ==> AllDone(s)) && s.main != Waiting && Step(tasks, s, a).Some?
    ensures Step(tasks, s, a).value.history == s.history
  {
  }

  lemma {:induction false} ToldStep(tasks: seq<Task>, s: State, a: Action)
    requires |s.phase| == |tasks| && Told(tasks, s) && (s.main != Waiting ==> AllDone(s)) && Step(tasks, s, a).Some?
    ensures |Step(tasks, s, a).value.phase| == |tasks| && Told(tasks, Step(tasks, s, a).value)
  {
    StepKeepsLength(tasks, s, a);
    if a.Client? || a.Carry? {
      StillClosed(s.bus, a.a);
    } else if a.CloseBroker? {
      StillClosed(s.bus, B.Close);
    } else if Publishes(a) {
      PublishAdvances(tasks, s, a);
    }
    if s.main != Waiting {
      QuietWhenAnnounced(tasks, s, a);
    }
  }

  lemma {:induction false} ReachableTold(tasks: seq<Task>, schedule: seq<Action>)
    ensures Told(tasks, Exec(tasks, schedule))
  {
    hide Told, Step, Inv;
    if schedule == [] {
      InitTold(tasks);
    } else {
      var before, a := schedule[..|schedule| - 1], schedule[|schedule| - 1];
      ReachableTold(tasks, before);
      DoneWhenAnnounced(tasks, before);
      if Step(tasks, Exec(tasks, before), a).Some? {
        ToldStep(tasks, Exec(tasks, before), a);
      }
    }
  }

  lemma {:induction false} InitTold(tasks: seq<Task>)
    ensures Told(tasks, Init(tasks))
  {
  }

  lemma {:induction false} DoneWhenAnnounced(tasks: seq<Task>, schedule: seq<Action>)
    ensures Exec(tasks, schedule).main != Waiting ==> AllDone(Exec(tasks, schedule))
  {
    ReachableInv(tasks, schedule);
  }

  /** Once the orchestrator has announced the end: each provider's start and completion have been
      published, everything else of that provider between them, and the announcement last of all. */
  lemma {:induction false} LifecycleIsComplete(tasks: seq<Task>, schedule: seq<Action>, i: nat)
    requires i < |tasks| && Exec(tasks, schedule).main != Waiting
    ensures var h := Exec(tasks, schedule).history;
      exists a, b ::
        && 0 <= a < b < |h| - 1
        && h[a] == B.Msg(B.Provider(i), B.Event("provider_start", tasks[i].provider, ""))
        && h[b] == B.Msg(B.Provider(i), B.Event("provider_complete", tasks[i].provider, ""))
        && (forall k | 0 <= k < |h| && (h[k].pub == B.Provider(i) || exists w :: h[k].pub == B.Scanner(i, w)) ::
            a <= k <= b)
        && h[|h| - 1] == B.Msg(B.Main, B.Event("scan_complete", "", ""))
  {
    ReachableTold(tasks, schedule);
    ReachableInv(tasks, schedule);
    var s := Exec(tasks, schedule);
    Bracketed(tasks, s.history, i);
  }

  lemma {:induction false} StartIsFirst(h: seq<Msg>, a: nat, k: nat)
    requires Orderly(h) && a < |h| && k < |h| && IsStart(h[a]) && TaskOf(h[k].pub) == TaskOf(h[a].pub)
    ensures a <= k
  {
    forall j | 0 <= j < a
      ensures TaskOf(h[j].pub) != TaskOf(h[a].pub)
    {
      assert MayFollow(h[j], h[a]);
    }
  }

  lemma {:induction false} FinishIsLast(h: seq<Msg>, b: nat, k: nat)
    requires Orderly(h) && b < |h| && k < |h| && IsFinish(h[b]) && TaskOf(h[k].pub) == TaskOf(h[b].pub)
    ensures k <= b
  {
    forall j | b < j < |h|
      ensures TaskOf(h[j].pub) != TaskOf(h[b].pub)
    {
      assert MayFollow(h[b], h[j]);
    }
  }

  lemma {:induction false} Bracketed(tasks: seq<Task>, h: seq<Msg>, i: nat)
    requires i < |tasks| && Orderly(h) && StartMsg(tasks, i) in h && FinishMsg(tasks, i) in h
    requires h != [] && h[|h| - 1] == MsgOf(tasks, Announce)
    ensures exists a, b ::
        && 0 <= a < b < |h| - 1 && h[a] == StartMsg(tasks, i) && h[b] == FinishMsg(tasks, i)
        && (forall k | 0 <= k < |h| && TaskOf(h[k].pub) == Some(i) :: a <= k <= b)
        && h[|h| - 1] == MsgOf(tasks, Announce)
  {
    var a :| 0 <= a < |h| && h[a] == StartMsg(tasks, i);
    var b :| 0 <= b < |h| && h[b] == FinishMsg(tasks, i);
    TypesDiffer();
    assert IsStart(h[a]) && IsFinish(h[b]) && !IsStart(h[b]);
    forall k | 0 <= k < |h| && TaskOf(h[k].pub) == Some(i)
      ensures a <= k <= b
    {
      StartIsFirst(h, a, k);
      FinishIsLast(h, b, k);
    }
  }

  lemma {:induction false} TypesDiffer()
    ensures PROVIDER_START != PROVIDER_COMPLETE
  {
    assert PROVIDER_START[9] != PROVIDER_COMPLETE[9];
  }

  // ------------------------------------------------------------ errors

  /** The error event of a failed provider. */
  function ErrorMsg(task: Task, i: nat): Msg
    requires task.outcome.Failed?
  {
    B.Msg(B.Provider(i), B.Event("error", task.provider, task.outcome.message))
  }

  /** A message of type "error" from a provider's runner is the error event of a failed provider. */
  ghost predicate ProperError(tasks: seq<Task>, m: Msg)
  {
    m.pub.Provider? && m.event.typ == "error" ==>
      m.pub.task < |tasks| && tasks[m.pub.task].outcome.Failed? && m == ErrorMsg(tasks[m.pub.task], m.pub.task)
  }

  /** Failed providers, and no others, pass through the error event. */
  ghost predicate ErrorsTold(tasks: seq<Task>, s: State)
    requires |s.phase| == |tasks|
  {
    && (forall i | 0 <= i < |tasks| && s.phase[i] == ToError :: tasks[i].outcome.Failed?)
    && (forall i | 0 <= i < |tasks| && s.phase[i] in {ToComplete, ToMerge, Done} && tasks[i].outcome.Failed? ::
          ErrorMsg(tasks[i], i) in s.history)
    && (forall m | m in s.history :: ProperError(tasks, m))
  }

  lemma {:induction false} MessageTypes(tasks: seq<Task>, a: Action)
    requires Publishes(a) && (a.Announce? || a.i < |tasks|)
    requires a.ReportError? ==> tasks[a.i].outcome.Failed?
    ensures ProperError(tasks, MsgOf(tasks, a))
    ensures a.ReportError? ==> MsgOf(tasks, a) == ErrorMsg(tasks[a.i], a.i)
  {
    assert "provider_start"[0] != "error"[0] && "provider_complete"[0] != "error"[0];
  }

  lemma {:induction false} ErrorsStep(tasks: seq<Task>, s: State, a: Action)
    requires |s.phase| == |tasks| && ErrorsTold(tasks, s) && Step(tasks, s, a).Some?
    ensures |Step(tasks, s, a).value.phase| == |tasks| && ErrorsTold(tasks, Step(tasks, s, a).value)
  {
    StepKeepsLength(tasks, s, a);
    var t := Step(tasks, s, a).value;
    if Publishes(a) {
      MessageTypes(tasks, a);
      assert t.history == s.history + [MsgOf(tasks, a)];
      hide MsgOf, ProperError;
    } else {
      assert t.history == s.history;
    }
  }

  lemma {:induction false} ReachableErrors(tasks: seq<Task>, schedule: seq<Action>)
    ensures ErrorsTold(tasks, Exec(tasks, schedule))
  {
    hide ErrorsTold, Step;
    if schedule == [] {
      InitErrors(tasks);
    } else {
      var before, a := schedule[..|schedule| - 1], schedule[|schedule| - 1];
      ReachableErrors(tasks, before);
      if Step(tasks, Exec(tasks, before), a).Some? {
        ErrorsStep(tasks, Exec(tasks, before), a);
      }
    }
  }

  lemma {:induction false} InitErrors(tasks: seq<Task>)
    ensures ErrorsTold(tasks, Init(tasks))
  {
  }

  /** Once the end is announced, a provider's error event has been published exactly if its scanner failed, with the
      failure's message. */
  lemma {:induction false} ErrorsAreAnnounced(tasks: seq<Task>, schedule: seq<Action>, i: nat)
    requires i < |tasks| && Exec(tasks, schedule).main != Waiting
    ensures var h := Exec(tasks, schedule).history;
      && (tasks[i].outcome.Failed? ==>
           B.Msg(B.Provider(i), B.Event("error", tasks[i].provider, tasks[i].outcome.message)) in h)
      && (tasks[i].outcome.Rows? ==> forall m | m in h :: m.pub == B.Provider(i) ==> m.event.typ != "error")
  {
    ReachableErrors(tasks, schedule);
    DoneWhenAnnounced(tasks, schedule);
    hide Exec;
    assert forall m | m in Exec(tasks, schedule).history :: ProperError(tasks, m);
  }

  /** A scanner at work may publish an event of any type but the two that open and close a scan. */
  lemma {:induction false} ScannersPublishFreely(tasks: seq<Task>, s: State, i: nat, worker: nat, e: B.Event)
    requires |s.phase| == |tasks| && i < |tasks| && s.phase[i] == Scanning
    requires B.Provider(i) !in s.bus.sending && B.Scanner(i, worker) !in s.bus.sending
    requires e.typ != "provider_start" && e.typ != "scan_complete"
    ensures Step(tasks, s, ScanEvent(i, worker, e)).Some?
    ensures Step(tasks, s, ScanEvent(i, worker, e)).value.history == s.history + [B.Msg(B.Scanner(i, worker), e)]
  {
  }

  /** The same order in what any subscriber has been sent: nothing after the end of the scan, nothing
      of a provider after its completion, nothing of it before its start. */
  lemma {:induction false} SubscribersSeeLifecycles(tasks: seq<Task>, schedule: seq<Action>, ch: nat, j: nat, k: nat)
    requires ch in Exec(tasks, schedule).bus.chans && j < k < |B.Delivered(Exec(tasks, schedule).bus.chans[ch])|
    ensures var ms := B.Delivered(Exec(tasks, schedule).bus.chans[ch]);
      && ms[j].pub != B.Main
      && (IsFinish(ms[j]) ==> TaskOf(ms[k].pub) != TaskOf(ms[j].pub))
      && (IsStart(ms[k]) ==> TaskOf(ms[j].pub) != TaskOf(ms[k].pub))
  {
    ReachableInv(tasks, schedule);
    assert ChannelInv(Exec(tasks, schedule), ch);
    var ms := B.Delivered(Exec(tasks, schedule).bus.chans[ch]);
    assert MayFollow(ms[j], ms[k]);
  }

  /** Run never panics on a channel, and when it has returned every subscriber's channel is closed. */
  lemma {:induction false} ChannelsDuringRun(tasks: seq<Task>, schedule: seq<Action>, ch: nat)
    ensures var s := Exec(tasks, schedule);
      && !s.bus.panicked
      && (ch in s.bus.chans ==>
           |s.bus.chans[ch].buffer| <= B.CHANNEL_CAP && (s.bus.chans[ch].open <==> ch in s.bus.clients))
      && (s.main == Returned && ch in s.bus.chans ==> !s.bus.chans[ch].open)
  {
    ReachableInv(tasks, schedule);
    ReachableTold(tasks, schedule);
    assert B.ChanInv(Exec(tasks, schedule).bus, ch);
  }

  // ------------------------------------------------------------ results

  function FlatMap<T>(f: nat -> seq<T>, order: seq<nat>): seq<T>
  {
    if order == [] then [] else FlatMap(f, order[..|order| - 1]) + f(order[|order| - 1])
  }

  lemma {:induction false} FlatMapAppend<T>(f: nat -> seq<T>, a: seq<nat>, b: seq<nat>)
    ensures FlatMap(f, a + b) == FlatMap(f, a) + FlatMap(f, b)
  {
    if b == [] {
      assert a + b == a;
    } else {
      assert (a + b)[..|a + b| - 1] == a + b[..|b| - 1];
      FlatMapAppend(f, a, b[..|b| - 1]);
    }
  }

  lemma {:induction false} FlatMapOne<T>(f: nat -> seq<T>, i: nat)
    ensures FlatMap(f, [i]) == f(i)
  {
    assert [i][..0] == [];
  }

  lemma {:induction false} FlatMapAt<T>(f: nat -> seq<T>, order: seq<nat>, k: nat)
    requires k < |order|
    ensures multiset(FlatMap(f, order)) == multiset(FlatMap(f, order[..k] + order[k + 1..])) + multiset(f(order[k]))
  {
    SplitAt(order, k);
    FlatMapOne(f, order[k]);
    FlatMapAppend(f, order[..k] + [order[k]], order[k + 1..]);
    FlatMapAppend(f, order[..k], [order[k]]);
    FlatMapAppend(f, order[..k], order[k + 1..]);
  }

  lemma {:induction false} FlatMapPermutes<T>(f: nat -> seq<T>, a: seq<nat>, b: seq<nat>)
    requires multiset(a) == multiset(b)
    ensures multiset(FlatMap(f, a)) == multiset(FlatMap(f, b))
    decreases |a|
  {
    hide FlatMap;
    if a == [] {
      SameLength(a, b);
      assert a == b;
    } else {
      var k := RemoveHead(a, b);
      FlatMapAt(f, a, 0);
      assert a[..0] + a[1..] == a[1..];
      FlatMapAt(f, b, k);
      FlatMapPermutes(f, a[1..], b[..k] + b[k + 1..]);
    }
  }

  function RowsFor(tasks: seq<Task>): nat -> seq<FindingRow>
  {
    (i: nat) => if i < |tasks| then RowsOf(tasks[i]) else []
  }

  function ErrorsFor(tasks: seq<Task>): nat -> seq<ProviderError>
  {
    (i: nat) => if i < |tasks| then ErrorsOf(tasks[i]) else []
  }

  function Range(n: nat): seq<nat> { seq(n, i requires 0 <= i < n => i) }

  /** The rows of every provider that succeeded, and the errors of the others, in the order of the tasks. */
  function AllRows(tasks: seq<Task>): seq<FindingRow> { FlatMap(RowsFor(tasks), Range(|tasks|)) }

  function AllErrors(tasks: seq<Task>): seq<ProviderError> { FlatMap(ErrorsFor(tasks), Range(|tasks|)) }

  /** The results so far are those of the merged tasks, each merged once. */
  ghost predicate Merged(tasks: seq<Task>, s: State)
    requires |s.phase| == |tasks|
  {
    && Distinct(s.merged)
    && (forall i: nat :: i in s.merged <==> i < |tasks| && s.phase[i] == Done)
    && s.findings == FlatMap(RowsFor(tasks), s.merged) && s.errs == FlatMap(ErrorsFor(tasks), s.merged)
  }

  lemma {:induction false} OtherStepsMergeNothing(tasks: seq<Task>, s: State, a: Action)
    requires |s.phase| == |tasks| && !a.Merge? && Step(tasks, s, a).Some?
    ensures var t := Step(tasks, s, a).value;
      && |t.phase| == |tasks| && t.findings == s.findings && t.errs == s.errs && t.merged == s.merged
      && forall i | 0 <= i < |tasks| :: t.phase[i] == Done <==> s.phase[i] == Done
  {
    StepKeepsLength(tasks, s, a);
  }

  lemma {:induction false} MergedStep(tasks: seq<Task>, s: State, a: Action)
    requires |s.phase| == |tasks| && Merged(tasks, s) && Step(tasks, s, a).Some?
    ensures |Step(tasks, s, a).value.phase| == |tasks| && Merged(tasks, Step(tasks, s, a).value)
  {
    var t := Step(tasks, s, a).value;
    if a.Merge? {
      var i := a.i;
      assert i !in s.merged;
      DistinctSnoc(s.merged, i);
      assert (s.merged + [i])[..|s.merged|] == s.merged;
      assert RowsFor(tasks)(i) == RowsOf(tasks[i]) && ErrorsFor(tasks)(i) == ErrorsOf(tasks[i]);
    } else {
      OtherStepsMergeNothing(tasks, s, a);
    }
  }

  lemma {:induction false} ReachableMerged(tasks: seq<Task>, schedule: seq<Action>)
    ensures Merged(tasks, Exec(tasks, schedule))
  {
    hide Merged, Step;
    if schedule == [] {
      InitMerged(tasks);
    } else {
      var before, a := schedule[..|schedule| - 1], schedule[|schedule| - 1];
      ReachableMerged(tasks, before);
      if Step(tasks, Exec(tasks, before), a).Some? {
        MergedStep(tasks, Exec(tasks, before), a);
      }
    }
  }

  lemma {:induction false} InitMerged(tasks: seq<Task>)
    ensures Merged(tasks, Init(tasks))
  {
  }

  lemma {:induction false} AllMerged(merged: seq<nat>, n: nat)
    requires Distinct(merged) && forall i: nat :: i in merged <==> i < n
    ensures multiset(merged) == multiset(Range(n))
  {
    assert Distinct(Range(n));
    forall i: nat
      ensures multiset(merged)[i] == multiset(Range(n))[i]
    {
      DistinctCounts(merged, i);
      DistinctCounts(Range(n), i);
      assert i in multiset(merged) <==> i in merged;
      assert i in multiset(Range(n)) <==> i in Range(n);
      assert i < n ==> Range(n)[i] == i;
      assert i in Range(n) <==> i < n;
    }
  }

  lemma {:induction false} CategoryTotalAt(rows: seq<FindingRow>, k: nat, category: string)
    requires k < |rows|
    ensures CategoryTotal(rows, category)
            == CategoryTotal(rows[..k] + rows[k + 1..], category) + CategoryTotal([rows[k]], category)
  {
    SplitAt(rows, k);
    CategoryTotalAppend(rows[..k] + [rows[k]], rows[k + 1..], category);
    CategoryTotalAppend(rows[..k], [rows[k]], category);
    CategoryTotalAppend(rows[..k], rows[k + 1..], category);
  }

  lemma {:induction false} CategoryTotalPermutes(a: seq<FindingRow>, b: seq<FindingRow>, category: string)
    requires multiset(a) == multiset(b)
    ensures CategoryTotal(a, category) == CategoryTotal(b, category)
    decreases |a|
  {
    hide CategoryTotal;
    if a == [] {
      SameLength(a, b);
      assert a == b;
    } else {
      var k := RemoveHead(a, b);
      CategoryTotalAt(a, 0, category);
      assert a[..0] + a[1..] == a[1..];
      CategoryTotalAt(b, k, category);
      CategoryTotalPermutes(a[1..], b[..k] + b[k + 1..], category);
    }
  }

  datatype Totals = Totals(ddi: int, ip: int, asset: int, grand: int)

  function MaxOf(a: int, b: int): int { if a >= b then a else b }

  function TotalsOf(rows: seq<FindingRow>): Totals
  {
    var ddi := CeilDiv(CategoryTotal(rows, CATEGORY_DDI_OBJECTS), TOKENS_PER_DDI_OBJECT);
    var ip := CeilDiv(CategoryTotal(rows, CATEGORY_ACTIVE_IPS), TOKENS_PER_ACTIVE_IP);
    var asset := CeilDiv(CategoryTotal(rows, CATEGORY_MANAGED_ASSETS), TOKENS_PER_MANAGED_ASSET);
    Totals(ddi, ip, asset, MaxOf(ddi, MaxOf(ip, asset)))
  }

  /** The end of Run: the totals of the collected rows. */
  method TokenTotals(findings: seq<FindingRow>) returns (r: TokenResult)
    ensures r.findings == findings
    ensures Totals(r.ddiTokens, r.ipTokens, r.assetTokens, r.grandTotal) == TotalsOf(findings)
  {
    r := Calculate(findings);
  }

  /** The rows that the scanners of successful providers returned, all together. */
  ghost function RowBag(tasks: seq<Task>): multiset<FindingRow>
  {
    if tasks == [] then multiset{}
    else
      var before := RowBag(tasks[..|tasks| - 1]);
      match tasks[|tasks| - 1].outcome
      case Rows(rows) => before + multiset(rows)
      case Failed(_) => before
  }

  /** One error for each provider whose scanner failed, with its message. */
  ghost function ErrorBag(tasks: seq<Task>): multiset<ProviderError>
  {
    if tasks == [] then multiset{}
    else
      var before, last := ErrorBag(tasks[..|tasks| - 1]), tasks[|tasks| - 1];
      match last.outcome
      case Rows(_) => before
      case Failed(message) => before + multiset{ProviderError(last.provider, message)}
  }

  lemma {:induction false} FlatMapCongruent<T>(f: nat -> seq<T>, g: nat -> seq<T>, order: seq<nat>)
    requires forall i | i in order :: f(i) == g(i)
    ensures FlatMap(f, order) == FlatMap(g, order)
  {
    if order != [] {
      FlatMapCongruent(f, g, order[..|order| - 1]);
    }
  }

  lemma {:induction false} RangeSnoc(n: nat)
    ensures Range(n + 1) == Range(n) + [n]
  {
  }

  /** One more task adds its part at the end. */
  lemma {:induction false} FlatMapGrows<T>(f: nat -> seq<T>, g: nat -> seq<T>, n: nat)
    requires forall i: nat | i < n :: f(i) == g(i)
    ensures FlatMap(f, Range(n + 1)) == FlatMap(g, Range(n)) + f(n)
  {
    RangeSnoc(n);
    FlatMapAppend(f, Range(n), [n]);
    FlatMapOne(f, n);
    FlatMapCongruent(f, g, Range(n));
  }

  lemma {:induction false} AllGrow(tasks: seq<Task>)
    requires tasks != []
    ensures var n := |tasks| - 1;
      && AllRows(tasks) == AllRows(tasks[..n]) + RowsOf(tasks[n])
      && AllErrors(tasks) == AllErrors(tasks[..n]) + ErrorsOf(tasks[n])
  {
    hide FlatMap, Range, RowsOf, ErrorsOf;
    var n := |tasks| - 1;
    FlatMapGrows(RowsFor(tasks), RowsFor(tasks[..n]), n);
    FlatMapGrows(ErrorsFor(tasks), ErrorsFor(tasks[..n]), n);
  }

  lemma {:induction false} BagsAreAll(tasks: seq<Task>)
    ensures multiset(AllRows(tasks)) == RowBag(tasks) && multiset(AllErrors(tasks)) == ErrorBag(tasks)
  {
    if tasks != [] {
      BagsAreAll(tasks[..|tasks| - 1]);
      AllGrow(tasks);
      hide AllRows, AllErrors;
    }
  }

  /** Whatever the schedule, a returned Run has collected exactly the rows that successful scanners returned
      and one error for each failed provider, and its totals are those of the rows in task order. */
  lemma {:induction false} ResultsAreComplete(tasks: seq<Task>, schedule: seq<Action>)
    requires Exec(tasks, schedule).main == Returned
    ensures multiset(Exec(tasks, schedule).findings) == RowBag(tasks)
    ensures multiset(Exec(tasks, schedule).errs) == ErrorBag(tasks)
    ensures TotalsOf(Exec(tasks, schedule).findings) == TotalsOf(AllRows(tasks))
  {
    BagsAreAll(tasks);
    var s := Exec(tasks, schedule);
    ReachableMerged(tasks, schedule);
    DoneWhenAnnounced(tasks, schedule);
    hide Exec;
    AllMerged(s.merged, |tasks|);
    FlatMapPermutes(RowsFor(tasks), s.merged, Range(|tasks|));
    FlatMapPermutes(ErrorsFor(tasks), s.merged, Range(|tasks|));
    CategoryTotalPermutes(s.findings, AllRows(tasks), CATEGORY_DDI_OBJECTS);
    CategoryTotalPermutes(s.findings, AllRows(tasks), CATEGORY_ACTIVE_IPS);
    CategoryTotalPermutes(s.findings, AllRows(tasks), CATEGORY_MANAGED_ASSETS);
  }

  /** Two schedules give the same rows, the same errors and the same totals. */
  lemma {:induction false} ScheduleIndependent(tasks: seq<Task>, one: seq<Action>, other: seq<Action>)
    requires Exec(tasks, one).main == Returned && Exec(tasks, other).main == Returned
    ensures multiset(Exec(tasks, one).findings) == multiset(Exec(tasks, other).findings)
    ensures multiset(Exec(tasks, one).errs) == multiset(Exec(tasks, other).errs)
    ensures TotalsOf(Exec(tasks, one).findings) == TotalsOf(Exec(tasks, other).findings)
  {
    ResultsAreComplete(tasks, one);
    ResultsAreComplete(tasks, other);
  }
}
