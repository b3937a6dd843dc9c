/** internal/orchestrator/orchestrator.go: one goroutine per provider publishes its lifecycle, scans
    and merges its result under a mutex; the orchestrator waits for all, announces the end and closes
    the broker. */
module ScanRun {
  import opened Base
  import opened Calculator
  import B = BrokerProtocol

  type Event = B.Event
  type Msg = B.Msg
  type Pub = B.Pub

  const PROVIDER_START := "provider_start"
  const PROVIDER_COMPLETE := "provider_complete"
  const SCAN_COMPLETE := "scan_complete"
  const ERROR := "error"

  /** What a provider's Scan returns. */
  datatype Outcome = Rows(rows: seq<FindingRow>) | Failed(message: string)

  datatype ProviderError = ProviderError(provider: string, message: string)

  datatype Task = Task(provider: string, outcome: Outcome)

  /** Where a provider's goroutine stands: what it does next. */
  datatype Phase = ToStart | Scanning | ToError | ToComplete | ToMerge | Done

  datatype MainPhase = Waiting | Announced | Returned

  /** `history` lists the calls of Publish and `merged` the tasks in the order of their merging. */
  datatype State = State(bus: B.State, phase: seq<Phase>, main: MainPhase, findings: seq<FindingRow>,
                         errs: seq<ProviderError>,
                         history: seq<Msg>, merged: seq<nat>)

  function Init(tasks: seq<Task>): State
  {
    State(B.INIT, seq(|tasks|, _ => ToStart), Waiting, [], [], [], [])
  }

  /** Steps of subscribers, of publishers sending, of the providers and of the orchestrator. Scanners
      may publish events of any type but the two that open and close a scan. */
  datatype Action =
    | Client(a: B.Action)
    | Carry(a: B.Action)
    | Start(i: nat)
    | ScanEvent(i: nat, worker: nat, event: Event)
    | ScanReturn(i: nat)
    | ReportError(i: nat)
    | Complete(i: nat)
    | Merge(i: nat)
    | Announce
    | CloseBroker

  predicate Idle(s: State, p: Pub) { p !in s.bus.sending }

  /** Publish begins. */
  function Publish(s: State, p: Pub, e: Event): Option<State>
  {
    match B.StepBegin(s.bus, p, e)
    case None => None
    case Some(b) => Some(s.(bus := b, history := s.history + [B.Msg(p, e)]))
  }

  function OnBus(s: State, a: B.Action): Option<State>
  {
    match B.Step(s.bus, a)
    case None => None
    case Some(b) => Some(s.(bus := b))
  }

  function Moved(s: Option<State>, i: nat, phase: Phase): Option<State>
    requires s.Some? ==> i < |s.value.phase|
  {
    match s
    case None => None
    case Some(t) => Some(t.(phase := t.phase[i := phase]))
  }

  function RowsOf(t: Task): seq<FindingRow> { if t.outcome.Rows? then t.outcome.rows else [] }

  function ErrorsOf(t: Task): seq<ProviderError>
  {
    if t.outcome.Failed? then [ProviderError(t.provider, t.outcome.message)] else []
  }

  function ErrorText(t: Task): string { if t.outcome.Failed? then t.outcome.message else "" }

  predicate Publishes(a: Action) { a.Start? || a.ScanEvent? || a.ReportError? || a.Complete? || a.Announce? }

  /** The message a publishing action hands to the broker. */
  function MsgOf(tasks: seq<Task>, a: Action): Msg
    requires Publishes(a) && (a.Announce? || a.i < |tasks|)
  {
    match a
    case Start(i) => B.Msg(B.Provider(i), B.Event(PROVIDER_START, tasks[i].provider, ""))
    case ScanEvent(i, w, e) => B.Msg(B.Scanner(i, w), e)
    case ReportError(i) => B.Msg(B.Provider(i), B.Event(ERROR, tasks[i].provider, ErrorText(tasks[i])))
    case Complete(i) => B.Msg(B.Provider(i), B.Event(PROVIDER_COMPLETE, tasks[i].provider, ""))
    case _ => B.Msg(B.Main, B.Event(SCAN_COMPLETE, "", ""))
  }

  /** When an action of a provider or of the orchestrator may happen. */
  predicate Enabled(s: State, a: Action)
  {
    match a
    case Start(i) => i < |s.phase| && s.phase[i] == ToStart && Idle(s, B.Provider(i))
    case ScanEvent(i, w, e) =>
      i < |s.phase| && s.phase[i] == Scanning && Idle(s, B.Provider(i)) && e.typ != PROVIDER_START
        && e.typ != SCAN_COMPLETE
    case ScanReturn(i) => i < |s.phase| && s.phase[i] == Scanning && forall p | p in s.bus.sending ::
      TaskOf(p) != Some(i)
    case ReportError(i) => i < |s.phase| && s.phase[i] == ToError && Idle(s, B.Provider(i))
    case Complete(i) => i < |s.phase| && s.phase[i] == ToComplete && Idle(s, B.Provider(i))
    case Merge(i) => i < |s.phase| && s.phase[i] == ToMerge && Idle(s, B.Provider(i))
    case Announce => s.main == Waiting && AllDone(s)
    case CloseBroker => s.main == Announced && Idle(s, B.Main)
    case Client(b) => b.Subscribe? || b.Unsubscribe? || b.Receive?
    case Carry(b) => b.Deliver? || b.End?
  }

  predicate AllDone(s: State) { forall i | 0 <= i < |s.phase| :: s.phase[i] == Done }

  function TaskOf(p: Pub): Option<nat>
  {
    match p
    case Main => None
    case Provider(i) => Some(i)
    case Scanner(i, _) => Some(i)
  }

  function PhaseAfter(tasks: seq<Task>, a: Action): Phase
    requires !a.Client? && !a.Carry? && !a.Announce? && !a.CloseBroker? && a.i < |tasks|
  {
    match a
    case Start(_) => Scanning
    case ScanEvent(_, _, _) => Scanning
    case ScanReturn(i) => if tasks[i].outcome.Rows? then ToComplete else ToError
    case ReportError(_) => ToComplete
    case Complete(_) => ToMerge
    case _ => Done
  }

  function Step(tasks: seq<Task>, s: State, a: Action): Option<State>
    requires |s.phase| == |tasks|
  {
    if !Enabled(s, a) then None
    else match a
      case Client(b) => OnBus(s, b)
      case Carry(b) => OnBus(s, b)
      case Announce =>
        (match Publish(s, B.Main, MsgOf(tasks, a).event)
         case None => None
         case Some(t) => Some(t.(main := Announced)))
      case CloseBroker =>
        (match OnBus(s, B.Close)
         case None => None
         case Some(t) => Some(t.(main := Returned)))
      case ScanReturn(i) => Some(s.(phase := s.phase[i := PhaseAfter(tasks, a)]))
      case Merge(i) => Some(s.(phase := s.phase[i := Done], findings := s.findings + RowsOf(tasks[i]),
                               errs := s.errs + ErrorsOf(tasks[i]), merged := s.merged + [i]))
      case _ => Moved(Publish(s, MsgOf(tasks, a).pub, MsgOf(tasks, a).event), a.i, PhaseAfter(tasks, a))
  }

  lemma {:induction false} StepKeepsLength(tasks: seq<Task>, s: State, a: Action)
    requires |s.phase| == |tasks| && Step(tasks, s, a).Some?
    ensures |Step(tasks, s, a).value.phase| == |tasks|
  {
  }

  function Exec(tasks: seq<Task>, schedule: seq<Action>): (s: State)
    ensures |s.phase| == |tasks|
  {
    if schedule == [] then Init(tasks)
    else
      var t := Exec(tasks, schedule[..|schedule| - 1]);
      var next := Step(tasks, t, schedule[|schedule| - 1]);
      if next.Some? then (StepKeepsLength(tasks, t, schedule[|schedule| - 1]); next.value) else t
  }

  // ------------------------------------------------------------ orderly message sequences

  predicate IsStart(m: Msg) { m.pub.Provider? && m.event.typ == PROVIDER_START }

  predicate IsFinish(m: Msg) { m.pub.Provider? && m.event.typ == PROVIDER_COMPLETE }

  /** `m` may come after `before`: the end of the scan is last, a provider's completion is the last
      of that provider's messages, and its start is the first. */
  predicate MayFollow(before: Msg, m: Msg)
  {
    && before.pub != B.Main
    && (IsFinish(before) ==> TaskOf(before.pub) != TaskOf(m.pub))
    && (IsStart(m) ==> TaskOf(before.pub) != TaskOf(m.pub))
  }

  ghost predicate Appendable(ms: seq<Msg>, m: Msg) { forall k | 0 <= k < |ms| :: MayFollow(ms[k], m) }

  ghost predicate Orderly(ms: seq<Msg>)
  {
    forall j, k | 0 <= j < k < |ms| :: MayFollow(ms[j], ms[k])
  }

  lemma {:induction false} OrderlySnoc(ms: seq<Msg>, m: Msg)
    requires Orderly(ms) && Appendable(ms, m)
    ensures Orderly(ms + [m])
  {
    forall j, k | 0 <= j < k < |ms| + 1
      ensures MayFollow((ms + [m])[j], (ms + [m])[k])
    {
      assert k < |ms| ==> MayFollow(ms[j], ms[k]);
    }
  }

  /** A message that may have been published, given where everybody stands. */
  predicate Known(phase: seq<Phase>, main: MainPhase, m: Msg)
  {
    match TaskOf(m.pub)
    case None => main != Waiting
    case Some(i) => i < |phase| && phase[i] != ToStart && (IsFinish(m) ==> phase[i] == ToMerge || phase[i] == Done)
  }

  ghost predicate AllKnown(phase: seq<Phase>, main: MainPhase, ms: seq<Msg>)
  {
    forall k | 0 <= k < |ms| :: Known(phase, main, ms[k])
  }

  /** A message that may be in the course of being sent. */
  predicate InFlight(s: State, m: Msg)
  {
    match m.pub
    case Main => s.main != Waiting
    case Provider(i) =>
      i < |s.phase| && (if IsStart(m) then s.phase[i] == Scanning
                        else if IsFinish(m) then s.phase[i] == ToMerge else s.phase[i] == ToComplete)
    case Scanner(i, _) => i < |s.phase| && s.phase[i] == Scanning && Idle(s, B.Provider(i))
  }

  function Pending(s: State, p: Pub): Msg
    requires p in s.bus.sending
  {
    B.Msg(p, s.bus.sending[p].event)
  }

  ghost predicate SendingInv(s: State, p: Pub)
  {
    p in s.bus.sending ==>
      && InFlight(s, Pending(s, p))
      && forall ch | ch in s.bus.sending[p].left && ch in s.bus.chans ::
        Appendable(B.Delivered(s.bus.chans[ch]), Pending(s, p))
  }

  ghost predicate TextInv(s: State, ms: seq<Msg>) { Orderly(ms) && AllKnown(s.phase, s.main, ms) }

  ghost predicate ChannelInv(s: State, ch: nat) { ch in s.bus.chans ==> TextInv(s, B.Delivered(s.bus.chans[ch])) }

  ghost predicate Inv(s: State)
  {
    && B.Inv(s.bus) && TextInv(s, s.history)
    && (forall ch :: ChannelInv(s, ch))
    && (forall p :: SendingInv(s, p))
    && (s.main != Waiting ==> AllDone(s))
  }

  // ------------------------------------------------------------ steps keep the invariant

  /** Two publishers sending at the same time do not disturb each other's order. */
  lemma {:induction false} Compatible(s: State, m: Msg, n: Msg)
    requires m.pub != n.pub && InFlight(s, m) && InFlight(s, n) && m.pub in s.bus.sending && n.pub in s.bus.sending
    requires s.main != Waiting ==> AllDone(s)
    ensures MayFollow(m, n)
  {
  }

  /** What is already out may precede a message about to be published. */
  lemma {:induction false} PublishedMayPrecede(tasks: seq<Task>, s: State, a: Action, before: Msg)
    requires |s.phase| == |tasks| && Publishes(a) && Enabled(s, a) && Known(s.phase, s.main, before)
    requires s.main != Waiting ==> AllDone(s)
    ensures MayFollow(before, MsgOf(tasks, a))
  {
  }

  lemma {:induction false} KnownLater(s: State, t: State, m: Msg, i: nat, next: Phase)
    requires Known(s.phase, s.main, m)
    requires t.phase == s.phase || (i < |s.phase| && t.phase == s.phase[i := next] && next != ToStart
                                    && (s.phase[i] == ToMerge || s.phase[i] == Done ==> next == Done))
    requires t.main == s.main || t.main != Waiting
    ensures Known(t.phase, t.main, m)
  {
  }

  /** `t` is `s` after a step of task `i`, or of nobody. */
  predicate Advances(s: State, t: State, i: nat, next: Phase)
  {
    && (t.phase == s.phase || (i < |s.phase| && t.phase == s.phase[i := next] && next != ToStart
                               && (s.phase[i] == ToMerge || s.phase[i] == Done ==> next == Done)))
    && (t.main == s.main || t.main != Waiting)
  }

  lemma {:induction false} TextLater(s: State, t: State, ms: seq<Msg>, i: nat, next: Phase)
    requires TextInv(s, ms) && Advances(s, t, i, next)
    ensures TextInv(t, ms)
  {
    forall k | 0 <= k < |ms|
      ensures Known(t.phase, t.main, ms[k])
    {
      KnownLater(s, t, ms[k], i, next);
    }
  }

  // Steps on the bus that only take, subscribe, unsubscribe, end or close.

  lemma {:induction false} BusKeepsTexts(s: State, a: B.Action, ch: nat)
    requires Inv(s) && !a.Begin? && !a.Deliver? && B.Step(s.bus, a).Some?
    ensures ChannelInv(s.(bus := B.Step(s.bus, a).value), ch)
  {
    assert ChannelInv(s, ch);
    var t := B.Step(s.bus, a).value;
    if a.Receive? && ch == a.ch {
      var c := s.bus.chans[ch];
      assert c.received + [c.buffer[0]] + c.buffer[1..] == c.received + c.buffer;
    }
    if ch in t.chans && ch !in s.bus.chans {
      assert B.Delivered(t.chans[ch]) == [];
    } else if ch in t.chans {
      assert B.Delivered(t.chans[ch]) == B.Delivered(s.bus.chans[ch]);
    }
  }

  lemma {:induction false} BusKeepsSending(s: State, a: B.Action, p: Pub)
    requires Inv(s) && !a.Begin? && !a.Deliver? && B.Step(s.bus, a).Some?
    ensures SendingInv(s.(bus := B.Step(s.bus, a).value), p)
  {
    assert SendingInv(s, p);
    var t := s.(bus := B.Step(s.bus, a).value);
    if a.Receive? {
      var c := s.bus.chans[a.ch];
      assert c.received + [c.buffer[0]] + c.buffer[1..] == c.received + c.buffer;
    }
    if p in t.bus.sending {
      assert p in s.bus.sending && t.bus.sending[p] == s.bus.sending[p];
    }
  }

  lemma {:induction false} PlainBusStepInv(s: State, a: B.Action)
    requires Inv(s) && !a.Begin? && !a.Deliver? && B.Step(s.bus, a).Some?
    ensures Inv(s.(bus := B.Step(s.bus, a).value))
  {
    var t := s.(bus := B.Step(s.bus, a).value);
    B.StepInv(s.bus, a);
    assert TextInv(t, t.history);
    forall ch
      ensures ChannelInv(t, ch)
    {
      BusKeepsTexts(s, a, ch);
    }
    forall p
      ensures SendingInv(t, p)
    {
      BusKeepsSending(s, a, p);
    }
    hide B.Inv, ChannelInv, SendingInv, TextInv, B.Step;
  }

  lemma {:induction false} AppendableSnoc(ms: seq<Msg>, n: Msg, m: Msg)
    requires Appendable(ms, m) && MayFollow(n, m)
    ensures Appendable(ms + [n], m)
  {
  }

  lemma {:induction false} InFlightIsKnown(s: State, m: Msg)
    requires InFlight(s, m)
    ensures Known(s.phase, s.main, m)
  {
  }

  /** What the delivery to one channel changes there. */
  lemma {:induction false} DeliveredAfter(b: B.State, p: Pub, ch: nat, c: nat)
    requires B.Inv(b) && B.StepDeliver(b, p, ch).Some?
    ensures var t := B.StepDeliver(b, p, ch).value; var m := B.Msg(p, b.sending[p].event);
      && t.chans.Keys == b.chans.Keys && t.sending.Keys == b.sending.Keys
      && (c in t.chans && c != ch ==> t.chans[c] == b.chans[c])
      && (B.Delivered(t.chans[ch]) == B.Delivered(b.chans[ch])
          || B.Delivered(t.chans[ch]) == B.Delivered(b.chans[ch]) + [m])
      && (forall q | q in b.sending && q != p :: t.sending[q] == b.sending[q])
      && t.sending[p].event == b.sending[p].event && t.sending[p].left == b.sending[p].left - {ch}
  {
    assert B.SendInv(b, p) && B.ChanInv(b, ch);
    var d, m := b.chans[ch], B.Msg(p, b.sending[p].event);
    assert d.received + (d.buffer + [m]) == d.received + d.buffer + [m];
  }

  lemma {:induction false} DeliverKeepsText(s: State, p: Pub, ch: nat, c: nat)
    requires Inv(s) && B.StepDeliver(s.bus, p, ch).Some?
    ensures ChannelInv(s.(bus := B.StepDeliver(s.bus, p, ch).value), c)
  {
    assert ChannelInv(s, c) && SendingInv(s, p);
    DeliveredAfter(s.bus, p, ch, c);
    if c == ch {
      var ms := B.Delivered(s.bus.chans[ch]);
      OrderlySnoc(ms, Pending(s, p));
      InFlightIsKnown(s, Pending(s, p));
    }
  }

  lemma {:induction false} DeliverKeepsSending(s: State, p: Pub, ch: nat, q: Pub)
    requires Inv(s) && B.StepDeliver(s.bus, p, ch).Some?
    ensures SendingInv(s.(bus := B.StepDeliver(s.bus, p, ch).value), q)
  {
    var t := s.(bus := B.StepDeliver(s.bus, p, ch).value);
    assert SendingInv(s, p) && SendingInv(s, q);
    DeliveredAfter(s.bus, p, ch, ch);
    if q in t.bus.sending {
      forall c | c in t.bus.sending[q].left && c in t.bus.chans
        ensures Appendable(B.Delivered(t.bus.chans[c]), Pending(t, q))
      {
        DeliveredAfter(s.bus, p, ch, c);
        if c == ch && q != p {
          Compatible(s, Pending(s, p), Pending(s, q));
          AppendableSnoc(B.Delivered(s.bus.chans[c]), Pending(s, p), Pending(s, q));
        }
      }
    }
  }

  lemma {:induction false} DeliverStepInv(s: State, p: Pub, ch: nat)
    requires Inv(s) && B.StepDeliver(s.bus, p, ch).Some?
    ensures Inv(s.(bus := B.StepDeliver(s.bus, p, ch).value))
  {
    var t := s.(bus := B.StepDeliver(s.bus, p, ch).value);
    B.DeliverInv(s.bus, p, ch);
    assert TextInv(t, t.history);
    forall c
      ensures ChannelInv(t, c)
    {
      DeliverKeepsText(s, p, ch, c);
    }
    forall q
      ensures SendingInv(t, q)
    {
      DeliverKeepsSending(s, p, ch, q);
    }
    hide B.Inv, ChannelInv, SendingInv, TextInv, B.StepDeliver;
  }

  // Steps that publish.

  /** The phase a publishing action leaves is one that it may leave. */
  lemma {:induction false} PublishAdvances(tasks: seq<Task>, s: State, a: Action)
    requires |s.phase| == |tasks| && Publishes(a) && Step(tasks, s, a).Some?
    ensures var t := Step(tasks, s, a).value;
      && (a.Announce? ==> t.phase == s.phase && t.main == Announced)
      && (!a.Announce? ==> a.i < |tasks| && t.main == s.main && t.phase == s.phase[a.i := PhaseAfter(tasks, a)]
                           && PhaseAfter(tasks, a) !in {ToStart, Done} && s.phase[a.i] !in {ToMerge, Done})
      && t.history == s.history + [MsgOf(tasks, a)]
      && B.StepBegin(s.bus, MsgOf(tasks, a).pub, MsgOf(tasks, a).event) == Some(t.bus)
  {
  }

  lemma {:induction false} NewMessageInFlight(tasks: seq<Task>, s: State, a: Action)
    requires |s.phase| == |tasks| && Publishes(a) && Step(tasks, s, a).Some?
    ensures InFlight(Step(tasks, s, a).value, MsgOf(tasks, a))
  {
  }

  /** Those already sending remain in order when somebody begins to publish. */
  lemma {:induction false} OthersInFlight(tasks: seq<Task>, s: State, a: Action, m: Msg)
    requires |s.phase| == |tasks| && Publishes(a) && Step(tasks, s, a).Some?
    requires m.pub in s.bus.sending && InFlight(s, m) && (s.main != Waiting ==> AllDone(s))
    ensures m.pub != MsgOf(tasks, a).pub && InFlight(Step(tasks, s, a).value, m)
  {
  }

  /** A new publisher is listed as sending, unless the broker is closed; nothing is delivered yet. */
  lemma {:induction false} BeginEffect(b: B.State, p: Pub, e: Event)
    requires B.StepBegin(b, p, e).Some?
    ensures var t := B.StepBegin(b, p, e).value;
      && t.chans == b.chans && p !in b.sending
      && (t.sending == b.sending || t.sending == b.sending[p := B.Sending(e, b.clients)])
  {
  }

  lemma {:induction false} TextsMayPrecede(tasks: seq<Task>, s: State, a: Action, ms: seq<Msg>)
    requires |s.phase| == |tasks| && Publishes(a) && Enabled(s, a) && TextInv(s, ms)
    requires s.main != Waiting ==> AllDone(s)
    ensures Appendable(ms, MsgOf(tasks, a))
  {
    forall k | 0 <= k < |ms|
      ensures MayFollow(ms[k], MsgOf(tasks, a))
    {
      PublishedMayPrecede(tasks, s, a, ms[k]);
    }
  }

  lemma {:induction false} PublishKeepsSending(tasks: seq<Task>, s: State, a: Action, p: Pub)
    requires |s.phase| == |tasks| && Inv(s) && Publishes(a) && Step(tasks, s, a).Some?
    ensures SendingInv(Step(tasks, s, a).value, p)
  {
    var t, m := Step(tasks, s, a).value, MsgOf(tasks, a);
    PublishAdvances(tasks, s, a);
    BeginEffect(s.bus, m.pub, m.event);
    assert SendingInv(s, p);
    if p in t.bus.sending {
      if p == m.pub {
        NewMessageInFlight(tasks, s, a);
        forall ch | ch in t.bus.sending[p].left && ch in t.bus.chans
          ensures Appendable(B.Delivered(t.bus.chans[ch]), Pending(t, p))
        {
          assert ChannelInv(s, ch);
          TextsMayPrecede(tasks, s, a, B.Delivered(s.bus.chans[ch]));
        }
      } else {
        OthersInFlight(tasks, s, a, Pending(s, p));
      }
    }
  }

  lemma {:induction false} PublishKeepsHistory(tasks: seq<Task>, s: State, a: Action)
    requires |s.phase| == |tasks| && Inv(s) && Publishes(a) && Step(tasks, s, a).Some?
    ensures var t := Step(tasks, s, a).value; TextInv(t, t.history)
  {
    var t, m := Step(tasks, s, a).value, MsgOf(tasks, a);
    PublishAdvances(tasks, s, a);
    TextsMayPrecede(tasks, s, a, s.history);
    OrderlySnoc(s.history, m);
    if a.Announce? {
      TextLater(s, t, s.history, 0, Done);
    } else {
      TextLater(s, t, s.history, a.i, PhaseAfter(tasks, a));
    }
    NewMessageInFlight(tasks, s, a);
    InFlightIsKnown(t, m);
  }

  lemma {:induction false} PublishKeepsTexts(tasks: seq<Task>, s: State, a: Action, ch: nat)
    requires |s.phase| == |tasks| && Inv(s) && Publishes(a) && Step(tasks, s, a).Some?
    ensures ChannelInv(Step(tasks, s, a).value, ch)
  {
    var t, m := Step(tasks, s, a).value, MsgOf(tasks, a);
    PublishAdvances(tasks, s, a);
    BeginEffect(s.bus, m.pub, m.event);
    assert ChannelInv(s, ch);
    if ch in s.bus.chans {
      if a.Announce? {
        TextLater(s, t, B.Delivered(s.bus.chans[ch]), 0, Done);
      } else {
        TextLater(s, t, B.Delivered(s.bus.chans[ch]), a.i, PhaseAfter(tasks, a));
      }
    }
  }

  lemma {:induction false} PublishStepInv(tasks: seq<Task>, s: State, a: Action)
    requires |s.phase| == |tasks| && Inv(s) && Publishes(a) && Step(tasks, s, a).Some?
    ensures Inv(Step(tasks, s, a).value)
  {
    var t := Step(tasks, s, a).value;
    PublishAdvances(tasks, s, a);
    B.BeginInv(s.bus, MsgOf(tasks, a).pub, MsgOf(tasks, a).event);
    PublishKeepsHistory(tasks, s, a);
    forall ch
      ensures ChannelInv(t, ch)
    {
      PublishKeepsTexts(tasks, s, a, ch);
    }
    forall p
      ensures SendingInv(t, p)
    {
      PublishKeepsSending(tasks, s, a, p);
    }
    StaysDone(tasks, s, a);
    hide Step, B.Inv, ChannelInv, SendingInv, TextInv;
  }

  lemma {:induction false} StaysDone(tasks: seq<Task>, s: State, a: Action)
    requires |s.phase| == |tasks| && (s.main != Waiting ==> AllDone(s)) && Step(tasks, s, a).Some?
    ensures Step(tasks, s, a).value.main != Waiting ==> AllDone(Step(tasks, s, a).value)
  {
  }

  // Steps that only change a phase.

  lemma {:induction false} PhaseStepInv(tasks: seq<Task>, s: State, a: Action)
    requires |s.phase| == |tasks| && Inv(s) && (a.ScanReturn? || a.Merge?) && Step(tasks, s, a).Some?
    ensures Inv(Step(tasks, s, a).value)
  {
    var t := Step(tasks, s, a).value;
    assert t.phase == s.phase[a.i := PhaseAfter(tasks, a)] && t.bus == s.bus && t.main == s.main
           && t.history == s.history;
    TextLater(s, t, s.history, a.i, PhaseAfter(tasks, a));
    forall ch
      ensures ChannelInv(t, ch)
    {
      assert ChannelInv(s, ch);
      if ch in s.bus.chans {
        TextLater(s, t, B.Delivered(s.bus.chans[ch]), a.i, PhaseAfter(tasks, a));
      }
    }
    forall p
      ensures SendingInv(t, p)
    {
      assert SendingInv(s, p);
      if p in s.bus.sending {
        PhaseKeepsInFlight(tasks, s, a, Pending(s, p));
      }
    }
    StaysDone(tasks, s, a);
  }

  lemma {:induction false} PhaseKeepsInFlight(tasks: seq<Task>, s: State, a: Action, m: Msg)
    requires |s.phase| == |tasks| && (a.ScanReturn? || a.Merge?) && Step(tasks, s, a).Some?
    requires m.pub in s.bus.sending && InFlight(s, m)
    ensures InFlight(Step(tasks, s, a).value, m)
  {
  }

  lemma {:induction false} MainReturnsInv(s: State)
    requires Inv(s) && s.main != Waiting
    ensures Inv(s.(main := Returned))
  {
    var t := s.(main := Returned);
    TextLater(s, t, s.history, 0, Done);
    forall ch
      ensures ChannelInv(t, ch)
    {
      assert ChannelInv(s, ch);
      if ch in s.bus.chans {
        TextLater(s, t, B.Delivered(s.bus.chans[ch]), 0, Done);
      }
    }
    forall p
      ensures SendingInv(t, p)
    {
      assert SendingInv(s, p);
    }
  }

  lemma {:induction false} StepInv(tasks: seq<Task>, s: State, a: Action)
    requires |s.phase| == |tasks| && Inv(s) && Step(tasks, s, a).Some?
    ensures Inv(Step(tasks, s, a).value)
  {
    hide Inv, MsgOf, PhaseAfter, B.Step, B.StepDeliver;
    match a {
      case Client(b) => PlainBusStepInv(s, b);
      case Carry(b) =>
        if b.Deliver? {
          CarryIsDelivery(s, b);
          DeliverStepInv(s, b.pub, b.ch);
        } else {
          PlainBusStepInv(s, b);
        }
      case CloseBroker =>
        PlainBusStepInv(s, B.Close);
        MainReturnsInv(s.(bus := B.Step(s.bus, B.Close).value));
      case ScanReturn(_) => PhaseStepInv(tasks, s, a);
      case Merge(_) => PhaseStepInv(tasks, s, a);
      case _ => PublishStepInv(tasks, s, a);
    }
  }

  lemma {:induction false} CarryIsDelivery(s: State, b: B.Action)
    requires b.Deliver?
    ensures B.Step(s.bus, b) == B.StepDeliver(s.bus, b.pub, b.ch)
  {
  }

  lemma {:induction false} InitInv(tasks: seq<Task>)
    ensures Inv(Init(tasks))
  {
    B.InitInv();
  }

  lemma {:induction false} ReachableInv(tasks: seq<Task>, schedule: seq<Action>)
    ensures Inv(Exec(tasks, schedule))
  {
    hide Inv, Step;
    if schedule == [] {
      InitInv(tasks);
    } else {
      var before, a := schedule[..|schedule| - 1], schedule[|schedule| - 1];
      ReachableInv(tasks, before);
      if Step(tasks, Exec(tasks, before), a).Some? {
        StepInv(tasks, Exec(tasks, before), a);
      }
    }
  }
}
