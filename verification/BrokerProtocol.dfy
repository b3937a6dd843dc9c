/** internal/broker/broker.go as a step machine. Publish holds the read lock and sends to one
    subscriber at a time, so publishers interleave; the other operations hold the write lock. */
module BrokerProtocol {
  import opened Base

  const CHANNEL_CAP := 32

  /** The type, the provider and the remaining fields of an event. */
  datatype Event = Event(typ: string, provider: string, detail: string)

  /** Who publishes: the orchestrator, a provider's runner, or a goroutine of a provider's scanner. */
  datatype Pub = Main | Provider(task: nat) | Scanner(task: nat, worker: nat)

  datatype Msg = Msg(pub: Pub, event: Event)

  /** A subscriber's channel and what its reader has taken from it. */
  datatype Chan = Chan(buffer: seq<Msg>, received: seq<Msg>, open: bool)

  /** A Publish in progress, with the subscribers still to be served. */
  datatype Sending = Sending(event: Event, left: set<nat>)

  /** `log` has every event handed to Publish, by publisher; `panicked` means that a closed channel
      was closed or sent to. */
  datatype State = State(chans: map<nat, Chan>, clients: set<nat>, closed: bool, sending: map<Pub, Sending>,
                         log: map<Pub, seq<Event>>, panicked: bool)

  const INIT := State(map[], {}, false, map[], map[], false)

  datatype Action =
    | Subscribe(ch: nat)
    | Unsubscribe(ch: nat)
    | Close
    | Begin(pub: Pub, event: Event)
    | Deliver(pub: Pub, ch: nat)
    | End(pub: Pub)
    | Receive(ch: nat)

  function LogOf(s: State, p: Pub): seq<Event> { if p in s.log then s.log[p] else [] }

  function Delivered(c: Chan): seq<Msg> { c.received + c.buffer }

  function Shut(c: Chan): Chan { c.(open := false) }

  /** The read lock is free of readers. */
  predicate Quiet(s: State) { s.sending == map[] }

  function StepSubscribe(s: State, ch: nat): Option<State>
  {
    if ch in s.chans || !Quiet(s) then None
    else if s.closed then Some(s.(chans := s.chans[ch := Chan([], [], false)]))
    else Some(s.(chans := s.chans[ch := Chan([], [], true)], clients := s.clients + {ch}))
  }

  function StepUnsubscribe(s: State, ch: nat): Option<State>
  {
    if ch !in s.chans || !Quiet(s) then None
    else if ch !in s.clients then Some(s)
    else Some(s.(chans := s.chans[ch := Shut(s.chans[ch])], clients := s.clients - {ch},
                 panicked := s.panicked || !s.chans[ch].open))
  }

  function StepClose(s: State): Option<State>
  {
    if !Quiet(s) then None
    else if s.closed then Some(s)
    else Some(s.(closed := true, clients := {},
                 chans := map ch | ch in s.chans :: if ch in s.clients then Shut(s.chans[ch]) else s.chans[ch],
                 panicked := s.panicked || exists ch :: ch in s.clients && ch in s.chans && !s.chans[ch].open))
  }

  function StepBegin(s: State, p: Pub, e: Event): Option<State>
  {
    if p in s.sending then None
    else
      var logged := s.(log := s.log[p := LogOf(s, p) + [e]]);
      Some(if s.closed then logged else logged.(sending := s.sending[p := Sending(e, s.clients)]))
  }

  /** A full channel drops the event. */
  function Offer(c: Chan, m: Msg): Chan
  {
    if |c.buffer| < CHANNEL_CAP then c.(buffer := c.buffer + [m]) else c
  }

  function StepDeliver(s: State, p: Pub, ch: nat): Option<State>
  {
    if p !in s.sending || ch !in s.sending[p].left || ch !in s.chans then None
    else
      var t := s.(sending := s.sending[p := Sending(s.sending[p].event, s.sending[p].left - {ch})]);
      Some(if !s.chans[ch].open then t.(panicked := true)
           else t.(chans := s.chans[ch := Offer(s.chans[ch], Msg(p, s.sending[p].event))]))
  }

  function StepEnd(s: State, p: Pub): Option<State>
  {
    if p !in s.sending || s.sending[p].left != {} then None else Some(s.(sending := s.sending - {p}))
  }

  function StepReceive(s: State, ch: nat): Option<State>
  {
    if ch !in s.chans || s.chans[ch].buffer == [] then None
    else
      var c := s.chans[ch];
      Some(s.(chans := s.chans[ch := Chan(c.buffer[1..], c.received + [c.buffer[0]], c.open)]))
  }

  /** One step, if it is enabled. */
  function Step(s: State, a: Action): Option<State>
  {
    match a
    case Subscribe(ch) => StepSubscribe(s, ch)
    case Unsubscribe(ch) => StepUnsubscribe(s, ch)
    case Close => StepClose(s)
    case Begin(p, e) => StepBegin(s, p, e)
    case Deliver(p, ch) => StepDeliver(s, p, ch)
    case End(p) => StepEnd(s, p)
    case Receive(ch) => StepReceive(s, ch)
  }

  /** A schedule; actions that are not enabled when their turn comes are skipped. */
  function Exec(s: State, schedule: seq<Action>): State
  {
    if schedule == [] then s
    else
      var t := Exec(s, schedule[..|schedule| - 1]);
      var next := Step(t, schedule[|schedule| - 1]);
      if next.Some? then next.value else t
  }

  // ------------------------------------------------------------ order of delivery

  /** The events of one publisher in a message sequence. */
  function Of(p: Pub, ms: seq<Msg>): seq<Event>
  {
    if ms == [] then []
    else Of(p, ms[..|ms| - 1]) + if ms[|ms| - 1].pub == p then [ms[|ms| - 1].event] else []
  }

  /** `x` is `l` with some elements left out. */
  predicate Subsequence<T(==)>(x: seq<T>, l: seq<T>)
  {
    if x == [] then true
    else if l == [] then false
    else (x[|x| - 1] == l[|l| - 1] && Subsequence(x[..|x| - 1], l[..|l| - 1])) || Subsequence(x, l[..|l| - 1])
  }

  /** The elements of a subsequence stand in the same order in the sequence. */
  lemma {:induction false} SubsequenceEmbeds<T>(x: seq<T>, l: seq<T>) returns (at: seq<nat>)
    requires Subsequence(x, l)
    ensures |at| == |x| && forall i | 0 <= i < |x| :: at[i] < |l| && l[at[i]] == x[i]
    ensures forall i, j | 0 <= i < j < |at| :: at[i] < at[j]
  {
    if x == [] {
      at := [];
    } else if x[|x| - 1] == l[|l| - 1] && Subsequence(x[..|x| - 1], l[..|l| - 1]) {
      at := SubsequenceEmbeds(x[..|x| - 1], l[..|l| - 1]);
      at := at + [|l| - 1];
    } else {
      at := SubsequenceEmbeds(x, l[..|l| - 1]);
    }
  }

  lemma {:induction false} OfSnoc(p: Pub, ms: seq<Msg>, m: Msg)
    ensures Of(p, ms + [m]) == Of(p, ms) + if m.pub == p then [m.event] else []
  {
    assert (ms + [m])[..|ms|] == ms;
  }

  lemma {:induction false} Skips<T>(x: seq<T>, l: seq<T>, e: T)
    requires Subsequence(x, l)
    ensures Subsequence(x, l + [e])
  {
    assert (l + [e])[..|l|] == l;
  }

  lemma {:induction false} Takes<T>(x: seq<T>, l: seq<T>, e: T)
    requires Subsequence(x, l)
    ensures Subsequence(x + [e], l + [e])
  {
    assert (l + [e])[..|l|] == l && (x + [e])[..|x|] == x;
  }

  // ------------------------------------------------------------ the invariant

  /** What publisher `p` may have put into channel `ch` so far: while it still has to serve `ch`, not
      yet its latest event. */
  function Due(s: State, p: Pub, ch: nat): seq<Event>
  {
    var l := LogOf(s, p);
    if p in s.sending && ch in s.sending[p].left && l != [] then l[..|l| - 1] else l
  }

  ghost predicate OrderInv(s: State, p: Pub, ch: nat)
  {
    ch in s.chans ==> Subsequence(Of(p, Delivered(s.chans[ch])), Due(s, p, ch))
  }

  ghost predicate ChanInv(s: State, ch: nat)
  {
    ch in s.chans ==> (s.chans[ch].open <==> ch in s.clients) && |s.chans[ch].buffer| <= CHANNEL_CAP
  }

  ghost predicate SendInv(s: State, p: Pub)
  {
    p in s.sending ==>
      s.sending[p].left <= s.clients && LogOf(s, p) != [] && LogOf(s, p)[|LogOf(s, p)| - 1] == s.sending[p].event
  }

  ghost predicate Inv(s: State)
  {
    && !s.panicked && s.clients <= s.chans.Keys && (s.closed ==> s.clients == {})
    && (forall ch :: ChanInv(s, ch))
    && (forall p :: SendInv(s, p))
    && (forall p, ch :: OrderInv(s, p, ch))
  }

  lemma {:induction false} SameLogOrder(s: State, t: State, p: Pub, ch: nat)
    requires OrderInv(s, p, ch) && t.log == s.log && ch in s.chans && ch in t.chans
    requires Delivered(t.chans[ch]) == Delivered(s.chans[ch])
    requires Due(t, p, ch) == Due(s, p, ch)
    ensures OrderInv(t, p, ch)
  {
  }

  lemma {:induction false} LockedStepInv(s: State, a: Action)
    requires Inv(s) && (a.Subscribe? || a.Unsubscribe? || a.Close?) && Step(s, a).Some?
    ensures Inv(Step(s, a).value)
  {
    var t := Step(s, a).value;
    forall ch
      ensures ChanInv(t, ch)
    {
      assert ChanInv(s, ch);
    }
    forall p
      ensures SendInv(t, p)
    {
      assert SendInv(s, p);
    }
    assert !t.panicked by {
      forall ch | ch in s.clients
        ensures s.chans[ch].open
      {
        assert ChanInv(s, ch);
      }
    }
    forall p, ch
      ensures OrderInv(t, p, ch)
    {
      assert OrderInv(s, p, ch) && SendInv(s, p);
      if ch in s.chans {
        SameLogOrder(s, t, p, ch);
      }
    }
  }

  lemma {:induction false} BeginInv(s: State, p: Pub, e: Event)
    requires Inv(s) && StepBegin(s, p, e).Some?
    ensures Inv(StepBegin(s, p, e).value)
  {
    var t := StepBegin(s, p, e).value;
    forall ch
      ensures ChanInv(t, ch)
    {
      assert ChanInv(s, ch);
    }
    forall q
      ensures SendInv(t, q)
    {
      assert SendInv(s, q);
    }
    forall q, ch
      ensures OrderInv(t, q, ch)
    {
      assert OrderInv(s, q, ch) && ChanInv(s, ch);
      if q == p && ch in s.chans {
        Skips(Of(p, Delivered(s.chans[ch])), LogOf(s, p), e);
        assert (LogOf(s, p) + [e])[..|LogOf(s, p)|] == LogOf(s, p);
      }
    }
  }

  lemma {:induction false} DeliverInv(s: State, p: Pub, ch: nat)
    requires Inv(s) && StepDeliver(s, p, ch).Some?
    ensures Inv(StepDeliver(s, p, ch).value)
  {
    var t := StepDeliver(s, p, ch).value;
    assert SendInv(s, p) && ChanInv(s, ch);
    forall c
      ensures ChanInv(t, c)
    {
      assert ChanInv(s, c);
    }
    forall q
      ensures SendInv(t, q)
    {
      assert SendInv(s, q);
    }
    forall q, c
      ensures OrderInv(t, q, c)
    {
      assert OrderInv(s, q, c);
      if c == ch {
        assert ChanInv(s, ch);
        DeliverOrder(s, p, ch, q);
      }
    }
  }

  lemma {:induction false} OfOffered(q: Pub, c: Chan, m: Msg)
    ensures Of(q, Delivered(Offer(c, m)))
            == if |c.buffer| < CHANNEL_CAP && m.pub == q then Of(q, Delivered(c)) + [m.event] else Of(q, Delivered(c))
  {
    OfSnoc(q, Delivered(c), m);
    assert Delivered(c) + [m] == c.received + (c.buffer + [m]);
    assert Of(q, Delivered(c)) + [] == Of(q, Delivered(c));
  }

  lemma {:induction false} DeliverEffect(s: State, p: Pub, ch: nat, q: Pub)
    requires SendInv(s, p) && ChanInv(s, ch) && StepDeliver(s, p, ch).Some?
    ensures var t, l := StepDeliver(s, p, ch).value, LogOf(s, p);
      && ch in t.chans && t.chans[ch] == Offer(s.chans[ch], Msg(p, s.sending[p].event)) && l != []
      && Due(t, q, ch) == (if q == p then l else Due(s, q, ch)) && Due(s, p, ch) == l[..|l| - 1]
  {
  }

  lemma {:induction false} DeliverOrder(s: State, p: Pub, ch: nat, q: Pub)
    requires SendInv(s, p) && ChanInv(s, ch) && OrderInv(s, q, ch) && StepDeliver(s, p, ch).Some?
    ensures OrderInv(StepDeliver(s, p, ch).value, q, ch)
  {
    DeliverEffect(s, p, ch, q);
    hide Of, Subsequence, Offer, Delivered, StepDeliver, Due, SendInv, ChanInv;
    var c, e := s.chans[ch], s.sending[p].event;
    OfOffered(q, c, Msg(p, e));
    if q == p {
      var x, l := Of(p, Delivered(c)), LogOf(s, p);
      SplitLast(l);
      Skips(x, l[..|l| - 1], e);
      Takes(x, l[..|l| - 1], e);
    }
  }

  lemma {:induction false} SplitLast<T>(l: seq<T>)
    requires l != []
    ensures l[..|l| - 1] + [l[|l| - 1]] == l
  {
  }

  lemma {:induction false} ReadStepInv(s: State, a: Action)
    requires Inv(s) && (a.End? || a.Receive?) && Step(s, a).Some?
    ensures Inv(Step(s, a).value)
  {
    var t := Step(s, a).value;
    forall ch
      ensures ChanInv(t, ch)
    {
      assert ChanInv(s, ch);
    }
    forall p
      ensures SendInv(t, p)
    {
      assert SendInv(s, p);
    }
    if a.Receive? {
      var c := s.chans[a.ch];
      assert c.received + [c.buffer[0]] + c.buffer[1..] == c.received + c.buffer;
    }
    forall p, ch
      ensures OrderInv(t, p, ch)
    {
      assert OrderInv(s, p, ch);
      if ch in s.chans {
        SameLogOrder(s, t, p, ch);
      }
    }
  }

  lemma {:induction false} StepInv(s: State, a: Action)
    requires Inv(s) && Step(s, a).Some?
    ensures Inv(Step(s, a).value)
  {
    match a
    case Begin(p, e) => BeginInv(s, p, e);
    case Deliver(p, ch) => DeliverInv(s, p, ch);
    case End(_) => ReadStepInv(s, a);
    case Receive(_) => ReadStepInv(s, a);
    case _ => LockedStepInv(s, a);
  }

  lemma {:induction false} ReachableInv(schedule: seq<Action>)
    ensures Inv(Exec(INIT, schedule))
  {
    hide Inv, Step;
    if schedule == [] {
      InitInv();
    } else {
      var t := Exec(INIT, schedule[..|schedule| - 1]);
      ReachableInv(schedule[..|schedule| - 1]);
      if Step(t, schedule[|schedule| - 1]).Some? {
        StepInv(t, schedule[|schedule| - 1]);
      }
    }
  }

  lemma {:induction false} InitInv()
    ensures Inv(INIT)
  {
  }

  // ------------------------------------------------------------ what it means

  /** In every reachable state nothing has panicked, a channel is open exactly while it is registered,
      and it holds at most 32 events. */
  lemma {:induction false} ChannelsAreSafe(schedule: seq<Action>, ch: nat)
    ensures var s := Exec(INIT, schedule);
      !s.panicked && (ch in s.chans ==> (s.chans[ch].open <==> ch in s.clients) && |s.chans[ch].buffer| <= 32)
  {
    ReachableInv(schedule);
    assert ChanInv(Exec(INIT, schedule), ch);
  }

  /** Every subscriber sees a subsequence of what each publisher published, in order. */
  lemma {:induction false} SubscribersSeeSubsequences(schedule: seq<Action>, ch: nat, p: Pub)
    ensures var s := Exec(INIT, schedule);
      ch in s.chans ==> Subsequence(Of(p, Delivered(s.chans[ch])), LogOf(s, p))
  {
    ReachableInv(schedule);
    var s := Exec(INIT, schedule);
    assert OrderInv(s, p, ch);
    var l := LogOf(s, p);
    if ch in s.chans && Due(s, p, ch) != l {
      Skips(Of(p, Delivered(s.chans[ch])), l[..|l| - 1], l[|l| - 1]);
      assert l[..|l| - 1] + [l[|l| - 1]] == l;
    }
  }

  /** A closed channel stays closed and gets nothing more; its reader can still drain it. */
  lemma {:induction false} ClosedStaysClosed(s: State, a: Action, ch: nat)
    requires Inv(s) && Step(s, a).Some? && ch in s.chans && !s.chans[ch].open
    ensures ch in Step(s, a).value.chans && !Step(s, a).value.chans[ch].open
    ensures Delivered(Step(s, a).value.chans[ch]) == Delivered(s.chans[ch])
  {
    assert ChanInv(s, ch);
    match a {
      case Deliver(p, c) =>
        assert SendInv(s, p);
      case Receive(c) =>
        var d := s.chans[c];
        assert d.received + [d.buffer[0]] + d.buffer[1..] == d.received + d.buffer;
      case _ =>
    }
  }

  /** Publish never waits for a subscriber: each one it still has to serve can be served now. */
  lemma {:induction false} PublishNeverBlocks(schedule: seq<Action>, p: Pub)
    ensures var s := Exec(INIT, schedule);
      p in s.sending ==> if s.sending[p].left == {} then Step(s, End(p)).Some?
                         else forall ch | ch in s.sending[p].left :: Step(s, Deliver(p, ch)).Some?
  {
    ReachableInv(schedule);
    assert SendInv(Exec(INIT, schedule), p);
  }

  /** A send on a closed channel panics, and so does closing one again; nothing else does. */
  lemma {:induction false} PanicsExactly(s: State, a: Action)
    requires Step(s, a).Some?
    ensures Step(s, a).value.panicked <==>
            || s.panicked
            || (a.Deliver? && !s.chans[a.ch].open)
            || (a.Unsubscribe? && a.ch in s.clients && !s.chans[a.ch].open)
            || (a.Close? && !s.closed && exists ch :: ch in s.clients && ch in s.chans && !s.chans[ch].open)
  {
  }

  lemma {:induction false} ExecSnoc(s: State, schedule: seq<Action>, a: Action)
    requires Step(Exec(s, schedule), a).Some?
    ensures Exec(s, schedule + [a]) == Step(Exec(s, schedule), a).value
  {
    assert (schedule + [a])[..|schedule|] == schedule;
  }

  /** From every reachable state an idle publisher can publish, and a subscriber with room in its channel then gets
      the event as its newest message. */
  lemma {:induction false} EventsReachSubscribers(schedule: seq<Action>, p: Pub, e: Event, ch: nat)
    requires var s := Exec(INIT, schedule);
      !s.closed && p !in s.sending && ch in s.clients && ch in s.chans && |s.chans[ch].buffer| < 32
    ensures var s, t := Exec(INIT, schedule), Exec(INIT, schedule + [Begin(p, e)] + [Deliver(p, ch)]);
      && ch in t.chans && Delivered(t.chans[ch]) == Delivered(s.chans[ch]) + [Msg(p, e)]
      && LogOf(t, p) == LogOf(s, p) + [e]
  {
    ReachableInv(schedule);
    var s := Exec(INIT, schedule);
    assert ChanInv(s, ch);
    hide Exec;
    ExecSnoc(INIT, schedule, Begin(p, e));
    ExecSnoc(INIT, schedule + [Begin(p, e)], Deliver(p, ch));
    var c := s.chans[ch];
    assert c.received + (c.buffer + [Msg(p, e)]) == c.received + c.buffer + [Msg(p, e)];
  }

  /** A closed broker takes an event without a word: it is over before it is sent to anyone. */
  lemma {:induction false} ClosedIsSilent(s: State, p: Pub, e: Event)
    requires s.closed && p !in s.sending
    ensures Step(s, Begin(p, e)).Some? && Step(s, Begin(p, e)).value.sending == s.sending
    ensures Step(s, Begin(p, e)).value.chans == s.chans
  {
  }

  /** What one subscriber and one publisher go through. */
  lemma {:induction false} FirstSteps(p: Pub, e: Event, ch: nat)
    ensures var c0, c1, c2 := Chan([], [], true), Chan([Msg(p, e)], [], true), Chan([], [Msg(p, e)], true);
      var log := map[p := [e]];
      var s2 := State(map[ch := c0], {ch}, false, map[p := Sending(e, {ch})], log, false);
      var s3 := State(map[ch := c1], {ch}, false, map[p := Sending(e, {})], log, false);
      var s4 := State(map[ch := c1], {ch}, false, map[], log, false);
      && Step(INIT, Subscribe(ch)) == Some(State(map[ch := c0], {ch}, false, map[], map[], false))
      && Step(State(map[ch := c0], {ch}, false, map[], map[], false), Begin(p, e)) == Some(s2)
      && Step(s2, Deliver(p, ch)) == Some(s3) && Step(s3, End(p)) == Some(s4)
      && Step(s4, Receive(ch)) == Some(s4.(chans := map[ch := c2]))
  {
    var c0, c1, c2 := Chan([], [], true), Chan([Msg(p, e)], [], true), Chan([], [Msg(p, e)], true);
    assert {} + {ch} == {ch} && [] + [e] == [e] && {ch} - {ch} == {} && [] + [Msg(p, e)] == [Msg(p, e)];
    assert map[ch := c0][ch := c1] == map[ch := c1] && map[ch := c1][ch := c2] == map[ch := c2];
    var sending := map[p := Sending(e, {})];
    assert map[p := Sending(e, {ch})][p := Sending(e, {})] == sending && sending - {p} == map[];
    assert c1.buffer[1..] == [];
  }

  /** A broker starts open: a first subscriber gets a first event, and can read it. */
  lemma {:induction false} FirstEventArrives(p: Pub, e: Event, ch: nat)
    ensures var s := Exec(INIT, [Subscribe(ch)] + [Begin(p, e)] + [Deliver(p, ch)] + [End(p)] + [Receive(ch)]);
      s.chans == map[ch := Chan([], [Msg(p, e)], true)] && s.clients == {ch} && s.sending == map[] && !s.closed
  {
    FirstSteps(p, e, ch);
    assert Exec(INIT, []) == INIT && [] + [Subscribe(ch)] == [Subscribe(ch)];
    hide Exec, Step;
    ExecSnoc(INIT, [], Subscribe(ch));
    ExecSnoc(INIT, [Subscribe(ch)], Begin(p, e));
    ExecSnoc(INIT, [Subscribe(ch)] + [Begin(p, e)], Deliver(p, ch));
    ExecSnoc(INIT, [Subscribe(ch)] + [Begin(p, e)] + [Deliver(p, ch)], End(p));
    ExecSnoc(INIT, [Subscribe(ch)] + [Begin(p, e)] + [Deliver(p, ch)] + [End(p)], Receive(ch));
  }

  /** Subscribing works whenever nobody publishes; on a closed broker the channel is closed from the start. */
  lemma {:induction false} SubscribeRegisters(s: State, ch: nat)
    requires s.sending == map[] && ch !in s.chans
    ensures Step(s, Subscribe(ch)).Some?
    ensures var t := Step(s, Subscribe(ch)).value;
      && ch in t.chans && t.chans[ch] == Chan([], [], !s.closed) && (ch in t.clients <==> !s.closed || ch in s.clients)
  {
  }

  /** Unsubscribing works whenever nobody publishes: a registered channel is closed and forgotten, with what it holds
      still to be read. */
  lemma {:induction false} UnsubscribeCloses(s: State, ch: nat)
    requires s.sending == map[] && ch in s.chans && ch in s.clients
    ensures Step(s, Unsubscribe(ch)).Some?
    ensures var t := Step(s, Unsubscribe(ch)).value;
      && t.clients == s.clients - {ch} && t.chans == s.chans[ch := s.chans[ch].(open := false)]
  {
  }
}
