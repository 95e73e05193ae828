/**
  The audit event dispatcher: publishers, workers and shutdown as a state machine over
  every interleaving, and the delivery of one event to one sink with retries.
 */
module AuditDispatcher {
  type EventId = nat
  type SinkId = nat

  const BUFFER: nat := 2048
  const WORKERS: nat := 4
  const MAX_RETRIES: nat := 3

  /** A delivery: one event to one matching sink. */
  datatype Delivery = Delivery(event: EventId, sink: SinkId)

  datatype Worker = Idle | Busy(event: EventId, pending: multiset<Delivery>) | Exited

  /**
    `queue`, `closed` and `workers` are the channel and the goroutines. The rest is history:
    events published, accepted into the channel and taken from it, in order; events dropped
    and fanned out; deliveries begun and outcomes recorded.
   */
  datatype State = State(
    queue: seq<EventId>,
    closed: bool,
    started: bool,
    workers: seq<Worker>,
    published: multiset<EventId>,
    dropped: multiset<EventId>,
    accepted: seq<EventId>,
    taken: seq<EventId>,
    done: multiset<EventId>,
    begun: multiset<Delivery>,
    outcomes: multiset<Delivery>)

  const INITIAL: State :=
    State([], false, false, [], multiset{}, multiset{}, [], [], multiset{}, multiset{}, multiset{})

  /**
    Take carries the sinks that match the event, none when the organisation ID or the sink
    list could not be read. Deliver is the end of one delivery, successful or not. Close is
    the first half of Stop.
   */
  datatype Event =
    | Publish(event: EventId)
    | Start
    | Take(worker: nat, sinks: seq<SinkId>)
    | Deliver(worker: nat, delivery: Delivery)
    | Finish(worker: nat)
    | Exit(worker: nat)
    | Close

  function Deliveries(e: EventId, sinks: seq<SinkId>): multiset<Delivery> {
    multiset(seq(|sinks|, i requires 0 <= i < |sinks| => Delivery(e, sinks[i])))
  }

  /** A step leads to a state, is not possible now, or brings the program down. */
  datatype Result = Moved(state: State) | NotEnabled | Panic

  /** One step. Publishing to a closed channel panics, and so does closing it again. */
  function Step(s: State, e: Event): Result {
    match e
    case Publish(event) =>
      if s.closed then Panic
      else if |s.queue| < BUFFER then
        Moved(s.(queue := s.queue + [event], accepted := s.accepted + [event], published := s.published + multiset{event}))
      else Moved(s.(dropped := s.dropped + multiset{event}, published := s.published + multiset{event}))
    case Start =>
      if s.started then Moved(s) else Moved(s.(started := true, workers := seq(WORKERS, _ => Idle)))
    case Take(w, sinks) =>
      if w >= |s.workers| || !s.workers[w].Idle? || s.queue == [] then NotEnabled
      else
        var event := s.queue[0];
        Moved(s.(queue := s.queue[1..], taken := s.taken + [event],
                workers := s.workers[w := Busy(event, Deliveries(event, sinks))],
                begun := s.begun + Deliveries(event, sinks)))
    case Deliver(w, d) =>
      if w >= |s.workers| || !s.workers[w].Busy? || d !in s.workers[w].pending then NotEnabled
      else
        var worker := s.workers[w];
        Moved(s.(workers := s.workers[w := worker.(pending := worker.pending - multiset{d})],
                outcomes := s.outcomes + multiset{d}))
    case Finish(w) =>
      if w >= |s.workers| || !s.workers[w].Busy? || s.workers[w].pending != multiset{} then NotEnabled
      else Moved(s.(workers := s.workers[w := Idle], done := s.done + multiset{s.workers[w].event}))
    case Exit(w) =>
      if w >= |s.workers| || !s.workers[w].Idle? || !s.closed || s.queue != [] then NotEnabled
      else Moved(s.(workers := s.workers[w := Exited]))
    case Close =>
      if s.closed then Panic else Moved(s.(closed := true))
  }

  predicate WorkerEvent(e: Event) {
    e.Take? || e.Deliver? || e.Finish? || e.Exit?
  }

  /** The steps in order, as far as one is not enabled or panics. */
  function Run(s: State, es: seq<Event>): Result
    decreases |es|
  {
    if |es| == 0 then Moved(s)
    else
      match Run(s, es[..|es| - 1])
      case Moved(t) => Step(t, es[|es| - 1])
      case other => other
  }

  // ---------- Conservation ----------

  function InFlightOf(w: Worker): multiset<EventId> {
    if w.Busy? then multiset{w.event} else multiset{}
  }

  function InFlight(ws: seq<Worker>): multiset<EventId> {
    if |ws| == 0 then multiset{} else InFlightOf(ws[0]) + InFlight(ws[1..])
  }

  function PendingOf(w: Worker): multiset<Delivery> {
    if w.Busy? then w.pending else multiset{}
  }

  function PendingAll(ws: seq<Worker>): multiset<Delivery> {
    if |ws| == 0 then multiset{} else PendingOf(ws[0]) + PendingAll(ws[1..])
  }

  /** Replacing the part `o` of a sum by `n`, at the left end or further in. */
  lemma {:induction false} Replace<T>(a: multiset<T>, o: multiset<T>, n: multiset<T>)
    ensures (n + a) + o == (o + a) + n
  {
  }

  lemma {:induction false} ReplaceInner<T>(a: multiset<T>, x: multiset<T>, y: multiset<T>, o: multiset<T>, n: multiset<T>)
    requires y + o == x + n
    ensures (a + y) + o == (a + x) + n
  {
    assert (a + y) + o == a + (y + o);
    assert (a + x) + n == a + (x + n);
  }

  lemma {:induction false} InFlightUpdate(ws: seq<Worker>, i: nat, w: Worker)
    requires i < |ws|
    ensures InFlight(ws[i := w]) + InFlightOf(ws[i]) == InFlight(ws) + InFlightOf(w)
    decreases i
  {
    var us := ws[i := w];
    var head, tail, tail' := InFlightOf(ws[0]), InFlight(ws[1..]), InFlight(us[1..]);
    assert InFlight(ws) == head + tail;
    assert InFlight(us) == InFlightOf(us[0]) + tail';
    if i == 0 {
      assert us[1..] == ws[1..];
      Replace(tail, head, InFlightOf(w));
    } else {
      assert us[1..] == ws[1..][i - 1 := w];
      InFlightUpdate(ws[1..], i - 1, w);
      ReplaceInner(head, tail, tail', InFlightOf(ws[i]), InFlightOf(w));
    }
  }

  lemma {:induction false} PendingUpdate(ws: seq<Worker>, i: nat, w: Worker)
    requires i < |ws|
    ensures PendingAll(ws[i := w]) + PendingOf(ws[i]) == PendingAll(ws) + PendingOf(w)
    decreases i
  {
    var us := ws[i := w];
    var head, tail, tail' := PendingOf(ws[0]), PendingAll(ws[1..]), PendingAll(us[1..]);
    assert PendingAll(ws) == head + tail;
    assert PendingAll(us) == PendingOf(us[0]) + tail';
    if i == 0 {
      assert us[1..] == ws[1..];
      Replace(tail, head, PendingOf(w));
    } else {
      assert us[1..] == ws[1..][i - 1 := w];
      PendingUpdate(ws[1..], i - 1, w);
      ReplaceInner(head, tail, tail', PendingOf(ws[i]), PendingOf(w));
    }
  }

  lemma {:induction false} NoneBusy(ws: seq<Worker>)
    requires forall i :: 0 <= i < |ws| ==> !ws[i].Busy?
    ensures InFlight(ws) == multiset{} && PendingAll(ws) == multiset{}
    decreases |ws|
  {
    if |ws| > 0 { NoneBusy(ws[1..]); }
  }

  /** Nothing is lost: events, then deliveries. */
  ghost predicate Conserved(s: State) {
    && s.published == s.dropped + multiset(s.accepted)
    && s.accepted == s.taken + s.queue
    && multiset(s.taken) == InFlight(s.workers) + s.done
    && s.begun == s.outcomes + PendingAll(s.workers)
  }

  ghost predicate Shape(s: State) {
    && |s.queue| <= BUFFER
    && (if s.started then |s.workers| == WORKERS else s.workers == [] && s.taken == [] && s.done == multiset{})
    && (forall i :: 0 <= i < |s.workers| && s.workers[i].Exited? ==> s.closed && s.queue == [])
  }

  ghost predicate Inv(s: State) {
    Conserved(s) && Shape(s)
  }

  lemma {:induction false} Assoc<T>(a: multiset<T>, b: multiset<T>, c: multiset<T>)
    ensures (a + b) + c == a + (b + c)
    ensures (a + b) + c == (a + c) + b
  {
  }

  lemma {:induction false} PlusNone<T>(a: multiset<T>)
    ensures a + multiset{} == a
  {
  }

  lemma {:induction false} PublishConserves(s: State, event: EventId, t: State)
    requires Conserved(s) && Step(s, Publish(event)) == Moved(t)
    ensures Conserved(t)
  {
    var one := multiset{event};
    if |s.queue| < BUFFER {
      Assoc(s.dropped, multiset(s.accepted), one);
      assert multiset(t.accepted) == multiset(s.accepted) + one;
      assert t.accepted == t.taken + t.queue;
    } else {
      Assoc(s.dropped, multiset(s.accepted), one);
      assert t.published == t.dropped + multiset(t.accepted);
    }
  }

  lemma {:induction false} StartConserves(s: State, t: State)
    requires Inv(s) && Step(s, Start) == Moved(t)
    ensures Conserved(t)
  {
    if !s.started {
      NoneBusy(s.workers);
      NoneBusy(t.workers);
    }
  }

  lemma {:induction false} Exchange<T>(whole: multiset<T>, part: multiset<T>, rest: multiset<T>, part': multiset<T>,
                    o: multiset<T>, n: multiset<T>, incoming: multiset<T>, outgoing: multiset<T>)
    requires whole == part + rest
    requires part' + o == part + n
    requires o + incoming == n + outgoing
    ensures whole + incoming == part' + (rest + outgoing)
  {
    forall x: T
      ensures (whole + incoming)[x] == (part' + (rest + outgoing))[x]
    {
      assert (part' + o)[x] == (part + n)[x];
      assert (o + incoming)[x] == (n + outgoing)[x];
    }
  }

  /** The events in the workers' hands, when one of them takes and finishes some. */
  lemma {:induction false} EventsExchanged(s: State, w: nat, worker: Worker, taken: multiset<EventId>, done: multiset<EventId>)
    requires Conserved(s) && w < |s.workers|
    requires InFlightOf(s.workers[w]) + taken == InFlightOf(worker) + done
    ensures multiset(s.taken) + taken == InFlight(s.workers[w := worker]) + (s.done + done)
  {
    InFlightUpdate(s.workers, w, worker);
    Exchange(multiset(s.taken), InFlight(s.workers), s.done, InFlight(s.workers[w := worker]),
             InFlightOf(s.workers[w]), InFlightOf(worker), taken, done);
  }

  /** The deliveries in the workers' hands, when one of them begins and ends some. */
  lemma {:induction false} DeliveriesExchanged(s: State, w: nat, worker: Worker, begun: multiset<Delivery>, ended: multiset<Delivery>)
    requires Conserved(s) && w < |s.workers|
    requires PendingOf(s.workers[w]) + begun == PendingOf(worker) + ended
    ensures s.begun + begun == (s.outcomes + ended) + PendingAll(s.workers[w := worker])
  {
    PendingUpdate(s.workers, w, worker);
    Exchange(s.begun, PendingAll(s.workers), s.outcomes, PendingAll(s.workers[w := worker]),
             PendingOf(s.workers[w]), PendingOf(worker), begun, ended);
  }

  lemma {:induction false} TakeFifo(taken: seq<EventId>, queue: seq<EventId>)
    requires |queue| > 0
    ensures (taken + [queue[0]]) + queue[1..] == taken + queue
    ensures multiset(taken + [queue[0]]) == multiset(taken) + multiset{queue[0]}
  {
    assert queue == [queue[0]] + queue[1..];
  }

  lemma {:induction false} TakeExchanges(s: State, w: nat, event: EventId, begun: multiset<Delivery>)
    requires Conserved(s) && w < |s.workers| && s.workers[w].Idle?
    ensures var workers := s.workers[w := Busy(event, begun)];
            && multiset(s.taken) + multiset{event} == InFlight(workers) + s.done
            && s.begun + begun == s.outcomes + PendingAll(workers)
  {
    EventsExchanged(s, w, Busy(event, begun), multiset{event}, multiset{});
    DeliveriesExchanged(s, w, Busy(event, begun), begun, multiset{});
    PlusNone(s.done);
    PlusNone(s.outcomes);
  }

  lemma {:induction false} TakeConserves(s: State, w: nat, sinks: seq<SinkId>, t: State)
    requires Conserved(s) && Step(s, Take(w, sinks)) == Moved(t)
    ensures Conserved(t)
  {
    TakeFifo(s.taken, s.queue);
    TakeExchanges(s, w, s.queue[0], Deliveries(s.queue[0], sinks));
  }

  lemma {:induction false} DeliverConserves(s: State, w: nat, d: Delivery, t: State)
    requires Conserved(s) && Step(s, Deliver(w, d)) == Moved(t)
    ensures Conserved(t)
  {
    EventsExchanged(s, w, t.workers[w], multiset{}, multiset{});
    DeliveriesExchanged(s, w, t.workers[w], multiset{}, multiset{d});
    PlusNone(multiset(s.taken));
    PlusNone(s.done);
    PlusNone(s.begun);
  }

  lemma {:induction false} FinishConserves(s: State, w: nat, t: State)
    requires Conserved(s) && Step(s, Finish(w)) == Moved(t)
    ensures Conserved(t)
  {
    EventsExchanged(s, w, Idle, multiset{}, multiset{s.workers[w].event});
    DeliveriesExchanged(s, w, Idle, multiset{}, multiset{});
    PlusNone(multiset(s.taken));
    PlusNone(s.outcomes);
    PlusNone(s.begun);
  }

  lemma {:induction false} ExitConserves(s: State, w: nat, t: State)
    requires Conserved(s) && Step(s, Exit(w)) == Moved(t)
    ensures Conserved(t)
  {
    EventsExchanged(s, w, Exited, multiset{}, multiset{});
    DeliveriesExchanged(s, w, Exited, multiset{}, multiset{});
    PlusNone(multiset(s.taken));
    PlusNone(s.done);
    PlusNone(s.outcomes);
    PlusNone(s.begun);
  }

  lemma {:induction false} StepConserves(s: State, e: Event, t: State)
    requires Inv(s) && Step(s, e) == Moved(t)
    ensures Conserved(t)
  {
    match e {
      case Publish(event) => PublishConserves(s, event, t);
      case Start => StartConserves(s, t);
      case Take(w, sinks) => TakeConserves(s, w, sinks, t);
      case Deliver(w, d) => DeliverConserves(s, w, d, t);
      case Finish(w) => FinishConserves(s, w, t);
      case Exit(w) => ExitConserves(s, w, t);
      case Close =>
    }
  }

  lemma {:induction false} WorkerShape(s: State, e: Event, t: State)
    requires Shape(s) && WorkerEvent(e) && Step(s, e) == Moved(t)
    ensures Shape(t)
  {
    forall i | 0 <= i < |t.workers| && t.workers[i].Exited?
      ensures t.closed && t.queue == []
    {
      assert i != e.worker ==> s.workers[i].Exited?;
    }
  }

  lemma {:induction false} StepShape(s: State, e: Event, t: State)
    requires Shape(s) && Step(s, e) == Moved(t)
    ensures Shape(t)
  {
    if WorkerEvent(e) {
      WorkerShape(s, e, t);
    }
  }

  lemma {:induction false} RunInv(es: seq<Event>)
    requires Run(INITIAL, es).Moved?
    ensures Inv(Run(INITIAL, es).state)
    decreases |es|
  {
    if |es| > 0 {
      RunInv(es[..|es| - 1]);
      StepConserves(Run(INITIAL, es[..|es| - 1]).state, es[|es| - 1], Run(INITIAL, es).state);
      StepShape(Run(INITIAL, es[..|es| - 1]).state, es[|es| - 1], Run(INITIAL, es).state);
    }
  }

  /**
    Event conservation: in every reachable state each published event was dropped, is
    queued, is in flight or is done, exactly once; the queue fits its buffer; events leave
    the queue in the order they entered; and every delivery begun is pending or has its one
    outcome.
   */
  lemma {:induction false} EventConservation(es: seq<Event>)
    requires Run(INITIAL, es).Moved?
    ensures var s := Run(INITIAL, es).state;
            && s.published == s.dropped + multiset(s.queue) + InFlight(s.workers) + s.done
            && |s.queue| <= 2048 && |s.workers| == (if s.started then 4 else 0)
            && s.accepted == s.taken + s.queue
            && s.begun == s.outcomes + PendingAll(s.workers)
  {
    RunInv(es);
  }

  // ---------- Stop ----------

  /** Stop's wait is over: the channel is closed and every worker has returned. */
  predicate StopReturns(s: State) {
    s.closed && forall i :: 0 <= i < |s.workers| ==> s.workers[i].Exited?
  }

  /**
    When Stop returns after Start, every accepted event has been fanned out, once, and every
    delivery has its outcome. Without Start it returns just the same, with whatever was
    accepted still queued: so it has drained the channel exactly if the dispatcher was
    started or nothing was accepted.
   */
  lemma {:induction false} StopDrainsIff(es: seq<Event>)
    requires Run(INITIAL, es).Moved? && StopReturns(Run(INITIAL, es).state)
    ensures var s := Run(INITIAL, es).state;
            && (s.done == multiset(s.accepted) <==> s.started || s.accepted == [])
            && s.outcomes == s.begun
            && (s.started ==> s.queue == [])
  {
    RunInv(es);
    var s := Run(INITIAL, es).state;
    NoneBusy(s.workers);
    if s.started {
      assert s.workers[0].Exited?;
      assert s.taken == s.accepted;
    } else if s.accepted != [] {
      assert s.accepted[0] in multiset(s.accepted);
    }
  }

  /** Stopping a dispatcher that was never started returns with the event still queued. */
  lemma {:induction false} UnstartedStopKeepsQueue()
    ensures var run := Run(INITIAL, [Publish(0), Close]);
            run.Moved? && StopReturns(run.state) && run.state.queue == [0] && run.state.done == multiset{}
  {
    assert [Publish(0), Close][..1] == [Publish(0)] && [Publish(0)][..0] == [];
  }

  /** Uses the channel in a way that a closed one does not survive. */
  predicate NeedsOpen(e: Event) {
    e.Close? || e.Publish?
  }

  predicate UseAfterClose(es: seq<Event>) {
    exists i, j :: 0 <= i < j < |es| && es[i].Close? && NeedsOpen(es[j])
  }

  /**
    The channel's whole discipline: a run panics if and only if some Stop or Publish comes
    after an earlier Stop. So Stop may be called once, and not, as its comment says, again.
   */
  lemma {:induction false} PanicsIff(es: seq<Event>)
    requires !Run(INITIAL, es).NotEnabled?
    ensures Run(INITIAL, es).Panic? <==> UseAfterClose(es)
    ensures Run(INITIAL, es).Moved? ==> (Run(INITIAL, es).state.closed <==> Close in es)
    decreases |es|
  {
    if |es| > 0 {
      var n := |es| - 1;
      var before, e := es[..n], es[n];
      PanicsIff(before);
      assert es == before + [e];
      if UseAfterClose(before) {
        var i, j :| 0 <= i < j < n && before[i].Close? && NeedsOpen(before[j]);
        assert es[i].Close? && NeedsOpen(es[j]);
      } else if NeedsOpen(e) && Close in before {
        var i :| 0 <= i < n && before[i] == Close;
        assert es[i].Close? && NeedsOpen(es[n]);
      } else {
        NoNewUse(before, e);
      }
    }
  }

  lemma {:induction false} NoNewUse(before: seq<Event>, e: Event)
    requires !UseAfterClose(before) && !(NeedsOpen(e) && Close in before)
    ensures !UseAfterClose(before + [e])
  {
    var es := before + [e];
    forall i, j | 0 <= i < j < |es| && es[i].Close? ensures !NeedsOpen(es[j]) {
      assert es[i] == before[i] && before[i] in before;
      if j < |before| {
        assert es[j] == before[j];
      }
    }
  }

  /** A second Stop panics, and so does publishing after Stop. */
  lemma {:induction false} StopTwicePanics(event: EventId)
    ensures Run(INITIAL, [Close, Close]) == Panic
    ensures Run(INITIAL, [Close, Publish(event)]) == Panic
  {
    assert [Close, Close][..1] == [Close] && [Close, Publish(event)][..1] == [Close] && [Close][..0] == [];
  }

  // ---------- Every matching sink is served ----------

  /** Which sinks match each event, as the environment decides. */
  type Matching = EventId -> seq<SinkId>

  /** A worker that takes an event finds exactly the sinks that match it. */
  predicate Matched(s: State, e: Event, sinksOf: Matching) {
    e.Take? && s.queue != [] ==> e.sinks == sinksOf(s.queue[0])
  }

  ghost predicate MatchedRun(es: seq<Event>, sinksOf: Matching)
    decreases |es|
  {
    |es| > 0 ==>
      && MatchedRun(es[..|es| - 1], sinksOf)
      && (Run(INITIAL, es[..|es| - 1]).Moved? ==> Matched(Run(INITIAL, es[..|es| - 1]).state, es[|es| - 1], sinksOf))
  }

  /** A fan-out delivers its own event, to each sink as often as it is listed. */
  lemma {:induction false} DeliveriesTo(e: EventId, sinks: seq<SinkId>, f: EventId, x: SinkId)
    ensures Deliveries(e, sinks)[Delivery(f, x)] == if f == e then multiset(sinks)[x] else 0
    decreases |sinks|
  {
    if |sinks| > 0 {
      var n := |sinks| - 1;
      var before := sinks[..n];
      DeliveriesTo(e, before, f, x);
      assert sinks == before + [sinks[n]];
      assert seq(|sinks|, i requires 0 <= i < |sinks| => Delivery(e, sinks[i])) ==
             seq(n, i requires 0 <= i < n => Delivery(e, before[i])) + [Delivery(e, sinks[n])];
    }
  }

  /** How often e is to go to x: once for each time it was taken and each time x is listed. */
  ghost function Owed(taken: seq<EventId>, sinks: seq<SinkId>, e: EventId, x: SinkId): nat {
    multiset(taken)[e] * multiset(sinks)[x]
  }

  ghost predicate Served(s: State, sinksOf: Matching, e: EventId, x: SinkId) {
    s.begun[Delivery(e, x)] == Owed(s.taken, sinksOf(e), e, x)
  }

  lemma {:induction false} StepServed(s: State, step: Event, t: State, sinksOf: Matching, e: EventId, x: SinkId)
    requires Served(s, sinksOf, e, x) && Matched(s, step, sinksOf) && Step(s, step) == Moved(t)
    ensures Served(t, sinksOf, e, x)
  {
    if step.Take? {
      var event := s.queue[0];
      DeliveriesTo(event, step.sinks, e, x);
      TakeFifo(s.taken, s.queue);
      assert event == e ==> multiset(t.taken)[e] == multiset(s.taken)[e] + 1;
      OnceMore(multiset(s.taken)[e], multiset(sinksOf(e))[x]);
    }
  }

  lemma {:induction false} OnceMore(k: nat, m: nat)
    ensures (k + 1) * m == k * m + m
  {
  }

  lemma {:induction false} RunServed(es: seq<Event>, sinksOf: Matching, e: EventId, x: SinkId)
    requires Run(INITIAL, es).Moved? && MatchedRun(es, sinksOf)
    ensures Served(Run(INITIAL, es).state, sinksOf, e, x)
    decreases |es|
  {
    if |es| > 0 {
      var before := es[..|es| - 1];
      RunServed(before, sinksOf, e, x);
      StepServed(Run(INITIAL, before).state, es[|es| - 1], Run(INITIAL, es).state, sinksOf, e, x);
    }
  }

  /**
    The fan-out: over every run, deliveries of an event to a sink are begun exactly as often
    as the event was taken, once for each time the sink matches. When Stop returns each has
    its outcome, and after Start that is so for every event accepted.
   */
  lemma {:induction false} EverySinkServed(es: seq<Event>, sinksOf: Matching, e: EventId, x: SinkId)
    requires Run(INITIAL, es).Moved? && MatchedRun(es, sinksOf)
    ensures var s := Run(INITIAL, es).state;
            && s.begun[Delivery(e, x)] == Owed(s.taken, sinksOf(e), e, x)
            && (StopReturns(s) ==> s.outcomes[Delivery(e, x)] == Owed(s.taken, sinksOf(e), e, x))
            && (StopReturns(s) && s.started ==> s.taken == s.accepted)
  {
    RunServed(es, sinksOf, e, x);
    var s := Run(INITIAL, es).state;
    if StopReturns(s) {
      StopDrainsIff(es);
      RunInv(es);
    }
  }

  // ---------- Events are dropped only from a full queue ----------

  ghost predicate DroppedFull(s: State) {
    s.dropped != multiset{} ==> |s.accepted| >= 2048
  }

  lemma {:induction false} StepDroppedFull(s: State, e: Event, t: State)
    requires s.accepted == s.taken + s.queue && DroppedFull(s) && Step(s, e) == Moved(t)
    ensures DroppedFull(t)
  {
    if e.Publish? {
      assert |s.accepted| == |s.taken| + |s.queue|;
    } else {
      assert t.dropped == s.dropped && t.accepted == s.accepted;
    }
  }

  /** No event is dropped until 2048 have been accepted, and then only while that many wait. */
  lemma {:induction false} DropsOnlyFull(es: seq<Event>, event: EventId)
    requires Run(INITIAL, es).Moved?
    ensures var s := Run(INITIAL, es).state;
            && (s.dropped != multiset{} ==> |s.accepted| >= 2048)
            && (!s.closed ==>
                  && Step(s, Publish(event)).Moved?
                  && var t := Step(s, Publish(event)).state;
                     if |s.queue| < 2048 then t.queue == s.queue + [event] && t.dropped == s.dropped
                     else t.queue == s.queue && t.dropped == s.dropped + multiset{event})
    decreases |es|
  {
    if |es| > 0 {
      var before := es[..|es| - 1];
      DropsOnlyFull(before, event);
      RunInv(before);
      StepDroppedFull(Run(INITIAL, before).state, es[|es| - 1], Run(INITIAL, es).state);
    }
  }

  // ---------- Draining ends ----------

  /** A worker's step that delivers to exactly the matching sinks. */
  predicate Follows(s: State, e: Event, sinksOf: Matching) {
    WorkerEvent(e) && Matched(s, e, sinksOf)
  }

  ghost predicate WorkerRun(s: State, es: seq<Event>, sinksOf: Matching) {
    forall i :: 0 <= i < |es| && Run(s, es[..i]).Moved? ==> Follows(Run(s, es[..i]).state, es[i], sinksOf)
  }

  /** The steps a worker has ahead of it with what it holds, counting its return. */
  function Ahead(w: Worker): nat {
    match w
    case Idle => 1
    case Busy(_, pending) => 2 + |pending|
    case Exited => 0
  }

  function AllAhead(ws: seq<Worker>): nat {
    if |ws| == 0 then 0 else Ahead(ws[0]) + AllAhead(ws[1..])
  }

  /** The steps queued events call for: take, deliver to each sink, finish. */
  function Queued(queue: seq<EventId>, sinksOf: Matching): nat {
    if |queue| == 0 then 0 else 2 + |sinksOf(queue[0])| + Queued(queue[1..], sinksOf)
  }

  function Measure(s: State, sinksOf: Matching): nat {
    Queued(s.queue, sinksOf) + AllAhead(s.workers)
  }

  lemma {:induction false} AheadUpdate(ws: seq<Worker>, i: nat, w: Worker)
    requires i < |ws|
    ensures AllAhead(ws[i := w]) == AllAhead(ws) - Ahead(ws[i]) + Ahead(w)
    decreases i
  {
    if i == 0 {
      assert ws[i := w][1..] == ws[1..];
    } else {
      assert ws[i := w][1..] == ws[1..][i - 1 := w];
      AheadUpdate(ws[1..], i - 1, w);
    }
  }

  lemma {:induction false} DeliveryCount(e: EventId, sinks: seq<SinkId>)
    ensures |Deliveries(e, sinks)| == |sinks|
  {
  }

  /** Each step of a worker uses up exactly one of the steps ahead. */
  lemma {:induction false} WorkerProgress(s: State, e: Event, t: State, sinksOf: Matching)
    requires Follows(s, e, sinksOf) && Step(s, e) == Moved(t)
    ensures Measure(t, sinksOf) == Measure(s, sinksOf) - 1 && t.closed == s.closed
  {
    var w := e.worker;
    AheadUpdate(s.workers, w, t.workers[w]);
    if e.Take? {
      DeliveryCount(s.queue[0], e.sinks);
    }
  }

  /** After Close some worker can move until all have returned, whatever the sinks. */
  lemma {:induction false} DrainNeverStuck(s: State, sinksOf: Matching) returns (e: Event)
    requires s.closed && !StopReturns(s)
    ensures Follows(s, e, sinksOf) && Step(s, e).Moved?
  {
    var i :| 0 <= i < |s.workers| && !s.workers[i].Exited?;
    if s.workers[i].Idle? {
      e := if s.queue == [] then Exit(i) else Take(i, sinksOf(s.queue[0]));
    } else if s.workers[i].pending == multiset{} {
      e := Finish(i);
    } else {
      var d :| d in s.workers[i].pending;
      e := Deliver(i, d);
    }
  }

  lemma {:induction false} RunMeasure(s: State, es: seq<Event>, sinksOf: Matching)
    requires Run(s, es).Moved? && WorkerRun(s, es, sinksOf)
    ensures |es| + Measure(Run(s, es).state, sinksOf) == Measure(s, sinksOf)
    ensures Run(s, es).state.closed == s.closed
    decreases |es|
  {
    if |es| > 0 {
      var n := |es| - 1;
      var before := es[..n];
      forall i | 0 <= i < n && Run(s, before[..i]).Moved? ensures Follows(Run(s, before[..i]).state, before[i], sinksOf) {
        assert before[..i] == es[..i];
      }
      RunMeasure(s, before, sinksOf);
      WorkerProgress(Run(s, before).state, es[n], Run(s, es).state, sinksOf);
    }
  }

  /** No worker can take a step. */
  ghost predicate Stuck(s: State, sinksOf: Matching) {
    forall e {:trigger Follows(s, e, sinksOf)} :: Follows(s, e, sinksOf) ==> !Step(s, e).Moved?
  }

  lemma {:induction false} StuckIff(s: State, sinksOf: Matching)
    requires s.closed
    ensures Stuck(s, sinksOf) <==> StopReturns(s)
  {
    if StopReturns(s) {
      forall e | Follows(s, e, sinksOf) ensures !Step(s, e).Moved? {
        assert e.worker < |s.workers| ==> s.workers[e.worker].Exited?;
      }
    } else {
      var e := DrainNeverStuck(s, sinksOf);
      assert Follows(s, e, sinksOf);
    }
  }

  /**
    Stop always returns: whichever sinks match, once the channel is closed every run of the
    workers has at most Measure steps, and one that cannot go on is one in which every worker
    has returned.
   */
  lemma {:induction false} StopEnds(s: State, es: seq<Event>, sinksOf: Matching)
    requires s.closed && Run(s, es).Moved? && WorkerRun(s, es, sinksOf)
    ensures |es| <= Measure(s, sinksOf)
    ensures var t := Run(s, es).state;
            Stuck(t, sinksOf) <==> StopReturns(t)
  {
    RunMeasure(s, es, sinksOf);
    StuckIff(Run(s, es).state, sinksOf);
  }

  // ---------- One delivery ----------

  datatype Record = Record(ok: bool, message: string)

  datatype Attempt = Sent | Error(message: string)

  /**
    deliverWithRetry. `send` is the result of each attempt, `cancelled` whether the context
    ends during the pause after it. Exactly one outcome is recorded, after at most
    MAX_RETRIES sends; it is a success exactly when the last send succeeded, and every
    earlier send failed.
   */
  method DeliverWithRetry(built: Attempt, send: nat -> Attempt, cancelled: nat -> bool)
    returns (records: seq<Record>, sends: nat, paused: nat)
    ensures |records| == 1
    ensures sends <= MAX_RETRIES && (sends == 0 <==> built.Error?)
    ensures records[0].ok <==> sends > 0 && send(sends).Sent?
    ensures forall k :: 1 <= k < sends ==> send(k).Error? && !cancelled(k)
    ensures !records[0].ok && sends > 0 ==> sends == MAX_RETRIES || cancelled(sends)
    ensures records[0].message ==
            if built.Error? then built.message
            else if send(sends).Sent? then ""
            else if sends < MAX_RETRIES then "context cancelled"
            else send(sends).message
    ensures paused == Pauses(sends)
  {
    records, sends, paused := [], 0, 0;
    if built.Error? {
      return [Record(false, built.message)], 0, 0;
    }
    var last := Sent;
    for attempt := 1 to MAX_RETRIES + 1
      invariant sends == attempt - 1
      invariant forall k :: 1 <= k <= sends ==> send(k).Error?
      invariant forall k :: 1 <= k <= sends && k < MAX_RETRIES ==> !cancelled(k)
      invariant attempt > 1 ==> last == send(sends)
      invariant paused == Pauses(if sends < MAX_RETRIES then sends + 1 else sends)
    {
      last := send(attempt);
      sends := attempt;
      if last.Sent? {
        return [Record(true, "")], sends, paused;
      }
      if attempt < MAX_RETRIES {
        if cancelled(attempt) {
          return [Record(false, "context cancelled")], sends, paused;
        }
        paused := paused + attempt * attempt;
      }
    }
    records := [Record(false, last.message)];
  }

  /** The seconds of back-off before the n-th send: 1 + 4 + ... + (n - 1)^2. */
  function Pauses(n: nat): nat {
    if n <= 1 then 0 else Pauses(n - 1) + (n - 1) * (n - 1)
  }
}
