/**
 What the simulated pipeline does rather than what it never does: every item can be taken to the end of its
 handler, a finished handler frees its permit, errors are survived, and a close ends every loop.
 */
module PipelineServing {
  import opened Bytes
  import opened WorkerHash
  import opened Traffic
  import opened Pipeline
  import QuicRoute

  // ---------- closing ----------

  /** What a worker has started or is bound to start: nothing stops a handler that was cleared. */
  function Committed(k: Worker): seq<Item> {
    k.started + if k.pc.Cleared? then [k.pc.item] else []
  }

  lemma ClosedStepCommitsNothing(cfg: Config, s: State, e: Event, w: nat)
    requires !s.open && w < |s.workers|
    ensures var s' := Step(cfg, s, e);
            && !s'.open && |s'.workers| == |s.workers| && s'.received == s.received
            && Committed(s'.workers[w]) == Committed(s.workers[w])
            && s.workers[w].started <= s'.workers[w].started
  {
    match e
    case DispatchStep(v) => ClosedDispatchCommitsNothing(cfg, s.workers[w], s.receiver.RecvStopped?);
    case _ =>
  }

  lemma ClosedDispatchCommitsNothing(cfg: Config, k: Worker, receiverGone: bool)
    ensures Committed(StepDispatch(cfg, k, false, receiverGone)) == Committed(k)
    ensures k.started <= StepDispatch(cfg, k, false, receiverGone).started
  {
  }

  lemma {:induction false} ClosedCommitsNothing(cfg: Config, s: State, schedule: seq<Event>, w: nat)
    requires !s.open && w < |s.workers|
    ensures var s' := Run(cfg, s, schedule);
            && |s'.workers| == |s.workers| && s'.received == s.received
            && s.workers[w].started <= s'.workers[w].started <= Committed(s.workers[w])
    decreases |schedule|
  {
    if schedule != [] {
      ClosedStepCommitsNothing(cfg, s, schedule[0], w);
      ClosedCommitsNothing(cfg, Step(cfg, s, schedule[0]), schedule[1..], w);
    }
  }

  /**
   Whatever happens before and after a close: no further item is received, and the most that a worker
   still starts is the one handler its dispatch loop had already cleared.
   */
  lemma CloseEndsServing(cfg: Config, before: seq<Event>, after: seq<Event>, w: nat)
    requires cfg.Valid() && w < cfg.workers
    ensures var s, s' := Run(cfg, Init(cfg), before), Run(cfg, Init(cfg), before + [Close] + after);
            && |s.workers| == |s'.workers| == cfg.workers
            && s'.received == s.received
            && s.workers[w].started <= s'.workers[w].started <= Committed(s.workers[w])
            && |s'.workers[w].started| <= |s.workers[w].started| + 1
  {
    var s := Run(cfg, Init(cfg), before);
    RunAppend(cfg, Init(cfg), before + [Close], after);
    RunAppend(cfg, Init(cfg), before, [Close]);
    RunOne(cfg, s, [Close], s.(open := false));
    ReachableInv(cfg, before);
    ClosedCommitsNothing(cfg, s.(open := false), after, w);
  }

  function RecvSteps(n: nat, runtimeActive: bool := true): (e: seq<Event>)
    ensures |e| == n
  {
    if n == 0 then [] else [RecvStep(runtimeActive)] + RecvSteps(n - 1, runtimeActive)
  }

  lemma RecvMoves(cfg: Config, s: State, next: State, n: nat, runtimeActive: bool := true)
    requires n > 0 && next == StepReceiver(cfg, s, runtimeActive)
    ensures Run(cfg, s, RecvSteps(n, runtimeActive)) == Run(cfg, next, RecvSteps(n - 1, runtimeActive))
  {
    assert RecvSteps(n, runtimeActive)[1..] == RecvSteps(n - 1, runtimeActive);
  }

  /** Steps to the end of a receive loop whose server or runtime is no longer active, once nothing blocks it. */
  function StepsToStop(cfg: Config, s: State): nat {
    match s.receiver
    case RecvStopped => 0
    case LookupFailed => 0
    case RecvHead => 1
    case RecvChecking(_) => 1
    case Receiving => 2
    case Sending(_, w) => if w < |s.workers| && s.workers[w].pc.Stopped? then 1 else 2
    case Routing(item) => if RouteItem(cfg, s, item).receiver.Sending? then 3 else 2
  }

  predicate NothingFull(cfg: Config, s: State) {
    forall w :: 0 <= w < |s.workers| ==> |s.workers[w].queue| < cfg.capacity && !s.workers[w].pc.Stopped?
  }

  /** The receive loop is not stuck: it has something to receive, a worker to route to and room to send. */
  predicate Unblocked(cfg: Config, s: State) {
    && !s.receiver.LookupFailed?
    && (s.receiver.Receiving? ==> s.inbox != [])
    && (InFlight(s.receiver) ==> |s.workers| == cfg.workers && NothingFull(cfg, s))
    && (s.receiver.Sending? ==> s.receiver.to < |s.workers|)
  }

  lemma InactiveStep(cfg: Config, s: State, runtimeActive: bool)
    requires cfg.Valid() && !(s.open && runtimeActive) && Unblocked(cfg, s) && !s.receiver.RecvStopped?
    ensures var next := StepReceiver(cfg, s, runtimeActive);
            next.open == s.open && Unblocked(cfg, next) && StepsToStop(cfg, next) == StepsToStop(cfg, s) - 1
  {
    if s.receiver.Routing? {
      assert cfg.RouteOf(s.receiver.item) == cfg.route(s.receiver.item.packet, s.receiver.item.meta);
    }
  }

  /** A wake, or anything else to receive, stops an inactive receive loop within three steps. */
  lemma {:induction false} InactiveReceiverStops(cfg: Config, s: State, runtimeActive: bool)
    requires cfg.Valid() && !(s.open && runtimeActive) && Unblocked(cfg, s)
    ensures StepsToStop(cfg, s) <= 3
    ensures Run(cfg, s, RecvSteps(StepsToStop(cfg, s), runtimeActive)).receiver.RecvStopped?
    decreases StepsToStop(cfg, s)
  {
    if !s.receiver.RecvStopped? {
      var next := StepReceiver(cfg, s, runtimeActive);
      InactiveStep(cfg, s, runtimeActive);
      RecvMoves(cfg, s, next, StepsToStop(cfg, s), runtimeActive);
      InactiveReceiverStops(cfg, next, runtimeActive);
    }
  }

  /** A closed dispatch loop with an item to take, or whose sender is gone, stops within two steps. */
  lemma ClosedDispatchStops(cfg: Config, s: State, w: nat)
    requires !s.open && w < |s.workers|
    requires s.workers[w].pc.Waiting? && s.workers[w].queue == [] ==> s.receiver.RecvStopped?
    ensures var s' := Run(cfg, s, DispatchSteps(w, 2));
            w < |s'.workers| && s'.workers[w].pc.Stopped?
  {
    DispatchMoves(cfg, s, w, 2);
    DispatchMoves(cfg, Step(cfg, s, DispatchStep(w)), w, 1);
  }

  /** A fatal error, an error after the close and an abort all stop a waiting receive loop. */
  lemma WaitingReceiverCanBeStopped(cfg: Config, s: State, e: Event)
    requires s.receiver.Receiving? && (e.AbortRecv? || (e.RecvError? && (e.fatal || !s.open)))
    ensures Step(cfg, s, e) == s.(receiver := RecvStopped)
  {
  }

  /** Aborting a loop in the middle of a send gives the permit back and records the item as abandoned. */
  lemma AbortedSendReturnsPermit(cfg: Config, schedule: seq<Event>)
    requires cfg.Valid()
    ensures var s := Run(cfg, Init(cfg), schedule);
            s.receiver.Sending? ==>
              var w, s' := s.receiver.to, Step(cfg, s, AbortRecv);
              && w < |s.workers| == |s'.workers| && s'.receiver.RecvStopped?
              && |s'.fates| == |s.fates| > 0 && s'.fates[|s.fates| - 1] == Abandoned(w)
              && (cfg.max.Some? ==> s'.workers[w].active == s.workers[w].active - 1)
  {
    ReachableInv(cfg, schedule);
    var s := Run(cfg, Init(cfg), schedule);
    if s.receiver.Sending? {
      assert WorkerOk(cfg, s.workers[s.receiver.to], 1, AdmittedTo(s.received, s.fates, s.receiver.to), s.open);
    }
  }

  // ---------- serving ----------

  /** A handler that finishes gives its permit back. */
  lemma FinishReturnsPermit(cfg: Config, schedule: seq<Event>, w: nat)
    requires cfg.Valid() && w < cfg.workers
    ensures var s := Run(cfg, Init(cfg), schedule);
            && |s.workers| == cfg.workers
            && (s.workers[w].running > 0 ==>
                  var k := Step(cfg, s, FinishHandler(w)).workers[w];
                  && k.running == s.workers[w].running - 1
                  && (cfg.max.Some? ==> k.active == s.workers[w].active - 1 && HasRoom(cfg, k)))
  {
    ReachableInv(cfg, schedule);
    var s := Run(cfg, Init(cfg), schedule);
    assert WorkerOk(cfg, s.workers[w], SendingTo(s.receiver, w), AdmittedTo(s.received, s.fates, w), s.open);
  }

  /** Whether a full worker refuses an item or is sent it depends on one handler finishing first. */
  lemma FinishedHandlerLetsItemIn(cfg: Config, schedule: seq<Event>, w: nat)
    requires cfg.Valid() && cfg.max.Some? && w < cfg.workers
    ensures var s := Run(cfg, Init(cfg), schedule);
            && |s.workers| == cfg.workers
            && (s.receiver.Routing? && cfg.RouteOf(s.receiver.item) == Some(w)
                && s.workers[w].active == cfg.max.value && s.workers[w].running > 0 ==>
                  var refused := Step(cfg, s, RecvStep(true));
                  && refused.receiver.RecvHead? && refused.fates != []
                  && refused.fates[|refused.fates| - 1] == Full(w, cfg.max.value)
                  && Step(cfg, Step(cfg, s, FinishHandler(w)), RecvStep(true)).receiver == Sending(s.receiver.item, w))
  {
    ReachableInv(cfg, schedule);
    FinishReturnsPermit(cfg, schedule, w);
  }

  /** An open receive loop survives an error that is not fatal. */
  lemma ErrorIsSurvived(cfg: Config, s: State)
    requires s.open && s.receiver.Receiving?
    ensures Step(cfg, Step(cfg, s, RecvError(false)), RecvStep(true)) == s
  {
  }

  function SettledFate(cfg: Config, item: Item): Fate {
    match cfg.RouteOf(item)
    case None => Unroutable
    case Some(w) => Admitted(w)
  }

  /** Idle after the given arrivals, each of them served by the worker it routes to. */
  function Served(cfg: Config, items: seq<Item>): State {
    State(true, items, [], RecvHead, items, Mapped(item => SettledFate(cfg, item), items),
          seq(cfg.workers, w requires 0 <= w < cfg.workers => Idle(RoutedTo(cfg, items, w))))
  }

  function Idle(started: seq<Item>): Worker {
    Worker(0, [], Head, started, 0, [], 0)
  }

  /** Takes one item to the end of its handler. */
  function ServeOne(cfg: Config, item: Item): seq<Event> {
    [Arrive(item.packet, item.meta)] + RecvSteps(4)
    + match cfg.RouteOf(item)
      case None => []
      case Some(w) => RecvSteps(1) + DispatchSteps(w, 4) + [FinishHandler(w)]
  }

  function ServeAll(cfg: Config, items: seq<Item>): seq<Event> {
    if items == [] then [] else ServeAll(cfg, items[..|items| - 1]) + ServeOne(cfg, items[|items| - 1])
  }

  lemma FourStepsRoute(cfg: Config, s: State, item: Item)
    requires s.open && s.receiver.RecvHead? && s.inbox == [item]
    ensures Run(cfg, s, RecvSteps(4))
         == RouteItem(cfg, s.(inbox := [], receiver := Routing(item), received := s.received + [item],
                              fates := s.fates + [Pending]), item)
  {
    var s1 := s.(receiver := Receiving);
    var s2 := s.(receiver := RecvChecking(item), inbox := []);
    var s3 := s2.(receiver := Routing(item), received := s.received + [item], fates := s.fates + [Pending]);
    assert [item][1..] == [];
    RecvMoves(cfg, s, s1, 4);
    RecvMoves(cfg, s1, s2, 3);
    RecvMoves(cfg, s2, s3, 2);
    RecvMoves(cfg, s3, RouteItem(cfg, s3, item), 1);
  }

  lemma DispatchReaches(cfg: Config, s: State, w: nat, k: Worker, next: Worker, n: nat)
    requires w < |s.workers| && n > 0 && next == StepDispatch(cfg, k, s.open, s.receiver.RecvStopped?)
    ensures Run(cfg, s.(workers := s.workers[w := k]), DispatchSteps(w, n))
         == Run(cfg, s.(workers := s.workers[w := next]), DispatchSteps(w, n - 1))
  {
    DispatchMoves(cfg, s.(workers := s.workers[w := k]), w, n);
    assert s.workers[w := k][w := next] == s.workers[w := next];
  }

  function Drained(k: Worker): Worker {
    k.(queue := [], started := k.started + k.queue, running := k.running + |k.queue|)
  }

  /** The worker with the first item of its queue started. */
  function OneStarted(k: Worker): Worker
    requires k.queue != []
  {
    k.(queue := k.queue[1..], started := k.started + [k.queue[0]], running := k.running + 1)
  }

  lemma FourStepsTakeOne(cfg: Config, s: State, w: nat, n: nat)
    requires s.open && w < |s.workers| && s.workers[w].pc.Head? && s.workers[w].queue != [] && n >= 4
    ensures Run(cfg, s, DispatchSteps(w, n))
         == Run(cfg, s.(workers := s.workers[w := OneStarted(s.workers[w])]), DispatchSteps(w, n - 4))
  {
    var k := s.workers[w];
    var taken := k.(pc := Checking(k.queue[0]), queue := k.queue[1..]);
    assert s.workers[w := k] == s.workers;
    DispatchReaches(cfg, s, w, k, k.(pc := Waiting), n);
    DispatchReaches(cfg, s, w, k.(pc := Waiting), taken, n - 1);
    DispatchReaches(cfg, s, w, taken, taken.(pc := Cleared(k.queue[0])), n - 2);
    DispatchReaches(cfg, s, w, taken.(pc := Cleared(k.queue[0])), OneStarted(k), n - 3);
  }

  /** An open dispatch loop serves its whole queue, in order. */
  lemma {:induction false} QueueIsDrained(cfg: Config, s: State, w: nat)
    requires s.open && w < |s.workers| && s.workers[w].pc.Head?
    ensures Run(cfg, s, DispatchSteps(w, 4 * |s.workers[w].queue|))
         == s.(workers := s.workers[w := Drained(s.workers[w])])
    decreases |s.workers[w].queue|
  {
    var k := s.workers[w];
    if k.queue == [] {
      assert k.started + [] == k.started && s.workers[w := k] == s.workers;
    } else {
      var next := s.(workers := s.workers[w := OneStarted(k)]);
      FourStepsTakeOne(cfg, s, w, 4 * |k.queue|);
      QueueIsDrained(cfg, next, w);
      assert k.started + [k.queue[0]] + k.queue[1..] == k.started + k.queue;
      assert next.workers[w := Drained(k)] == s.workers[w := Drained(k)];
    }
  }

  lemma ServeUnroutable(cfg: Config, items: seq<Item>, item: Item)
    requires !item.wake && cfg.RouteOf(item) == None
    ensures Run(cfg, Served(cfg, items), ServeOne(cfg, item)) == Served(cfg, items + [item])
  {
    var s, e, s' := Served(cfg, items), ServeOne(cfg, item), Served(cfg, items + [item]);
    var s1 := s.(arrived := items + [item], inbox := [item]);
    assert [] + [item] == [item] && e[1..] == RecvSteps(4);
    RunOne(cfg, s, e, s1);
    FourStepsRoute(cfg, s1, item);
    assert (s.fates + [Pending])[|items| := Unroutable] == s'.fates;
    forall w | 0 <= w < cfg.workers
      ensures s.workers[w] == s'.workers[w]
    {
      RoutedToAppend(cfg, items, item, w);
    }
    assert s.workers == s'.workers;
  }

  /** The item has been sent to its idle worker. */
  function Queued(cfg: Config, items: seq<Item>, item: Item, w: nat): State
    requires w < cfg.workers
  {
    var s := Served(cfg, items);
    s.(arrived := items + [item], received := items + [item], fates := s.fates + [Admitted(w)],
       workers := s.workers[w := Holding(cfg, s.workers[w].(queue := [item]))])
  }

  function Holding(cfg: Config, k: Worker): Worker {
    if cfg.max.Some? then k.(active := 1) else k
  }

  /** The item has been routed and holds its permit. */
  function Routed(cfg: Config, items: seq<Item>, item: Item, w: nat): State
    requires w < cfg.workers
  {
    var s := Served(cfg, items);
    s.(arrived := items + [item], received := items + [item], fates := s.fates + [Pending],
       receiver := Sending(item, w), workers := s.workers[w := Holding(cfg, s.workers[w])])
  }

  lemma ItemIsRouted(cfg: Config, items: seq<Item>, item: Item, w: nat)
    requires cfg.Valid() && !item.wake && cfg.RouteOf(item) == Some(w) && w < cfg.workers
    ensures Run(cfg, Served(cfg, items), [Arrive(item.packet, item.meta)] + RecvSteps(4))
         == Routed(cfg, items, item, w)
  {
    var s := Served(cfg, items);
    var s1 := s.(arrived := items + [item], inbox := [item]);
    var e := [Arrive(item.packet, item.meta)] + RecvSteps(4);
    assert [] + [item] == [item] && e[1..] == RecvSteps(4);
    RunOne(cfg, s, e, s1);
    FourStepsRoute(cfg, s1, item);
  }

  lemma RoutedIsQueued(cfg: Config, items: seq<Item>, item: Item, w: nat)
    requires w < cfg.workers && cfg.capacity > 0
    ensures Run(cfg, Routed(cfg, items, item, w), RecvSteps(1)) == Queued(cfg, items, item, w)
  {
    var s, q := Routed(cfg, items, item, w), Queued(cfg, items, item, w);
    assert s.fates[|items| := Admitted(w)] == q.fates;
    assert [] + [item] == [item];
    assert s.workers[w := q.workers[w]] == q.workers;
    RecvMoves(cfg, s, q, 1);
  }

  lemma QueuedIsServed(cfg: Config, items: seq<Item>, item: Item, w: nat)
    requires cfg.RouteOf(item) == Some(w) && w < cfg.workers
    ensures Run(cfg, Queued(cfg, items, item, w), DispatchSteps(w, 4) + [FinishHandler(w)])
         == Served(cfg, items + [item])
  {
    var q, s' := Queued(cfg, items, item, w), Served(cfg, items + [item]);
    RunAppend(cfg, q, DispatchSteps(w, 4), [FinishHandler(w)]);
    QueueIsDrained(cfg, q, w);
    var started := q.(workers := q.workers[w := Drained(q.workers[w])]);
    forall v | 0 <= v < cfg.workers
      ensures s'.workers[v] == if v == w then Idle(RoutedTo(cfg, items, w) + [item]) else q.workers[v]
    {
      RoutedToAppend(cfg, items, item, v);
    }
    assert s'.workers == started.workers[w := Idle(RoutedTo(cfg, items, w) + [item])];
    assert s'.fates == q.fates;
    RunOne(cfg, started, [FinishHandler(w)], s');
  }

  /** One more item, routable or not, is dealt with from beginning to end. */
  lemma ServeOneReaches(cfg: Config, items: seq<Item>, item: Item)
    requires cfg.Valid() && cfg.capacity > 0 && !item.wake
    ensures Run(cfg, Served(cfg, items), ServeOne(cfg, item)) == Served(cfg, items + [item])
  {
    assert cfg.RouteOf(item) == cfg.route(item.packet, item.meta);
    match cfg.RouteOf(item)
    case None => ServeUnroutable(cfg, items, item);
    case Some(w) =>
      var a := [Arrive(item.packet, item.meta)] + RecvSteps(4);
      var b := DispatchSteps(w, 4) + [FinishHandler(w)];
      assert ServeOne(cfg, item) == a + (RecvSteps(1) + b);
      RunAppend(cfg, Served(cfg, items), a, RecvSteps(1) + b);
      RunAppend(cfg, Routed(cfg, items, item, w), RecvSteps(1), b);
      ItemIsRouted(cfg, items, item, w);
      RoutedIsQueued(cfg, items, item, w);
      QueuedIsServed(cfg, items, item, w);
  }

  /** Whatever traffic arrives, some run serves it: each worker starts exactly what routes to it, in order. */
  lemma {:induction false} AllTrafficCanBeServed(cfg: Config, items: seq<Item>)
    requires cfg.Valid() && cfg.capacity > 0 && AllGenuine(items)
    ensures Run(cfg, Init(cfg), ServeAll(cfg, items)) == Served(cfg, items)
  {
    if items == [] {
      assert Init(cfg).workers == Served(cfg, []).workers;
    } else {
      var n := |items| - 1;
      AllTrafficCanBeServed(cfg, items[..n]);
      RunAppend(cfg, Init(cfg), ServeAll(cfg, items[..n]), ServeOne(cfg, items[n]));
      ServeOneReaches(cfg, items[..n], items[n]);
      assert items == items[..n] + [items[n]];
    }
  }

  // ---------- the configured limit ----------

  function Servers(workers: nat, max: Option<nat>): seq<Config> {
    [QuicConfig(workers, max), UdpConfig(workers, max), TcpConfig(workers, max)]
  }

  /**
   A limit of one or more given to any of the servers bounds what each worker has queued and running in
   every run; a limit of zero, or none, means that no item is ever refused.
   */
  lemma ConfiguredLimitHolds(workers: nat, max: Option<nat>, schedule: seq<Event>, w: nat, server: nat)
    requires w < workers && server < 3
    ensures var cfg := Servers(workers, max)[server];
            var s := Run(cfg, Init(cfg), schedule);
            && |s.workers| == workers
            && (max.Some? && max.value > 0 ==> |s.workers[w].queue| + s.workers[w].running <= max.value)
            && (max.None? || max.value == 0 ==> forall i :: 0 <= i < |s.fates| ==> !s.fates[i].Full?)
  {
    RoutingsAreValid(workers, max);
    var cfg := Servers(workers, max)[server];
    if max.Some? && max.value > 0 {
      PermitsAccountedFor(cfg, schedule, w);
    } else {
      ReachableInv(cfg, schedule);
      var s := Run(cfg, Init(cfg), schedule);
      assert forall i :: 0 <= i < |s.fates| ==> FateOk(cfg, s.received[i], s.fates[i]);
    }
  }

  // ---------- closing, worker by worker ----------

  /** Closing alone does not stop a receive loop that waits on an empty socket; the wake does, in two steps. */
  lemma WakeStopsWaitingReceiver(cfg: Config, s: State, from: PacketMeta, n: nat)
    requires cfg.Valid() && s.receiver.Receiving? && s.inbox == []
    ensures Run(cfg, s, [Close] + RecvSteps(n)).receiver.Receiving?
    ensures Run(cfg, s, [Close, SendWake(from)] + RecvSteps(2)).receiver.RecvStopped?
  {
    var closed, wake := s.(open := false), Item([0], from, true);
    var woken := closed.(arrived := s.arrived + [wake], inbox := [wake]);
    assert ([Close] + RecvSteps(n))[1..] == RecvSteps(n);
    RunOne(cfg, s, [Close] + RecvSteps(n), closed);
    WaitingReceiverWaits(cfg, closed, n);
    var e := [Close, SendWake(from)] + RecvSteps(2);
    assert e[1..][1..] == RecvSteps(2) && [] + [wake] == [wake];
    RunOne(cfg, s, e, closed);
    RunOne(cfg, closed, e[1..], woken);
    InactiveReceiverStops(cfg, woken, true);
  }

  lemma {:induction false} WaitingReceiverWaits(cfg: Config, s: State, n: nat)
    requires s.receiver.Receiving? && s.inbox == []
    ensures Run(cfg, s, RecvSteps(n)) == s
  {
    if n > 0 {
      RecvMoves(cfg, s, s, n);
      WaitingReceiverWaits(cfg, s, n - 1);
    }
  }

  /** Once the receive loop is gone, an open dispatch loop with an empty queue stops instead of waiting. */
  lemma SenderlessDispatchStops(cfg: Config, s: State, w: nat)
    requires w < |s.workers| && s.workers[w].pc.Waiting? && s.workers[w].queue == []
    ensures var k := Step(cfg, s, DispatchStep(w)).workers[w];
            if s.receiver.RecvStopped? then k.pc.Stopped? else k == s.workers[w]
  {
  }

  /** Aborting a waiting dispatch loop discards its queue and gives those permits back. */
  lemma AbortedDispatchReturnsPermits(cfg: Config, schedule: seq<Event>, w: nat)
    requires cfg.Valid() && w < cfg.workers
    ensures var s := Run(cfg, Init(cfg), schedule);
            && |s.workers| == cfg.workers
            && (s.workers[w].pc.Waiting? ==>
                  var k, k' := s.workers[w], Step(cfg, s, AbortDispatch(w)).workers[w];
                  && k'.pc.Stopped? && k'.queue == [] && k'.discarded == k.queue && k'.started == k.started
                  && (cfg.max.Some? ==> k'.active == k.running + SendingTo(s.receiver, w)))
  {
    ReachableInv(cfg, schedule);
    var s := Run(cfg, Init(cfg), schedule);
    assert WorkerOk(cfg, s.workers[w], SendingTo(s.receiver, w), AdmittedTo(s.received, s.fates, w), s.open);
  }

  // ---------- the servers as configured ----------

  /** Of the servers with any workers, those with a limit from 1 to 4096 are the ones whose sends never wait. */
  lemma ConfiguredSendNeverWaitsIff(workers: nat, max: Option<nat>, meta: PacketMeta)
    requires workers > 0
    ensures (forall schedule :: !WaitsAfter(UdpConfig(workers, max), schedule))
       <==> max.Some? && 1 <= max.value <= 4096
    ensures (forall schedule :: !WaitsAfter(TcpConfig(workers, max), schedule))
       <==> max.Some? && 1 <= max.value <= 4096
  {
    RoutingsAreValid(workers, max);
    SendNeverWaitsIff(UdpConfig(workers, max), [], meta);
    SendNeverWaitsIff(TcpConfig(workers, max), [], meta);
  }

  lemma AdmittedWasRouted(cfg: Config, schedule: seq<Event>, i: nat, w: nat)
    requires cfg.Valid()
    ensures var s := Run(cfg, Init(cfg), schedule);
            && |s.fates| == |s.received|
            && (AdmittedAt(s, i, w) ==> cfg.RouteOf(s.received[i]) == Some(w) && w < cfg.workers)
  {
    ReachableInv(cfg, schedule);
    var s := Run(cfg, Init(cfg), schedule);
    if i < |s.fates| && s.fates[i] == Admitted(w) {
      var item := s.received[i];
      assert FateOk(cfg, item, s.fates[i]) && cfg.RouteOf(item) == cfg.route(item.packet, item.meta);
    }
  }

  predicate AdmittedAt(s: State, i: nat, w: nat) {
    i < |s.fates| && s.fates[i] == Admitted(w)
  }

  function RunOf(cfg: Config, schedule: seq<Event>): State {
    Run(cfg, Init(cfg), schedule)
  }

  /** In every run of the UDP server a datagram is admitted only to the worker congruent to its flow's hash. */
  lemma UdpAdmitsByHash(workers: nat, max: Option<nat>, schedule: seq<Event>, i: nat, w: nat)
    requires AdmittedAt(RunOf(UdpConfig(workers, max), schedule), i, w)
    ensures var s := RunOf(UdpConfig(workers, max), schedule);
            i < |s.received| && w < workers && (Flow(s.received[i].meta) - w) % workers == 0
  {
    RoutingsAreValid(workers, max);
    AdmittedWasRouted(UdpConfig(workers, max), schedule, i, w);
    UdpRoutesByHash(workers, max, RunOf(UdpConfig(workers, max), schedule).received[i], w);
  }

  /** TCP leaves worker 0 out and spreads its connections over the others in the same way. */
  lemma TcpAdmitsByHash(workers: nat, max: Option<nat>, schedule: seq<Event>, i: nat, w: nat)
    requires workers > 1 && AdmittedAt(RunOf(TcpConfig(workers, max), schedule), i, w)
    ensures var s := RunOf(TcpConfig(workers, max), schedule);
            i < |s.received| && 0 < w < workers && (Flow(s.received[i].meta) - (w - 1)) % (workers - 1) == 0
  {
    RoutingsAreValid(workers, max);
    AdmittedWasRouted(TcpConfig(workers, max), schedule, i, w);
    TcpRoutesByHash(workers, max, RunOf(TcpConfig(workers, max), schedule).received[i], if w == 0 then 1 else w);
  }

  /** QUIC admits a packet only to the worker its connection ID names. */
  lemma QuicAdmitsById(workers: nat, max: Option<nat>, schedule: seq<Event>, i: nat, w: nat)
    requires AdmittedAt(RunOf(QuicConfig(workers, max), schedule), i, w)
    ensures var s := RunOf(QuicConfig(workers, max), schedule);
            i < |s.received| && QuicRoute.WorkerIndex(s.received[i].packet, workers) == Some(w)
  {
    RoutingsAreValid(workers, max);
    AdmittedWasRouted(QuicConfig(workers, max), schedule, i, w);
  }
}
