/**
 The simulated reuse-port pipeline: one receive loop routes each item, tries a permit of the routed
 worker and sends to its bounded queue; one dispatch loop per worker starts handlers; closing stores a
 flag that every loop reads. Schedules interleave the loops, the handlers, arrivals and the close.
 */
module Pipeline {
  import opened Bytes
  import opened WorkerHash
  import opened Traffic

  datatype RecvPc =
    | RecvHead
    | Receiving
    | RecvChecking(item: Item)
    | Routing(item: Item)
    | Sending(item: Item, to: nat)
    | RecvStopped
    | LookupFailed

  datatype DispatchPc =
    | Head
    | Waiting
    | Checking(item: Item)
    | Cleared(item: Item)
    | Stopped

  /** What became of an item that passed the receive loop's checks. */
  datatype Fate =
    | Pending
    | Unroutable
    | Full(worker: nat, seen: nat)  // refused, with the counter it found
    | Admitted(worker: nat)
    | Abandoned(worker: nat)

  function Hand(pc: DispatchPc): seq<Item> {
    match pc
    case Checking(item) => [item]
    case Cleared(item) => [item]
    case _ => []
  }

  /** `late` counts handlers started after the close flag was stored. */
  datatype Worker = Worker(
    active: nat,
    queue: seq<Item>,
    pc: DispatchPc,
    started: seq<Item>,
    running: nat,
    discarded: seq<Item>,
    late: nat)

  datatype State = State(
    open: bool,
    arrived: seq<Item>,
    inbox: seq<Item>,
    receiver: RecvPc,
    received: seq<Item>,
    fates: seq<Fate>,
    workers: seq<Worker>)

  datatype Event =
    | Arrive(packet: Datagram, meta: PacketMeta)
    | Close
    | SendWake(from: PacketMeta)
    | RecvStep(runtimeActive: bool)
    | RecvError(fatal: bool)
    | AbortRecv
    | DispatchStep(w: nat)
    | AbortDispatch(w: nat)
    | FinishHandler(w: nat)

  function Init(cfg: Config): State {
    State(true, [], [], RecvHead, [], [], seq(cfg.workers, _ => Worker(0, [], Head, [], 0, [], 0)))
  }

  // ---------- one worker ----------

  function Release(cfg: Config, k: Worker, n: nat): Worker {
    if cfg.max.Some? && k.active >= n then k.(active := k.active - n) else k
  }

  /** Leaving the dispatch loop drops the item in hand and the queue, permits included. */
  function StopDispatch(cfg: Config, k: Worker): Worker {
    var lost := Hand(k.pc) + k.queue;
    Release(cfg, k.(pc := Stopped, queue := [], discarded := k.discarded + lost), |lost|)
  }

  function StepDispatch(cfg: Config, k: Worker, open: bool, receiverGone: bool): Worker {
    match k.pc
    case Head => if open then k.(pc := Waiting) else StopDispatch(cfg, k)
    case Waiting =>
      if k.queue != [] then k.(pc := Checking(k.queue[0]), queue := k.queue[1..])
      else if receiverGone then StopDispatch(cfg, k)
      else k
    case Checking(item) => if open then k.(pc := Cleared(item)) else StopDispatch(cfg, k)
    case Cleared(item) =>
      k.(pc := Head, started := k.started + [item], running := k.running + 1,
         late := k.late + if open then 0 else 1)
    case Stopped => k
  }

  predicate HasRoom(cfg: Config, k: Worker) {
    cfg.max.None? || k.active < cfg.max.value
  }

  function TakePermit(cfg: Config, k: Worker): Worker {
    if cfg.max.Some? then k.(active := k.active + 1) else k
  }

  // ---------- the receive loop ----------

  function WithFate(s: State, fate: Fate): State {
    if s.fates == [] then s else s.(fates := s.fates[|s.fates| - 1 := fate])
  }

  function RouteItem(cfg: Config, s: State, item: Item): State {
    match cfg.RouteOf(item)
    case None => WithFate(s, Unroutable).(receiver := RecvHead)
    case Some(w) =>
      if w >= |s.workers| then s.(receiver := LookupFailed)
      else if !HasRoom(cfg, s.workers[w]) then WithFate(s, Full(w, s.workers[w].active)).(receiver := RecvHead)
      else s.(receiver := Sending(item, w), workers := s.workers[w := TakePermit(cfg, s.workers[w])])
  }

  function AbandonSend(cfg: Config, s: State, w: nat): State
    requires w < |s.workers|
  {
    WithFate(s, Abandoned(w)).(receiver := RecvStopped, workers := s.workers[w := Release(cfg, s.workers[w], 1)])
  }

  function SendItem(cfg: Config, s: State, item: Item, w: nat): State
    requires w < |s.workers|
  {
    var k := s.workers[w];
    if k.pc.Stopped? then AbandonSend(cfg, s, w)
    else if |k.queue| < cfg.capacity
    then WithFate(s, Admitted(w)).(receiver := RecvHead, workers := s.workers[w := k.(queue := k.queue + [item])])
    else s
  }

  function StepReceiver(cfg: Config, s: State, runtimeActive: bool): State {
    match s.receiver
    case RecvHead => s.(receiver := if s.open && runtimeActive then Receiving else RecvStopped)
    case Receiving =>
      if s.inbox == [] then s else s.(receiver := RecvChecking(s.inbox[0]), inbox := s.inbox[1..])
    case RecvChecking(item) =>
      if s.open && runtimeActive
      then s.(receiver := Routing(item), received := s.received + [item], fates := s.fates + [Pending])
      else s.(receiver := RecvStopped)
    case Routing(item) => RouteItem(cfg, s, item)
    case Sending(item, w) => if w < |s.workers| then SendItem(cfg, s, item, w) else s
    case RecvStopped => s
    case LookupFailed => s
  }

  function Deliver(s: State, item: Item): State {
    s.(arrived := s.arrived + [item], inbox := s.inbox + [item])
  }

  /** Steps that do not apply change nothing. */
  function Step(cfg: Config, s: State, e: Event): State {
    match e
    case Arrive(packet, meta) => Deliver(s, Item(packet, meta, false))
    case Close => s.(open := false)
    case SendWake(from) => if s.open then s else Deliver(s, Item([0], from, true))
    case RecvStep(runtimeActive) => StepReceiver(cfg, s, runtimeActive)
    case RecvError(fatal) =>
      if s.receiver.Receiving? then s.(receiver := if s.open && !fatal then RecvHead else RecvStopped) else s
    case AbortRecv =>
      if s.receiver.Sending? && s.receiver.to < |s.workers| then AbandonSend(cfg, s, s.receiver.to)
      else if s.receiver.Receiving? then s.(receiver := RecvStopped)
      else s
    case DispatchStep(w) =>
      if w < |s.workers|
      then s.(workers := s.workers[w := StepDispatch(cfg, s.workers[w], s.open, s.receiver.RecvStopped?)])
      else s
    case AbortDispatch(w) =>
      if w < |s.workers| && s.workers[w].pc.Waiting?
      then s.(workers := s.workers[w := StopDispatch(cfg, s.workers[w])])
      else s
    case FinishHandler(w) =>
      if w < |s.workers| && s.workers[w].running > 0
      then s.(workers := s.workers[w := Release(cfg, s.workers[w].(running := s.workers[w].running - 1), 1)])
      else s
  }

  function Run(cfg: Config, s: State, schedule: seq<Event>): State
    decreases |schedule|
  {
    if schedule == [] then s else Run(cfg, Step(cfg, s, schedule[0]), schedule[1..])
  }

  // ---------- what every state satisfies ----------

  /** The items admitted to one worker, in the order they were received. */
  function AdmittedTo(received: seq<Item>, fates: seq<Fate>, w: nat): seq<Item>
    requires |fates| == |received|
  {
    if received == [] then []
    else
      var n := |received| - 1;
      AdmittedTo(received[..n], fates[..n], w) + if fates[n] == Admitted(w) then [received[n]] else []
  }

  predicate WorkerOk(cfg: Config, k: Worker, sending: nat, admitted: seq<Item>, open: bool) {
    && (cfg.max.Some? ==>
          k.active == |k.queue| + |Hand(k.pc)| + k.running + sending && k.active <= cfg.max.value)
    && |k.queue| <= cfg.capacity
    && admitted == k.started + Hand(k.pc) + k.queue + k.discarded
    && (if k.pc.Stopped? then k.queue == [] else k.discarded == [])
    && (if open then k.late == 0 else k.late + (if k.pc.Cleared? then 1 else 0) <= 1)
  }

  function SendingTo(pc: RecvPc, w: nat): nat {
    if pc.Sending? && pc.to == w then 1 else 0
  }

  predicate WorkersOk(cfg: Config, s: State)
    requires |s.fates| == |s.received|
  {
    forall w :: 0 <= w < |s.workers| ==>
                  WorkerOk(cfg, s.workers[w], SendingTo(s.receiver, w), AdmittedTo(s.received, s.fates, w), s.open)
  }

  /** A settled fate agrees with the route. */
  predicate FateOk(cfg: Config, item: Item, fate: Fate) {
    match fate
    case Pending => true
    case Unroutable => cfg.RouteOf(item) == None
    case Full(w, seen) => cfg.RouteOf(item) == Some(w) && cfg.max == Some(seen)
    case Admitted(w) => cfg.RouteOf(item) == Some(w)
    case Abandoned(w) => cfg.RouteOf(item) == Some(w)
  }

  predicate InFlight(pc: RecvPc) {
    pc.Routing? || pc.Sending?
  }

  predicate FatesOk(cfg: Config, s: State) {
    && |s.fates| == |s.received|
    && (forall i :: 0 <= i < |s.fates| ==> FateOk(cfg, s.received[i], s.fates[i]))
    && (forall i :: 0 <= i < |s.fates| - 1 ==> !s.fates[i].Pending? && !s.fates[i].Abandoned?)
    && (InFlight(s.receiver) ==> s.fates != [] && s.receiver.item == s.received[|s.received| - 1])
    && (s.fates != [] ==> (s.fates[|s.fates| - 1].Pending? <==> InFlight(s.receiver)))
    && (s.receiver.Sending? ==> cfg.RouteOf(s.receiver.item) == Some(s.receiver.to) && s.receiver.to < |s.workers|)
    && !s.receiver.LookupFailed?
    && (forall i :: 0 <= i < |s.fates| && s.fates[i].Abandoned? ==> s.receiver.RecvStopped?)
  }

  /** The wake datagram exists only after the flag was stored, and gets no further than the check. */
  predicate WakeOk(s: State) {
    && (forall i :: 0 <= i < |s.inbox| && s.inbox[i].wake ==> !s.open)
    && (s.receiver.RecvChecking? && s.receiver.item.wake ==> !s.open)
    && (forall i :: 0 <= i < |s.received| ==> !s.received[i].wake)
  }

  function Unchecked(pc: RecvPc): seq<Item> {
    if pc.RecvChecking? then [pc.item] else []
  }

  /** Until the receive loop stops, what it has taken and what is left are what arrived, in order. */
  predicate ArrivalsOk(s: State) {
    !s.receiver.RecvStopped? ==> s.received + Unchecked(s.receiver) + s.inbox == s.arrived
  }

  predicate Inv(cfg: Config, s: State) {
    |s.workers| == cfg.workers && FatesOk(cfg, s) && WorkersOk(cfg, s) && WakeOk(s) && ArrivalsOk(s)
  }

  // ---------- preservation ----------

  lemma StopKeepsWorkerOk(cfg: Config, k: Worker, sending: nat, admitted: seq<Item>, open: bool)
    requires WorkerOk(cfg, k, sending, admitted, open)
    ensures WorkerOk(cfg, StopDispatch(cfg, k), sending, admitted, open)
  {
    var lost := Hand(k.pc) + k.queue;
    assert k.started + Hand(k.pc) + k.queue + k.discarded == k.started + [] + [] + (k.discarded + lost);
  }

  lemma TakeKeepsWorkerOk(cfg: Config, k: Worker, sending: nat, admitted: seq<Item>, open: bool)
    requires WorkerOk(cfg, k, sending, admitted, open) && k.pc.Waiting? && k.queue != []
    ensures WorkerOk(cfg, k.(pc := Checking(k.queue[0]), queue := k.queue[1..]), sending, admitted, open)
  {
    assert k.started + [] + k.queue + k.discarded == k.started + [k.queue[0]] + k.queue[1..] + k.discarded;
  }

  lemma StartKeepsWorkerOk(cfg: Config, k: Worker, sending: nat, admitted: seq<Item>, open: bool)
    requires WorkerOk(cfg, k, sending, admitted, open) && k.pc.Cleared?
    ensures WorkerOk(cfg, StepDispatch(cfg, k, open, false), sending, admitted, open)
  {
    var item := k.pc.item;
    assert k.started + [item] + k.queue + k.discarded == (k.started + [item]) + [] + k.queue + k.discarded;
  }

  lemma DispatchKeepsWorkerOk(
      cfg: Config, k: Worker, sending: nat, admitted: seq<Item>, open: bool, receiverGone: bool)
    requires WorkerOk(cfg, k, sending, admitted, open)
    ensures WorkerOk(cfg, StepDispatch(cfg, k, open, receiverGone), sending, admitted, open)
  {
    if k.pc.Cleared? {
      StartKeepsWorkerOk(cfg, k, sending, admitted, open);
    } else if k.pc.Waiting? && k.queue != [] {
      TakeKeepsWorkerOk(cfg, k, sending, admitted, open);
    } else {
      StopKeepsWorkerOk(cfg, k, sending, admitted, open);
    }
  }

  lemma WorkerMoveKeepsInv(cfg: Config, s: State, w: nat, k: Worker)
    requires Inv(cfg, s) && w < |s.workers|
    requires WorkerOk(cfg, k, SendingTo(s.receiver, w), AdmittedTo(s.received, s.fates, w), s.open)
    ensures Inv(cfg, s.(workers := s.workers[w := k]))
  {
  }

  lemma DispatchStepKeepsInv(cfg: Config, s: State, w: nat)
    requires Inv(cfg, s) && w < |s.workers|
    ensures Inv(cfg, Step(cfg, s, DispatchStep(w)))
  {
    var k, sending, admitted := s.workers[w], SendingTo(s.receiver, w), AdmittedTo(s.received, s.fates, w);
    assert WorkerOk(cfg, k, sending, admitted, s.open);
    DispatchKeepsWorkerOk(cfg, k, sending, admitted, s.open, s.receiver.RecvStopped?);
    WorkerMoveKeepsInv(cfg, s, w, StepDispatch(cfg, k, s.open, s.receiver.RecvStopped?));
  }

  lemma AbortDispatchKeepsInv(cfg: Config, s: State, w: nat)
    requires Inv(cfg, s) && w < |s.workers|
    ensures Inv(cfg, Step(cfg, s, AbortDispatch(w)))
  {
    var k, sending, admitted := s.workers[w], SendingTo(s.receiver, w), AdmittedTo(s.received, s.fates, w);
    assert WorkerOk(cfg, k, sending, admitted, s.open);
    StopKeepsWorkerOk(cfg, k, sending, admitted, s.open);
    WorkerMoveKeepsInv(cfg, s, w, StopDispatch(cfg, k));
  }

  lemma FinishKeepsInv(cfg: Config, s: State, w: nat)
    requires Inv(cfg, s) && w < |s.workers|
    ensures Inv(cfg, Step(cfg, s, FinishHandler(w)))
  {
    var k := s.workers[w];
    assert WorkerOk(cfg, k, SendingTo(s.receiver, w), AdmittedTo(s.received, s.fates, w), s.open);
    if k.running > 0 {
      WorkerMoveKeepsInv(cfg, s, w, Release(cfg, k.(running := k.running - 1), 1));
    }
  }

  lemma DispatchEventKeepsInv(cfg: Config, s: State, e: Event)
    requires Inv(cfg, s) && (e.DispatchStep? || e.AbortDispatch? || e.FinishHandler?)
    ensures Inv(cfg, Step(cfg, s, e))
  {
    if e.w < |s.workers| {
      match e
      case DispatchStep(w) => DispatchStepKeepsInv(cfg, s, w);
      case AbortDispatch(w) => AbortDispatchKeepsInv(cfg, s, w);
      case FinishHandler(w) => FinishKeepsInv(cfg, s, w);
    }
  }

  /** Settling the pending fate extends one worker's admitted items by at most the item it was about. */
  lemma SettleFate(received: seq<Item>, fates: seq<Fate>, fate: Fate, w: nat)
    requires |fates| == |received| > 0 && fates[|fates| - 1].Pending?
    ensures AdmittedTo(received, fates[|fates| - 1 := fate], w)
         == AdmittedTo(received, fates, w) + if fate == Admitted(w) then [received[|received| - 1]] else []
  {
    var n := |received| - 1;
    assert fates[n := fate][..n] == fates[..n];
    assert AdmittedTo(received[..n], fates[..n], w) + [] == AdmittedTo(received[..n], fates[..n], w);
  }

  lemma PendingAdmitsNothing(received: seq<Item>, fates: seq<Fate>, item: Item, w: nat)
    requires |fates| == |received|
    ensures AdmittedTo(received + [item], fates + [Pending], w) == AdmittedTo(received, fates, w)
  {
    assert (received + [item])[..|received|] == received && (fates + [Pending])[..|fates|] == fates;
  }

  lemma SettleKeepsFates(cfg: Config, s: State, s': State, fate: Fate)
    requires FatesOk(cfg, s) && InFlight(s.receiver)
    requires s'.received == s.received && s'.fates == s.fates[|s.fates| - 1 := fate]
    requires FateOk(cfg, s.receiver.item, fate) && !fate.Pending?
    requires s'.receiver == if fate.Abandoned? then RecvStopped else RecvHead
    ensures FatesOk(cfg, s')
  {
  }

  /** A worker that is right for the settled fate; the receive loop no longer holds a permit of its. */
  lemma SettleKeepsWorker(cfg: Config, s: State, fate: Fate, w: nat, k: Worker)
    requires |s.fates| == |s.received| > 0 && s.fates[|s.fates| - 1].Pending?
    requires WorkerOk(
                 cfg, k, 0,
                 AdmittedTo(s.received, s.fates, w)
                 + if fate == Admitted(w) then [s.received[|s.received| - 1]] else [],
                 s.open)
    ensures WorkerOk(cfg, k, 0, AdmittedTo(s.received, s.fates[|s.fates| - 1 := fate], w), s.open)
  {
    SettleFate(s.received, s.fates, fate, w);
  }

  lemma TakePermitKeepsInv(cfg: Config, s: State, w: nat)
    requires Inv(cfg, s) && s.receiver.Routing? && cfg.RouteOf(s.receiver.item) == Some(w) && w < |s.workers|
    requires HasRoom(cfg, s.workers[w])
    ensures Inv(cfg, RouteItem(cfg, s, s.receiver.item))
  {
    var s' := RouteItem(cfg, s, s.receiver.item);
    forall v | 0 <= v < |s.workers|
      ensures WorkerOk(cfg, s'.workers[v], SendingTo(s'.receiver, v), AdmittedTo(s.received, s.fates, v), s.open)
    {
      assert WorkerOk(cfg, s.workers[v], 0, AdmittedTo(s.received, s.fates, v), s.open);
    }
  }

  lemma TurnAwayKeepsInv(cfg: Config, s: State, fate: Fate)
    requires Inv(cfg, s) && s.receiver.Routing?
    requires FateOk(cfg, s.receiver.item, fate) && (fate.Unroutable? || fate.Full?)
    ensures Inv(cfg, WithFate(s, fate).(receiver := RecvHead))
  {
    var s' := WithFate(s, fate).(receiver := RecvHead);
    SettleKeepsFates(cfg, s, s', fate);
    forall w | 0 <= w < |s.workers|
      ensures WorkerOk(cfg, s'.workers[w], 0, AdmittedTo(s'.received, s'.fates, w), s'.open)
    {
      var admitted := AdmittedTo(s.received, s.fates, w);
      assert WorkerOk(cfg, s.workers[w], 0, admitted, s.open) && admitted + [] == admitted;
      SettleKeepsWorker(cfg, s, fate, w, s.workers[w]);
    }
  }

  lemma RouteKeepsInv(cfg: Config, s: State)
    requires cfg.Valid() && Inv(cfg, s) && s.receiver.Routing?
    ensures Inv(cfg, RouteItem(cfg, s, s.receiver.item))
  {
    var item := s.receiver.item;
    assert cfg.RouteOf(item) == cfg.route(item.packet, item.meta);
    match cfg.RouteOf(item)
    case None => TurnAwayKeepsInv(cfg, s, Unroutable);
    case Some(w) =>
      if HasRoom(cfg, s.workers[w]) {
        TakePermitKeepsInv(cfg, s, w);
      } else {
        assert WorkerOk(cfg, s.workers[w], 0, AdmittedTo(s.received, s.fates, w), s.open);
        TurnAwayKeepsInv(cfg, s, Full(w, s.workers[w].active));
      }
  }

  lemma AbandonKeepsInv(cfg: Config, s: State)
    requires Inv(cfg, s) && s.receiver.Sending?
    ensures Inv(cfg, AbandonSend(cfg, s, s.receiver.to))
  {
    var to := s.receiver.to;
    var s' := AbandonSend(cfg, s, to);
    SettleKeepsFates(cfg, s, s', Abandoned(to));
    forall w | 0 <= w < |s.workers|
      ensures WorkerOk(cfg, s'.workers[w], 0, AdmittedTo(s'.received, s'.fates, w), s'.open)
    {
      var admitted := AdmittedTo(s.received, s.fates, w);
      assert WorkerOk(cfg, s.workers[w], SendingTo(s.receiver, w), admitted, s.open) && admitted + [] == admitted;
      SettleKeepsWorker(cfg, s, Abandoned(to), w, s'.workers[w]);
    }
  }

  lemma EnqueueKeepsWorkerOk(cfg: Config, k: Worker, admitted: seq<Item>, item: Item, open: bool)
    requires WorkerOk(cfg, k, 1, admitted, open) && !k.pc.Stopped? && |k.queue| < cfg.capacity
    ensures WorkerOk(cfg, k.(queue := k.queue + [item]), 0, admitted + [item], open)
  {
    assert k.started + Hand(k.pc) + k.queue + [] + [item] == k.started + Hand(k.pc) + (k.queue + [item]) + [];
  }

  lemma EnqueueKeepsInv(cfg: Config, s: State)
    requires Inv(cfg, s) && s.receiver.Sending? && !s.workers[s.receiver.to].pc.Stopped?
    requires |s.workers[s.receiver.to].queue| < cfg.capacity
    ensures Inv(cfg, SendItem(cfg, s, s.receiver.item, s.receiver.to))
  {
    var item, to := s.receiver.item, s.receiver.to;
    var s' := SendItem(cfg, s, item, to);
    SettleKeepsFates(cfg, s, s', Admitted(to));
    forall w | 0 <= w < |s.workers|
      ensures WorkerOk(cfg, s'.workers[w], 0, AdmittedTo(s'.received, s'.fates, w), s'.open)
    {
      var admitted := AdmittedTo(s.received, s.fates, w);
      assert WorkerOk(cfg, s.workers[w], SendingTo(s.receiver, w), admitted, s.open) && admitted + [] == admitted;
      if w == to {
        EnqueueKeepsWorkerOk(cfg, s.workers[w], admitted, item, s.open);
      }
      SettleKeepsWorker(cfg, s, Admitted(to), w, s'.workers[w]);
    }
  }

  lemma SendKeepsInv(cfg: Config, s: State)
    requires Inv(cfg, s) && s.receiver.Sending?
    ensures Inv(cfg, SendItem(cfg, s, s.receiver.item, s.receiver.to))
  {
    var k := s.workers[s.receiver.to];
    if k.pc.Stopped? {
      AbandonKeepsInv(cfg, s);
    } else if |k.queue| < cfg.capacity {
      EnqueueKeepsInv(cfg, s);
    }
  }

  lemma AcceptKeepsInv(cfg: Config, s: State)
    requires Inv(cfg, s) && s.receiver.RecvChecking? && s.open
    ensures Inv(cfg, StepReceiver(cfg, s, true))
  {
    var s' := StepReceiver(cfg, s, true);
    AcceptKeepsFates(cfg, s);
    forall w | 0 <= w < |s.workers|
      ensures WorkerOk(cfg, s'.workers[w], SendingTo(s'.receiver, w), AdmittedTo(s'.received, s'.fates, w), s'.open)
    {
      PendingAdmitsNothing(s.received, s.fates, s.receiver.item, w);
    }
    assert s'.received[|s.received|] == s.receiver.item;
  }

  lemma AcceptKeepsFates(cfg: Config, s: State)
    requires FatesOk(cfg, s) && s.receiver.RecvChecking? && s.open
    ensures FatesOk(cfg, StepReceiver(cfg, s, true))
  {
  }

  /** Moves that only change the flag, the inbox or an idle receiver. */
  lemma IdleMoveKeepsInv(cfg: Config, s: State, s': State)
    requires Inv(cfg, s)
    requires s' == s.(open := s'.open, arrived := s'.arrived, inbox := s'.inbox, receiver := s'.receiver)
    requires s'.open ==> s.open
    requires s'.receiver == s.receiver ||
             !(InFlight(s.receiver) || InFlight(s'.receiver) || s'.receiver.LookupFailed? || s.receiver.RecvStopped?)
    requires WakeOk(s') && ArrivalsOk(s')
    ensures Inv(cfg, s')
  {
    forall w | 0 <= w < |s.workers|
      ensures WorkerOk(cfg, s'.workers[w], SendingTo(s'.receiver, w), AdmittedTo(s'.received, s'.fates, w), s'.open)
    {
      assert WorkerOk(
          cfg, s.workers[w], SendingTo(s.receiver, w), AdmittedTo(s.received, s.fates, w), s.open);
    }
  }

  lemma IdleStepKeepsInv(cfg: Config, s: State, runtimeActive: bool)
    requires Inv(cfg, s) && !InFlight(s.receiver)
    requires s.receiver.RecvChecking? ==> !(s.open && runtimeActive)
    ensures Inv(cfg, StepReceiver(cfg, s, runtimeActive))
  {
    IdleMoveKeepsInv(cfg, s, StepReceiver(cfg, s, runtimeActive));
  }

  lemma ReceiverStepKeepsInv(cfg: Config, s: State, runtimeActive: bool)
    requires cfg.Valid() && Inv(cfg, s)
    ensures Inv(cfg, StepReceiver(cfg, s, runtimeActive))
  {
    if s.receiver.Routing? {
      RouteKeepsInv(cfg, s);
    } else if s.receiver.Sending? {
      SendKeepsInv(cfg, s);
    } else if s.receiver.RecvChecking? && s.open && runtimeActive {
      AcceptKeepsInv(cfg, s);
    } else {
      IdleStepKeepsInv(cfg, s, runtimeActive);
    }
  }

  lemma DeliverKeepsInv(cfg: Config, s: State, item: Item)
    requires Inv(cfg, s) && (item.wake ==> !s.open)
    ensures Inv(cfg, Deliver(s, item))
  {
    var before := s.received + Unchecked(s.receiver);
    assert before + (s.inbox + [item]) == before + s.inbox + [item];
    IdleMoveKeepsInv(cfg, s, Deliver(s, item));
  }

  lemma StepKeepsInv(cfg: Config, s: State, e: Event)
    requires cfg.Valid() && Inv(cfg, s)
    ensures Inv(cfg, Step(cfg, s, e))
  {
    match e
    case Arrive(packet, meta) => DeliverKeepsInv(cfg, s, Item(packet, meta, false));
    case SendWake(from) =>
      if !s.open {
        DeliverKeepsInv(cfg, s, Item([0], from, true));
      }
    case RecvStep(runtimeActive) => ReceiverStepKeepsInv(cfg, s, runtimeActive);
    case AbortRecv =>
      if s.receiver.Sending? {
        AbandonKeepsInv(cfg, s);
      } else {
        IdleMoveKeepsInv(cfg, s, Step(cfg, s, e));
      }
    case Close => IdleMoveKeepsInv(cfg, s, Step(cfg, s, e));
    case RecvError(_) => IdleMoveKeepsInv(cfg, s, Step(cfg, s, e));
    case _ => DispatchEventKeepsInv(cfg, s, e);
  }

  lemma {:induction false} RunKeepsInv(cfg: Config, s: State, schedule: seq<Event>)
    requires cfg.Valid() && Inv(cfg, s)
    ensures Inv(cfg, Run(cfg, s, schedule))
    decreases |schedule|
  {
    if schedule != [] {
      StepKeepsInv(cfg, s, schedule[0]);
      RunKeepsInv(cfg, Step(cfg, s, schedule[0]), schedule[1..]);
    }
  }

  lemma ReachableInv(cfg: Config, schedule: seq<Event>)
    requires cfg.Valid()
    ensures Inv(cfg, Run(cfg, Init(cfg), schedule))
  {
    RunKeepsInv(cfg, Init(cfg), schedule);
  }

  // ---------- what holds in every run ----------

  /** A limited worker's counter is exactly what is queued, in a loop's hands or running. */
  lemma PermitsAccountedFor(cfg: Config, schedule: seq<Event>, w: nat)
    requires cfg.Valid() && cfg.max.Some? && w < cfg.workers
    ensures var s := Run(cfg, Init(cfg), schedule);
            && |s.workers| == cfg.workers
            && var k := s.workers[w];
            && k.active == |k.queue| + |Hand(k.pc)| + k.running + SendingTo(s.receiver, w)
            && |k.queue| + k.running <= k.active <= cfg.max.value
  {
    ReachableInv(cfg, schedule);
    var s := Run(cfg, Init(cfg), schedule);
    assert WorkerOk(cfg, s.workers[w], SendingTo(s.receiver, w), AdmittedTo(s.received, s.fates, w), s.open);
  }

  /** When the limit fits the queue, a send that follows a permit never waits for room. */
  lemma SendNeverWaits(cfg: Config, schedule: seq<Event>, runtimeActive: bool)
    requires cfg.Valid() && cfg.max.Some? && cfg.max.value <= cfg.capacity
    ensures var s := Run(cfg, Init(cfg), schedule);
            s.receiver.Sending? ==>
              && s.receiver.to < |s.workers|
              && |s.workers[s.receiver.to].queue| < cfg.capacity
              && !Step(cfg, s, RecvStep(runtimeActive)).receiver.Sending?
  {
    ReachableInv(cfg, schedule);
    var s := Run(cfg, Init(cfg), schedule);
    if s.receiver.Sending? {
      var w := s.receiver.to;
      assert WorkerOk(cfg, s.workers[w], 1, AdmittedTo(s.received, s.fates, w), s.open);
    }
  }

  // ---------- the queue size is the threshold ----------

  /** The receive loop holds a permit and finds no room in the queue. */
  predicate SendWaits(cfg: Config, s: State) {
    s.receiver.Sending? && Step(cfg, s, RecvStep(true)).receiver.Sending?
  }

  predicate WaitsAfter(cfg: Config, schedule: seq<Event>) {
    SendWaits(cfg, Run(cfg, Init(cfg), schedule))
  }

  function Copies<T>(n: nat, x: T): (r: seq<T>)
    ensures |r| == n
  {
    seq(n, _ => x)
  }

  /** The pipeline after `n` equal items for worker `w`, none of them dispatched. */
  function Loaded(cfg: Config, item: Item, w: nat, n: nat): State
    requires w < cfg.workers
  {
    State(true, Copies(n, item), [], RecvHead, Copies(n, item), Copies(n, Admitted(w)),
          Init(cfg).workers[w := Backlog(cfg, item, n, n)])
  }

  function Backlog(cfg: Config, item: Item, n: nat, permits: nat): Worker {
    Worker(if cfg.max.Some? then permits else 0, Copies(n, item), Head, [], 0, [], 0)
  }

  /** One more item has its permit and is about to be sent. */
  function Offered(cfg: Config, item: Item, w: nat, n: nat): State
    requires w < cfg.workers
  {
    State(true, Copies(n + 1, item), [], Sending(item, w), Copies(n + 1, item), Copies(n, Admitted(w)) + [Pending],
          Init(cfg).workers[w := Backlog(cfg, item, n, n + 1)])
  }

  function Offer(item: Item): seq<Event> {
    [Arrive(item.packet, item.meta), RecvStep(true), RecvStep(true), RecvStep(true), RecvStep(true)]
  }

  lemma {:induction false} RunAppend(cfg: Config, s: State, a: seq<Event>, b: seq<Event>)
    ensures Run(cfg, s, a + b) == Run(cfg, Run(cfg, s, a), b)
    decreases |a|
  {
    if a == [] {
      assert a + b == b;
    } else {
      assert (a + b)[0] == a[0] && (a + b)[1..] == a[1..] + b;
      RunAppend(cfg, Step(cfg, s, a[0]), a[1..], b);
    }
  }

  lemma RunOne(cfg: Config, s: State, schedule: seq<Event>, next: State)
    requires schedule != [] && next == Step(cfg, s, schedule[0])
    ensures Run(cfg, s, schedule) == Run(cfg, next, schedule[1..])
  {
  }

  lemma OfferReaches(cfg: Config, item: Item, w: nat, n: nat)
    requires w < cfg.workers && cfg.RouteOf(item) == Some(w) && !item.wake
    requires cfg.max.Some? ==> n < cfg.max.value
    ensures Run(cfg, Loaded(cfg, item, w, n), Offer(item)) == Offered(cfg, item, w, n)
  {
    var e := Offer(item);
    var s0 := Loaded(cfg, item, w, n);
    var s1 := s0.(arrived := s0.arrived + [item], inbox := [item]);
    var s2 := s1.(receiver := Receiving);
    var s3 := s1.(receiver := RecvChecking(item), inbox := []);
    var s4 := s3.(receiver := Routing(item), received := s0.received + [item], fates := s0.fates + [Pending]);
    var s5 := Offered(cfg, item, w, n);
    assert s0.inbox + [item] == [item] && [item][1..] == [];
    assert s0.workers[w := Backlog(cfg, item, n, n + 1)] == s5.workers;
    assert Copies(n, item) + [item] == Copies(n + 1, item);
    RunOne(cfg, s0, e, s1);
    RunOne(cfg, s1, e[1..], s2);
    RunOne(cfg, s2, e[2..], s3);
    RunOne(cfg, s3, e[3..], s4);
    RunOne(cfg, s4, e[4..], s5);
  }

  lemma SendReaches(cfg: Config, item: Item, w: nat, n: nat)
    requires w < cfg.workers && n < cfg.capacity
    ensures Step(cfg, Offered(cfg, item, w, n), RecvStep(true)) == Loaded(cfg, item, w, n + 1)
  {
    var s := Offered(cfg, item, w, n);
    assert Copies(n, item) + [item] == Copies(n + 1, item);
    assert s.fates[n := Admitted(w)] == Copies(n + 1, Admitted(w));
    assert s.workers[w := Backlog(cfg, item, n + 1, n + 1)] == Init(cfg).workers[w := Backlog(cfg, item, n + 1, n + 1)];
  }

  lemma OneMoreLoads(cfg: Config, item: Item, w: nat, n: nat)
    requires w < cfg.workers && cfg.RouteOf(item) == Some(w) && !item.wake && n < cfg.capacity
    requires cfg.max.Some? ==> n < cfg.max.value
    ensures Run(cfg, Loaded(cfg, item, w, n), Offer(item) + [RecvStep(true)]) == Loaded(cfg, item, w, n + 1)
  {
    RunAppend(cfg, Loaded(cfg, item, w, n), Offer(item), [RecvStep(true)]);
    OfferReaches(cfg, item, w, n);
    SendReaches(cfg, item, w, n);
    RunOne(cfg, Offered(cfg, item, w, n), [RecvStep(true)], Loaded(cfg, item, w, n + 1));
  }

  function Flood(item: Item, n: nat): seq<Event> {
    if n == 0 then [] else Flood(item, n - 1) + (Offer(item) + [RecvStep(true)])
  }

  lemma {:induction false} FloodLoads(cfg: Config, item: Item, w: nat, n: nat)
    requires w < cfg.workers && cfg.RouteOf(item) == Some(w) && !item.wake && n <= cfg.capacity
    requires cfg.max.Some? ==> n <= cfg.max.value
    ensures Run(cfg, Init(cfg), Flood(item, n)) == Loaded(cfg, item, w, n)
  {
    if n == 0 {
      assert Init(cfg).workers[w := Backlog(cfg, item, 0, 0)] == Init(cfg).workers;
    } else {
      FloodLoads(cfg, item, w, n - 1);
      RunAppend(cfg, Init(cfg), Flood(item, n - 1), Offer(item) + [RecvStep(true)]);
      OneMoreLoads(cfg, item, w, n - 1);
    }
  }

  lemma FloodedSendWaits(cfg: Config, item: Item, w: nat)
    requires w < cfg.workers && cfg.RouteOf(item) == Some(w) && !item.wake
    requires cfg.max.Some? ==> cfg.capacity < cfg.max.value
    ensures WaitsAfter(cfg, Flood(item, cfg.capacity) + Offer(item))
  {
    FloodLoads(cfg, item, w, cfg.capacity);
    RunAppend(cfg, Init(cfg), Flood(item, cfg.capacity), Offer(item));
    OfferReaches(cfg, item, w, cfg.capacity);
  }

  /** If anything at all can be routed: no run makes a send wait exactly when there is a limit and it fits the queue. */
  lemma SendNeverWaitsIff(cfg: Config, packet: Datagram, meta: PacketMeta)
    requires cfg.Valid() && cfg.route(packet, meta).Some?
    ensures (forall schedule :: !WaitsAfter(cfg, schedule)) <==> cfg.max.Some? && cfg.max.value <= cfg.capacity
  {
    if cfg.max.Some? && cfg.max.value <= cfg.capacity {
      forall schedule
        ensures !WaitsAfter(cfg, schedule)
      {
        SendNeverWaits(cfg, schedule, true);
      }
    } else {
      FloodedSendWaits(cfg, Item(packet, meta, false), cfg.route(packet, meta).value);
    }
  }

  // ---------- a send that waits gets through ----------

  /** Steps worker `k`'s loop needs to take an item off a full queue, or to stop. */
  function StepsToRoom(k: Worker, open: bool): nat {
    match k.pc
    case Waiting => 1
    case Head => if open then 2 else 1
    case Cleared(_) => if open then 3 else 2
    case Checking(_) => if open then 4 else 1
    case Stopped => 0
  }

  function DispatchSteps(w: nat, n: nat): (e: seq<Event>)
    ensures |e| == n
  {
    if n == 0 then [] else [DispatchStep(w)] + DispatchSteps(w, n - 1)
  }

  lemma DispatchMoves(cfg: Config, s: State, w: nat, n: nat)
    requires n > 0
    ensures Run(cfg, s, DispatchSteps(w, n)) == Run(cfg, Step(cfg, s, DispatchStep(w)), DispatchSteps(w, n - 1))
  {
    assert DispatchSteps(w, n)[1..] == DispatchSteps(w, n - 1);
  }

  lemma {:induction false} DispatchMakesRoom(cfg: Config, s: State)
    requires s.receiver.Sending? && s.receiver.to < |s.workers|
    requires var k := s.workers[s.receiver.to]; k.pc.Stopped? || 0 < |k.queue| <= cfg.capacity
    ensures var n := StepsToRoom(s.workers[s.receiver.to], s.open);
            var s' := Run(cfg, s, DispatchSteps(s.receiver.to, n));
            s'.receiver == s.receiver && !SendWaits(cfg, s')
    decreases StepsToRoom(s.workers[s.receiver.to], s.open)
  {
    var w := s.receiver.to;
    var n := StepsToRoom(s.workers[w], s.open);
    if n > 0 {
      DispatchMoves(cfg, s, w, n);
      var next := Step(cfg, s, DispatchStep(w));
      if n == 1 {
        assert DispatchSteps(w, 0) == [];
      } else {
        assert StepsToRoom(next.workers[w], next.open) == n - 1;
        DispatchMakesRoom(cfg, next);
      }
    }
  }

  /**
   In every run, open or closed, a send that waits is let through, or told that the worker is gone, after
   at most four steps of that worker's dispatch loop.
   */
  lemma WaitingSendGetsThrough(cfg: Config, schedule: seq<Event>)
    requires cfg.Valid() && cfg.capacity > 0 && WaitsAfter(cfg, schedule)
    ensures var s := Run(cfg, Init(cfg), schedule);
            && s.receiver.to < |s.workers|
            && var n := StepsToRoom(s.workers[s.receiver.to], s.open);
            && n <= 4
            && var s' := Run(cfg, s, DispatchSteps(s.receiver.to, n));
            && s'.receiver == s.receiver
            && !Step(cfg, s', RecvStep(true)).receiver.Sending?
  {
    ReachableInv(cfg, schedule);
    var s := Run(cfg, Init(cfg), schedule);
    var w := s.receiver.to;
    assert WorkerOk(cfg, s.workers[w], 1, AdmittedTo(s.received, s.fates, w), s.open);
    DispatchMakesRoom(cfg, s);
  }

  /**
   Every received item but the one in flight is exactly one of unroutable, refused with its worker's
   counter at the limit, or admitted to the single worker it routes to; only a stopped receive loop
   abandons one. The limit and queue of a routed worker are always found.
   */
  lemma ExactPartition(cfg: Config, schedule: seq<Event>, i: nat)
    requires cfg.Valid()
    ensures var s := Run(cfg, Init(cfg), schedule);
            && |s.fates| == |s.received|
            && !s.receiver.LookupFailed?
            && (i < |s.fates| - (if InFlight(s.receiver) then 1 else 0) ==>
                  match cfg.RouteOf(s.received[i])
                  case None => s.fates[i] == Unroutable
                  case Some(w) =>
                    && w < cfg.workers
                    && (|| (cfg.max.Some? && s.fates[i] == Full(w, cfg.max.value))
                        || s.fates[i] == Admitted(w)
                        || (s.fates[i] == Abandoned(w) && s.receiver.RecvStopped?)))
  {
    ReachableInv(cfg, schedule);
    var s := Run(cfg, Init(cfg), schedule);
    if i < |s.fates| - (if InFlight(s.receiver) then 1 else 0) {
      assert FateOk(cfg, s.received[i], s.fates[i]) && !s.fates[i].Pending?;
      var item := s.received[i];
      assert cfg.route(item.packet, item.meta) == cfg.RouteOf(item);
    }
  }

  /** Handlers start in the order their items were admitted, and nothing admitted disappears. */
  lemma WorkerIsFifo(cfg: Config, schedule: seq<Event>, w: nat)
    requires cfg.Valid() && w < cfg.workers
    ensures var s := Run(cfg, Init(cfg), schedule);
            && |s.workers| == cfg.workers && |s.fates| == |s.received|
            && var k := s.workers[w];
            && AdmittedTo(s.received, s.fates, w) == k.started + Hand(k.pc) + k.queue + k.discarded
            && (!k.pc.Stopped? ==> k.discarded == [])
            && |k.queue| <= cfg.capacity
  {
    ReachableInv(cfg, schedule);
    var s := Run(cfg, Init(cfg), schedule);
    assert WorkerOk(cfg, s.workers[w], SendingTo(s.receiver, w), AdmittedTo(s.received, s.fates, w), s.open);
  }

  /** After the flag is stored a dispatch loop starts at most the one handler it had already cleared. */
  lemma CloseStartsAtMostOne(cfg: Config, schedule: seq<Event>, w: nat)
    requires cfg.Valid() && w < cfg.workers
    ensures var s := Run(cfg, Init(cfg), schedule);
            |s.workers| == cfg.workers && s.workers[w].late <= if s.open then 0 else 1
  {
    ReachableInv(cfg, schedule);
    var s := Run(cfg, Init(cfg), schedule);
    assert WorkerOk(cfg, s.workers[w], SendingTo(s.receiver, w), AdmittedTo(s.received, s.fates, w), s.open);
  }

  /** The wake datagram is never routed, refused, queued or handed to a handler. */
  lemma WakeIsNeverServed(cfg: Config, schedule: seq<Event>, w: nat, j: nat)
    requires cfg.Valid() && w < cfg.workers
    ensures var s := Run(cfg, Init(cfg), schedule);
            && (forall i :: 0 <= i < |s.received| ==> !s.received[i].wake)
            && |s.workers| == cfg.workers
            && (j < |s.workers[w].started| ==> !s.workers[w].started[j].wake)
  {
    ReachableInv(cfg, schedule);
    WorkerIsFifo(cfg, schedule, w);
    var s := Run(cfg, Init(cfg), schedule);
    if j < |s.workers[w].started| {
      AdmittedWasReceived(s.received, s.fates, w, j);
    }
  }

  lemma {:induction false} AdmittedWasReceived(received: seq<Item>, fates: seq<Fate>, w: nat, j: nat)
    requires |fates| == |received| && j < |AdmittedTo(received, fates, w)|
    ensures exists i :: 0 <= i < |received| && fates[i] == Admitted(w)
                        && received[i] == AdmittedTo(received, fates, w)[j]
  {
    var n := |received| - 1;
    var before := AdmittedTo(received[..n], fates[..n], w);
    if j < |before| {
      AdmittedWasReceived(received[..n], fates[..n], w, j);
      var i :| 0 <= i < n && fates[..n][i] == Admitted(w) && received[..n][i] == before[j];
      assert fates[i] == Admitted(w) && received[i] == AdmittedTo(received, fates, w)[j];
    } else {
      assert fates[n] == Admitted(w);
    }
  }

  /** When all loops have stopped and all handlers are done, every permit is back. */
  lemma StoppedPipelineReturnsPermits(cfg: Config, schedule: seq<Event>, w: nat)
    requires cfg.Valid() && cfg.max.Some? && w < cfg.workers
    ensures var s := Run(cfg, Init(cfg), schedule);
            && |s.workers| == cfg.workers
            && (s.receiver.RecvStopped? && s.workers[w].pc.Stopped? && s.workers[w].running == 0 ==>
                  s.workers[w].active == 0)
  {
    ReachableInv(cfg, schedule);
    var s := Run(cfg, Init(cfg), schedule);
    assert WorkerOk(cfg, s.workers[w], SendingTo(s.receiver, w), AdmittedTo(s.received, s.fates, w), s.open);
  }

  /** A worker no item routes to never starts or queues anything. */
  lemma UnroutedWorkerStaysIdle(cfg: Config, schedule: seq<Event>, w: nat)
    requires cfg.Valid() && w < cfg.workers
    requires forall p, m :: cfg.route(p, m) != Some(w)
    ensures var s := Run(cfg, Init(cfg), schedule);
            && |s.workers| == cfg.workers
            && s.workers[w].started == [] && s.workers[w].queue == [] && Hand(s.workers[w].pc) == []
  {
    ReachableInv(cfg, schedule);
    WorkerIsFifo(cfg, schedule, w);
    var s := Run(cfg, Init(cfg), schedule);
    forall i | 0 <= i < |s.fates|
      ensures s.fates[i] != Admitted(w)
    {
      var item := s.received[i];
      assert FateOk(cfg, item, s.fates[i]) && cfg.RouteOf(item) == cfg.route(item.packet, item.meta);
    }
    NothingAdmitted(s.received, s.fates, w);
  }

  lemma {:induction false} NothingAdmitted(received: seq<Item>, fates: seq<Fate>, w: nat)
    requires |fates| == |received| && forall i :: 0 <= i < |fates| ==> fates[i] != Admitted(w)
    ensures AdmittedTo(received, fates, w) == []
  {
    if received != [] {
      NothingAdmitted(received[..|received| - 1], fates[..|received| - 1], w);
    }
  }

  /** With two or more workers the simulated TCP pipeline never gives worker 0 a connection to serve. */
  lemma TcpWorkerZeroServesNothing(workers: nat, max: Option<nat>, schedule: seq<Event>)
    requires workers >= 2
    ensures var cfg := TcpConfig(workers, max);
            var s := Run(cfg, Init(cfg), schedule);
            |s.workers| == workers && s.workers[0].started == [] && s.workers[0].queue == []
  {
    RoutingsAreValid(workers, max);
    UnroutedWorkerStaysIdle(TcpConfig(workers, max), schedule, 0);
  }

  // ---------- without a limit ----------

  lemma {:induction false} UnlimitedAdmitsAllRouted(cfg: Config, received: seq<Item>, fates: seq<Fate>, w: nat)
    requires |fates| == |received|
    requires forall i :: 0 <= i < |fates| ==>
                           && FateOk(cfg, received[i], fates[i])
                           && (fates[i].Unroutable? || fates[i].Admitted?)
    ensures AdmittedTo(received, fates, w) == RoutedTo(cfg, received, w)
  {
    if received != [] {
      var n := |received| - 1;
      UnlimitedAdmitsAllRouted(cfg, received[..n], fates[..n], w);
      assert FateOk(cfg, received[n], fates[n]);
    }
  }

  lemma UnlimitedAdmitsPrefix(cfg: Config, s: State, w: nat)
    requires cfg.max.None? && FatesOk(cfg, s)
    ensures AdmittedTo(s.received, s.fates, w) <= RoutedTo(cfg, s.received, w)
  {
    if s.received != [] {
      var n := |s.received| - 1;
      forall i | 0 <= i < n
        ensures FateOk(cfg, s.received[i], s.fates[i]) && (s.fates[i].Unroutable? || s.fates[i].Admitted?)
      {
        assert FateOk(cfg, s.received[i], s.fates[i]);
      }
      UnlimitedAdmitsAllRouted(cfg, s.received[..n], s.fates[..n], w);
      assert FateOk(cfg, s.received[n], s.fates[n]);
    }
  }

  lemma StepKeepsPrefix(cfg: Config, s: State, e: Event)
    requires ArrivalsOk(s) && s.received <= s.arrived
    ensures Step(cfg, s, e).received <= Step(cfg, s, e).arrived
  {
    if s.receiver.RecvChecking? {
      assert s.received + [s.receiver.item] <= s.received + [s.receiver.item] + s.inbox;
    }
  }

  lemma {:induction false} RunKeepsPrefix(cfg: Config, s: State, schedule: seq<Event>)
    requires cfg.Valid() && Inv(cfg, s) && s.received <= s.arrived
    ensures Run(cfg, s, schedule).received <= Run(cfg, s, schedule).arrived
    decreases |schedule|
  {
    if schedule != [] {
      StepKeepsInv(cfg, s, schedule[0]);
      StepKeepsPrefix(cfg, s, schedule[0]);
      RunKeepsPrefix(cfg, Step(cfg, s, schedule[0]), schedule[1..]);
    }
  }

  /**
   With no limit, at every moment, closed or not, what a worker has started is a prefix of the genuine
   arrivals that route to it.
   */
  lemma StartedFollowsRoute(cfg: Config, schedule: seq<Event>, w: nat)
    requires cfg.Valid() && cfg.max.None? && w < cfg.workers
    ensures var s := Run(cfg, Init(cfg), schedule);
            && |s.workers| == cfg.workers
            && s.workers[w].started <= RoutedTo(cfg, Genuine(s.arrived), w)
  {
    ReachableInv(cfg, schedule);
    RunKeepsPrefix(cfg, Init(cfg), schedule);
    WorkerIsFifo(cfg, schedule, w);
    var s := Run(cfg, Init(cfg), schedule);
    var k := s.workers[w];
    assert k.started <= k.started + Hand(k.pc) + k.queue + k.discarded;
    UnlimitedAdmitsPrefix(cfg, s, w);
    GenuinePrefix(s.received, s.arrived);
    RoutedToPrefix(cfg, s.received, Genuine(s.arrived), w);
  }

  /** With no limit and between items, each worker has been given exactly the received items that route to it. */
  lemma UnlimitedWorkerGetsItsRoute(cfg: Config, schedule: seq<Event>, w: nat)
    requires cfg.Valid() && cfg.max.None? && w < cfg.workers
    ensures var s := Run(cfg, Init(cfg), schedule);
            && |s.workers| == cfg.workers
            && var k := s.workers[w];
            (!InFlight(s.receiver) && !s.receiver.RecvStopped? ==>
               k.started + Hand(k.pc) + k.queue + k.discarded == RoutedTo(cfg, s.received, w))
  {
    ReachableInv(cfg, schedule);
    WorkerIsFifo(cfg, schedule, w);
    var s := Run(cfg, Init(cfg), schedule);
    if !InFlight(s.receiver) && !s.receiver.RecvStopped? {
      forall i | 0 <= i < |s.fates|
        ensures FateOk(cfg, s.received[i], s.fates[i]) && (s.fates[i].Unroutable? || s.fates[i].Admitted?)
      {
        assert FateOk(cfg, s.received[i], s.fates[i]);
      }
      UnlimitedAdmitsAllRouted(cfg, s.received, s.fates, w);
    }
  }
}
