/**
 The loop that serves a worker's own socket: take a permit, receive, check the flag again, start a
 handler. It is the TCP, UDP and kernel-selected QUIC listener, which differ in what they accept and in
 whether a receive error ends them.
 */
module Listener {
  import opened Bytes
  import opened Traffic
  import opened WorkerHash

  datatype Config = Config(max: Option<nat>, accepts: Datagram -> bool) {
    predicate Valid() { max.Some? ==> max.value > 0 }
  }

  datatype Pc =
    | AtHead
    | Acquiring
    | Permitted            // permit in hand, flag not read again yet
    | AtReceive
    | Received(item: Item) // flag not read again yet
    | Serving(item: Item)  // about to start the handler
    | Ended

  function Holds(pc: Pc): nat {
    if pc.Permitted? || pc.AtReceive? || pc.Received? || pc.Serving? then 1 else 0
  }

  datatype State = State(
    open: bool,
    arrived: seq<Item>,
    inbox: seq<Item>,
    consumed: seq<Item>,   // items that passed the last check
    pc: Pc,
    active: nat,
    running: nat,
    started: seq<Item>,
    late: nat)

  datatype Event =
    | Arrive(packet: Datagram, meta: PacketMeta)
    | Close
    | SendWake(from: PacketMeta)
    | LoopStep(runtimeActive: bool)
    | ReceiveFails(fatal: bool)
    | AbortLoop
    | FinishHandler

  function Init(): State {
    State(true, [], [], [], AtHead, 0, 0, [], 0)
  }

  function Give(cfg: Config, s: State): State {
    if cfg.max.Some? && s.active > 0 then s.(active := s.active - 1) else s
  }

  function Take(cfg: Config, s: State): State {
    if cfg.max.Some? then s.(active := s.active + 1) else s
  }

  /** Leaves the iteration, dropping its permit. */
  function Leave(cfg: Config, s: State, pc: Pc): State {
    (if Holds(s.pc) == 1 then Give(cfg, s) else s).(pc := pc)
  }

  function Deliver(s: State, item: Item): State {
    s.(arrived := s.arrived + [item], inbox := s.inbox + [item])
  }

  function StepLoop(cfg: Config, s: State, runtimeActive: bool): State {
    var active := s.open && runtimeActive;
    match s.pc
    case AtHead => s.(pc := if active then Acquiring else Ended)
    case Acquiring =>
      if cfg.max.None? || s.active < cfg.max.value then Take(cfg, s).(pc := Permitted) else s
    case Permitted => if active then s.(pc := AtReceive) else Leave(cfg, s, Ended)
    case AtReceive => if s.inbox == [] then s else s.(pc := Received(s.inbox[0]), inbox := s.inbox[1..])
    case Received(item) =>
      if !active then Leave(cfg, s, Ended)
      else if cfg.accepts(item.packet) then s.(pc := Serving(item), consumed := s.consumed + [item])
      else Leave(cfg, s.(consumed := s.consumed + [item]), AtHead)
    case Serving(item) =>
      s.(pc := AtHead, started := s.started + [item], running := s.running + 1,
         late := s.late + if s.open then 0 else 1)
    case Ended => s
  }

  /** Steps that do not apply change nothing. */
  function Step(cfg: Config, s: State, e: Event): State {
    match e
    case Arrive(packet, meta) => Deliver(s, Item(packet, meta, false))
    case Close => s.(open := false)
    case SendWake(from) => if s.open then s else Deliver(s, Item([0], from, true))
    case LoopStep(runtimeActive) => StepLoop(cfg, s, runtimeActive)
    case ReceiveFails(fatal) =>
      if s.pc.AtReceive? then Leave(cfg, s, if s.open && !fatal then AtHead else Ended) else s
    case AbortLoop => if s.pc.Acquiring? || s.pc.AtReceive? then Leave(cfg, s, Ended) else s
    case FinishHandler => if s.running > 0 then Give(cfg, s.(running := s.running - 1)) else s
  }

  function Run(cfg: Config, s: State, schedule: seq<Event>): State
    decreases |schedule|
  {
    if schedule == [] then s else Run(cfg, Step(cfg, s, schedule[0]), schedule[1..])
  }

  function AcceptedOf(cfg: Config, items: seq<Item>): seq<Item> {
    if items == [] then []
    else
      var n := |items| - 1;
      AcceptedOf(cfg, items[..n]) + if cfg.accepts(items[n].packet) then [items[n]] else []
  }

  lemma AcceptedOfAppend(cfg: Config, items: seq<Item>, item: Item)
    ensures AcceptedOf(cfg, items + [item])
         == AcceptedOf(cfg, items) + if cfg.accepts(item.packet) then [item] else []
  {
    assert (items + [item])[..|items|] == items;
  }

  lemma {:induction false} AcceptedOfPrefix(cfg: Config, a: seq<Item>, b: seq<Item>)
    requires a <= b
    ensures AcceptedOf(cfg, a) <= AcceptedOf(cfg, b)
    decreases |b|
  {
    if a != b {
      AcceptedOfPrefix(cfg, a, b[..|b| - 1]);
    }
  }

  function ServingItem(pc: Pc): seq<Item> {
    if pc.Serving? then [pc.item] else []
  }

  function ReceivedItem(pc: Pc): seq<Item> {
    if pc.Received? then [pc.item] else []
  }

  predicate PermitsOk(cfg: Config, s: State) {
    cfg.max.Some? ==> s.active == Holds(s.pc) + s.running && s.active <= cfg.max.value
  }

  predicate OrderOk(cfg: Config, s: State) {
    && s.started + ServingItem(s.pc) == AcceptedOf(cfg, s.consumed)
    && (!s.pc.Ended? ==> s.consumed + ReceivedItem(s.pc) + s.inbox == s.arrived)
  }

  predicate CloseOk(s: State) {
    && (if s.open then s.late == 0 else s.late + |ServingItem(s.pc)| <= 1)
    && (forall i :: 0 <= i < |s.inbox| && s.inbox[i].wake ==> !s.open)
    && (s.pc.Received? && s.pc.item.wake ==> !s.open)
    && (forall i :: 0 <= i < |s.consumed| ==> !s.consumed[i].wake)
  }

  predicate Inv(cfg: Config, s: State) {
    PermitsOk(cfg, s) && OrderOk(cfg, s) && CloseOk(s) && s.consumed <= s.arrived
  }

  lemma StepKeepsPermits(cfg: Config, s: State, e: Event)
    requires cfg.Valid() && PermitsOk(cfg, s)
    ensures PermitsOk(cfg, Step(cfg, s, e))
  {
  }

  lemma StepKeepsClose(cfg: Config, s: State, e: Event)
    requires CloseOk(s)
    ensures CloseOk(Step(cfg, s, e))
  {
  }

  lemma ReceiveKeepsOrder(cfg: Config, s: State)
    requires OrderOk(cfg, s) && s.pc.AtReceive? && s.inbox != []
    ensures OrderOk(cfg, s.(pc := Received(s.inbox[0]), inbox := s.inbox[1..]))
  {
    assert s.consumed + [] + s.inbox == s.consumed + [s.inbox[0]] + s.inbox[1..];
  }

  lemma CheckKeepsOrder(cfg: Config, s: State, s': State)
    requires OrderOk(cfg, s) && s.pc.Received?
    requires s'.pc == if cfg.accepts(s.pc.item.packet) then Serving(s.pc.item) else AtHead
    requires s'.arrived == s.arrived && s'.inbox == s.inbox && s'.started == s.started
    requires s'.consumed == s.consumed + [s.pc.item]
    ensures OrderOk(cfg, s')
  {
    AcceptedOfAppend(cfg, s.consumed, s.pc.item);
    assert s'.consumed + [] == s'.consumed;
    assert s.started + [] == s.started;
  }

  /** Moves between program counters that carry no item. */
  lemma IdleMoveKeepsOrder(cfg: Config, s: State, s': State)
    requires OrderOk(cfg, s)
    requires s'.arrived == s.arrived && s'.inbox == s.inbox && s'.consumed == s.consumed && s'.started == s.started
    requires ServingItem(s'.pc) == ServingItem(s.pc)
    requires s'.pc.Ended? || (!s.pc.Ended? && ReceivedItem(s'.pc) == ReceivedItem(s.pc))
    ensures OrderOk(cfg, s')
  {
  }

  lemma ServeKeepsOrder(cfg: Config, s: State, s': State)
    requires OrderOk(cfg, s) && s.pc.Serving?
    requires s'.arrived == s.arrived && s'.inbox == s.inbox && s'.consumed == s.consumed
    requires s'.pc.AtHead? && s'.started == s.started + [s.pc.item]
    ensures OrderOk(cfg, s')
  {
    assert s'.started + [] == s.started + [s.pc.item];
  }

  lemma DeliverKeepsOrder(cfg: Config, s: State, item: Item)
    requires OrderOk(cfg, s)
    ensures OrderOk(cfg, Deliver(s, item))
  {
    var before := s.consumed + ReceivedItem(s.pc);
    assert before + (s.inbox + [item]) == before + s.inbox + [item];
  }

  lemma LoopStepKeepsOrder(cfg: Config, s: State, runtimeActive: bool)
    requires OrderOk(cfg, s)
    ensures OrderOk(cfg, StepLoop(cfg, s, runtimeActive))
  {
    var s' := StepLoop(cfg, s, runtimeActive);
    if s.pc.AtReceive? && s.inbox != [] {
      ReceiveKeepsOrder(cfg, s);
    } else if s.pc.Received? && s.open && runtimeActive {
      CheckKeepsOrder(cfg, s, s');
    } else if s.pc.Serving? {
      ServeKeepsOrder(cfg, s, s');
    } else {
      IdleMoveKeepsOrder(cfg, s, s');
    }
  }

  lemma StepKeepsOrder(cfg: Config, s: State, e: Event)
    requires OrderOk(cfg, s)
    ensures OrderOk(cfg, Step(cfg, s, e))
  {
    match e
    case LoopStep(runtimeActive) => LoopStepKeepsOrder(cfg, s, runtimeActive);
    case Arrive(packet, meta) => DeliverKeepsOrder(cfg, s, Item(packet, meta, false));
    case SendWake(from) => DeliverKeepsOrder(cfg, s, Item([0], from, true));
    case _ => IdleMoveKeepsOrder(cfg, s, Step(cfg, s, e));
  }

  lemma StepKeepsPrefix(cfg: Config, s: State, e: Event)
    requires OrderOk(cfg, s) && s.consumed <= s.arrived
    ensures Step(cfg, s, e).consumed <= Step(cfg, s, e).arrived
  {
    if s.pc.Received? {
      assert s.consumed + [s.pc.item] <= s.consumed + [s.pc.item] + s.inbox;
    }
  }

  lemma StepKeepsInv(cfg: Config, s: State, e: Event)
    requires cfg.Valid() && Inv(cfg, s)
    ensures Inv(cfg, Step(cfg, s, e))
  {
    StepKeepsPermits(cfg, s, e);
    StepKeepsOrder(cfg, s, e);
    StepKeepsClose(cfg, s, e);
    StepKeepsPrefix(cfg, s, e);
  }

  lemma {:induction false} RunKeepsInv(cfg: Config, s: State, schedule: seq<Event>)
    requires cfg.Valid() && Inv(cfg, s)
    ensures Inv(cfg, Run(cfg, s, schedule))
    decreases |schedule|
  {
    if schedule != [] {
      StepKeepsInv(cfg, s, schedule[0]);
      RunKeepsInv(cfg, Step(cfg, s, schedule[0]), schedule[1..]);
    }
  }

  /**
   In every run: handlers start for exactly the accepted items that passed the checks, in order; the
   counter is the loop's own permit plus the running handlers; after the close flag is stored at most
   one more handler starts, and it is never the wake datagram's.
   */
  lemma ListenerSafety(cfg: Config, schedule: seq<Event>)
    requires cfg.Valid()
    ensures var s := Run(cfg, Init(), schedule);
            && s.started + ServingItem(s.pc) == AcceptedOf(cfg, s.consumed)
            && (cfg.max.Some? ==> s.active == Holds(s.pc) + s.running <= cfg.max.value)
            && s.late <= (if s.open then 0 else 1)
            && (forall i :: 0 <= i < |s.consumed| ==> !s.consumed[i].wake)
            && (forall i :: 0 <= i < |s.started| ==> !s.started[i].wake)
  {
    RunKeepsInv(cfg, Init(), schedule);
    var s := Run(cfg, Init(), schedule);
    forall i | 0 <= i < |s.started|
      ensures !s.started[i].wake
    {
      assert s.started[i] == (s.started + ServingItem(s.pc))[i];
      AcceptedWasConsumed(cfg, s.consumed, i);
    }
  }

  lemma {:induction false} AcceptedWasConsumed(cfg: Config, items: seq<Item>, j: nat)
    requires j < |AcceptedOf(cfg, items)|
    ensures AcceptedOf(cfg, items)[j] in items
  {
    var n := |items| - 1;
    if j < |AcceptedOf(cfg, items[..n])| {
      AcceptedWasConsumed(cfg, items[..n], j);
    }
  }

  /** At every moment, closed or not, what was started is a prefix of what it accepts of the genuine arrivals. */
  lemma StartedFollowsArrivals(cfg: Config, schedule: seq<Event>)
    requires cfg.Valid()
    ensures var s := Run(cfg, Init(), schedule);
            s.consumed <= Genuine(s.arrived) && s.started <= AcceptedOf(cfg, Genuine(s.arrived))
  {
    RunKeepsInv(cfg, Init(), schedule);
    var s := Run(cfg, Init(), schedule);
    GenuinePrefix(s.consumed, s.arrived);
    AcceptedOfPrefix(cfg, s.consumed, Genuine(s.arrived));
    assert s.started <= s.started + ServingItem(s.pc);
  }

  /** A listener that is waiting for more has served exactly what it accepts of all that arrived. */
  lemma WaitingListenerServedArrivals(cfg: Config, schedule: seq<Event>)
    requires cfg.Valid()
    ensures var s := Run(cfg, Init(), schedule);
            s.pc.AtReceive? && s.inbox == [] ==> s.started == AcceptedOf(cfg, s.arrived)
  {
    RunKeepsInv(cfg, Init(), schedule);
    var s := Run(cfg, Init(), schedule);
    if s.pc.AtReceive? && s.inbox == [] {
      assert s.consumed + [] + [] == s.consumed;
    }
  }

  // ---------- closing ----------

  function LoopSteps(n: nat, runtimeActive: bool := true): (e: seq<Event>)
    ensures |e| == n
  {
    if n == 0 then [] else [LoopStep(runtimeActive)] + LoopSteps(n - 1, runtimeActive)
  }

  lemma LoopMoves(cfg: Config, s: State, next: State, n: nat, runtimeActive: bool := true)
    requires n > 0 && next == StepLoop(cfg, s, runtimeActive)
    ensures Run(cfg, s, LoopSteps(n, runtimeActive)) == Run(cfg, next, LoopSteps(n - 1, runtimeActive))
  {
    assert LoopSteps(n, runtimeActive)[1..] == LoopSteps(n - 1, runtimeActive);
  }

  lemma {:induction false} RunAppend(cfg: Config, s: State, a: seq<Event>, b: seq<Event>)
    ensures Run(cfg, s, a + b) == Run(cfg, Run(cfg, s, a), b)
    decreases |a|
  {
    if a == [] {
      assert a + b == b;
    } else {
      assert (a + b)[0] == a[0] && (a + b)[1..] == a[1..] + b;
      RunAppend(cfg, Step(cfg, s, a[0]), a[1..], b);
    }
  }

  lemma RunOne(cfg: Config, s: State, schedule: seq<Event>, next: State)
    requires schedule != [] && next == Step(cfg, s, schedule[0])
    ensures Run(cfg, s, schedule) == Run(cfg, next, schedule[1..])
  {
  }

  /** A closed listener stays closed and lets no further item past its last check. */
  lemma {:induction false} ClosedConsumesNothing(cfg: Config, s: State, schedule: seq<Event>)
    requires !s.open
    ensures !Run(cfg, s, schedule).open && Run(cfg, s, schedule).consumed == s.consumed
    decreases |schedule|
  {
    if schedule != [] {
      ClosedConsumesNothing(cfg, Step(cfg, s, schedule[0]), schedule[1..]);
    }
  }

  /** Whatever happens before and after a close, the most that still starts is the handler about to be started. */
  lemma CloseEndsServing(cfg: Config, before: seq<Event>, after: seq<Event>)
    requires cfg.Valid()
    ensures var s, s' := Run(cfg, Init(), before), Run(cfg, Init(), before + [Close] + after);
            s.started <= s'.started <= s.started + ServingItem(s.pc)
  {
    var s := Run(cfg, Init(), before);
    var closed := s.(open := false);
    var s' := Run(cfg, closed, after);
    RunAppend(cfg, Init(), before + [Close], after);
    RunAppend(cfg, Init(), before, [Close]);
    RunOne(cfg, s, [Close], closed);
    ClosedConsumesNothing(cfg, closed, after);
    RunKeepsInv(cfg, Init(), before);
    RunKeepsInv(cfg, Init(), before + [Close] + after);
    StartedGrows(cfg, closed, after);
    assert s'.started <= s'.started + ServingItem(s'.pc);
  }

  lemma {:induction false} StartedGrows(cfg: Config, s: State, schedule: seq<Event>)
    ensures s.started <= Run(cfg, s, schedule).started
    decreases |schedule|
  {
    if schedule != [] {
      StartedGrows(cfg, Step(cfg, s, schedule[0]), schedule[1..]);
    }
  }

  /** Steps to the end of a loop whose server or runtime is no longer active, once nothing blocks it. */
  function StepsToEnd(pc: Pc): nat {
    match pc
    case Ended => 0
    case AtHead => 1
    case Permitted => 1
    case Received(_) => 1
    case Acquiring => 2
    case AtReceive => 2
    case Serving(_) => 2
  }

  /** A wake, or anything else to receive, ends an inactive loop within two steps, and its permit is not lost. */
  lemma {:induction false} InactiveLoopEnds(cfg: Config, s: State, runtimeActive: bool)
    requires !(s.open && runtimeActive) && PermitsOk(cfg, s)
    requires s.pc.Acquiring? ==> HasRoom(cfg, s)
    requires s.pc.AtReceive? ==> s.inbox != []
    ensures var s' := Run(cfg, s, LoopSteps(StepsToEnd(s.pc), runtimeActive));
            s'.pc.Ended? && (cfg.max.Some? ==> s'.active == s'.running)
    decreases StepsToEnd(s.pc)
  {
    var n, next := StepsToEnd(s.pc), StepLoop(cfg, s, runtimeActive);
    if n > 0 {
      LoopMoves(cfg, s, next, n, runtimeActive);
      assert StepsToEnd(next.pc) == n - 1;
      InactiveLoopEnds(cfg, next, runtimeActive);
    }
  }

  predicate HasRoom(cfg: Config, s: State) {
    cfg.max.None? || s.active < cfg.max.value
  }

  // ---------- serving ----------

  /** From its head an open loop with room is waiting for an item, permit in hand, after three steps. */
  lemma HeadReachesReceive(cfg: Config, s: State, n: nat)
    requires s.open && s.pc.AtHead? && HasRoom(cfg, s) && n >= 3
    ensures Run(cfg, s, LoopSteps(n)) == Run(cfg, Take(cfg, s).(pc := AtReceive), LoopSteps(n - 3))
  {
    LoopMoves(cfg, s, s.(pc := Acquiring), n);
    LoopMoves(cfg, s.(pc := Acquiring), Take(cfg, s).(pc := Permitted), n - 1);
    LoopMoves(cfg, Take(cfg, s).(pc := Permitted), Take(cfg, s).(pc := AtReceive), n - 2);
  }

  /** Six steps of an open loop with room start the handler of the first waiting item. */
  lemma SixStepsServe(cfg: Config, s: State)
    requires s.open && s.pc.AtHead? && HasRoom(cfg, s) && s.inbox != [] && cfg.accepts(s.inbox[0].packet)
    ensures Run(cfg, s, LoopSteps(6))
         == Take(cfg, s).(inbox := s.inbox[1..], consumed := s.consumed + [s.inbox[0]],
                          started := s.started + [s.inbox[0]], running := s.running + 1)
  {
    var item := s.inbox[0];
    var s3 := Take(cfg, s).(pc := AtReceive);
    var s4 := s3.(pc := Received(item), inbox := s.inbox[1..]);
    var s5 := s4.(pc := Serving(item), consumed := s.consumed + [item]);
    HeadReachesReceive(cfg, s, 6);
    LoopMoves(cfg, s3, s4, 3);
    LoopMoves(cfg, s4, s5, 2);
    LoopMoves(cfg, s5, s5.(pc := AtHead, started := s.started + [item], running := s.running + 1), 1);
  }

  /** Five steps drop an item that is not accepted, and its permit with it. */
  lemma FiveStepsSkip(cfg: Config, s: State)
    requires s.open && s.pc.AtHead? && HasRoom(cfg, s) && s.inbox != [] && !cfg.accepts(s.inbox[0].packet)
    ensures Run(cfg, s, LoopSteps(5)) == s.(inbox := s.inbox[1..], consumed := s.consumed + [s.inbox[0]])
  {
    var item := s.inbox[0];
    var s3 := Take(cfg, s).(pc := AtReceive);
    var s4 := s3.(pc := Received(item), inbox := s.inbox[1..]);
    HeadReachesReceive(cfg, s, 5);
    LoopMoves(cfg, s3, s4, 2);
    LoopMoves(cfg, s4, s.(inbox := s.inbox[1..], consumed := s.consumed + [item]), 1);
  }

  /** A handler that finishes gives its permit back. */
  lemma FinishReturnsPermit(cfg: Config, schedule: seq<Event>)
    requires cfg.Valid()
    ensures var s := Run(cfg, Init(), schedule);
            s.running > 0 ==>
              var s' := Step(cfg, s, FinishHandler);
              s'.running == s.running - 1 && (cfg.max.Some? ==> s'.active == s.active - 1 < cfg.max.value)
  {
    RunKeepsInv(cfg, Init(), schedule);
  }

  /** An open loop survives a receive error that is not fatal: three steps later it waits as before. */
  lemma ErrorIsSurvived(cfg: Config, s: State)
    requires s.open && s.pc.AtReceive? && (cfg.max.Some? ==> 0 < s.active <= cfg.max.value)
    ensures Run(cfg, s, [ReceiveFails(false)] + LoopSteps(3)) == s
  {
    var e := [ReceiveFails(false)] + LoopSteps(3);
    var s1 := Give(cfg, s).(pc := AtHead);
    RunOne(cfg, s, e, s1);
    assert e[1..] == LoopSteps(3);
    HeadReachesReceive(cfg, s1, 3);
  }

  /** A fatal error, an error after the close and an abort all end a waiting loop, and its permit is not lost. */
  lemma WaitingLoopCanBeEnded(cfg: Config, s: State, e: Event)
    requires PermitsOk(cfg, s) && s.pc.AtReceive?
    requires e.AbortLoop? || (e.ReceiveFails? && (e.fatal || !s.open))
    ensures Step(cfg, s, e).pc.Ended? && PermitsOk(cfg, Step(cfg, s, e))
    ensures cfg.max.Some? ==> Step(cfg, s, e).active == s.running
  {
  }

  /** Serves one item to the end. */
  function ServeOne(cfg: Config, item: Item): seq<Event> {
    [Arrive(item.packet, item.meta)]
    + if cfg.accepts(item.packet) then LoopSteps(6) + [FinishHandler] else LoopSteps(5)
  }

  function ServeAll(cfg: Config, items: seq<Item>): seq<Event> {
    if items == [] then [] else ServeAll(cfg, items[..|items| - 1]) + ServeOne(cfg, items[|items| - 1])
  }

  /** Idle after the given arrivals, all of them dealt with. */
  function Served(cfg: Config, items: seq<Item>): State {
    State(true, items, [], items, AtHead, 0, 0, AcceptedOf(cfg, items), 0)
  }

  lemma ServeAccepted(cfg: Config, items: seq<Item>, item: Item)
    requires cfg.Valid() && cfg.accepts(item.packet)
    ensures Run(cfg, Served(cfg, items).(arrived := items + [item], inbox := [item]), LoopSteps(6) + [FinishHandler])
         == Served(cfg, items + [item])
  {
    var s := Served(cfg, items).(arrived := items + [item], inbox := [item]);
    assert [item][1..] == [];
    AcceptedOfAppend(cfg, items, item);
    RunAppend(cfg, s, LoopSteps(6), [FinishHandler]);
    SixStepsServe(cfg, s);
    var running := Take(cfg, Served(cfg, items + [item])).(running := 1);
    assert Run(cfg, s, LoopSteps(6)) == running;
    RunOne(cfg, running, [FinishHandler], Served(cfg, items + [item]));
  }

  lemma ServeOneReaches(cfg: Config, items: seq<Item>, item: Item)
    requires cfg.Valid() && !item.wake
    ensures Run(cfg, Served(cfg, items), ServeOne(cfg, item)) == Served(cfg, items + [item])
  {
    var s, e := Served(cfg, items), ServeOne(cfg, item);
    var s1 := s.(arrived := items + [item], inbox := [item]);
    assert [] + [item] == [item] && [item][1..] == [];
    RunOne(cfg, s, e, s1);
    if cfg.accepts(item.packet) {
      assert e[1..] == LoopSteps(6) + [FinishHandler];
      ServeAccepted(cfg, items, item);
    } else {
      assert e[1..] == LoopSteps(5);
      FiveStepsSkip(cfg, s1);
      AcceptedOfAppend(cfg, items, item);
      assert AcceptedOf(cfg, items) + [] == AcceptedOf(cfg, items);
    }
  }

  /** Whatever traffic arrives, some run starts exactly the handlers of what the listener accepts of it. */
  lemma {:induction false} AllTrafficCanBeServed(cfg: Config, items: seq<Item>)
    requires cfg.Valid() && AllGenuine(items)
    ensures Run(cfg, Init(), ServeAll(cfg, items)) == Served(cfg, items)
  {
    if items != [] {
      var n := |items| - 1;
      AllTrafficCanBeServed(cfg, items[..n]);
      RunAppend(cfg, Init(), ServeAll(cfg, items[..n]), ServeOne(cfg, items[n]));
      ServeOneReaches(cfg, items[..n], items[n]);
      assert items == items[..n] + [items[n]];
    }
  }

  /** Closing alone does not end a loop that waits on an empty socket, however long it runs. */
  lemma CloseAloneLeavesWaiting(cfg: Config, s: State, n: nat)
    requires s.pc.AtReceive? && s.inbox == []
    ensures Run(cfg, s, [Close] + LoopSteps(n)) == s.(open := false)
  {
    assert ([Close] + LoopSteps(n))[1..] == LoopSteps(n);
    RunOne(cfg, s, [Close] + LoopSteps(n), s.(open := false));
    WaitingLoopWaits(cfg, s.(open := false), n);
  }

  /** The wake that follows the close does, in two steps, and its permit is not lost. */
  lemma WakeEndsWaitingLoop(cfg: Config, s: State, from: PacketMeta)
    requires PermitsOk(cfg, s) && s.pc.AtReceive? && s.inbox == []
    ensures var s' := Run(cfg, s, [Close, SendWake(from)] + LoopSteps(2));
            s'.pc.Ended? && (cfg.max.Some? ==> s'.active == s'.running)
  {
    var closed, wake := s.(open := false), Item([0], from, true);
    var woken := closed.(arrived := s.arrived + [wake], inbox := [wake]);
    var e := [Close, SendWake(from)] + LoopSteps(2);
    assert e[1..][1..] == LoopSteps(2) && [] + [wake] == [wake];
    RunOne(cfg, s, e, closed);
    RunOne(cfg, closed, e[1..], woken);
    InactiveLoopEnds(cfg, woken, true);
  }

  lemma {:induction false} WaitingLoopWaits(cfg: Config, s: State, n: nat)
    requires s.pc.AtReceive? && s.inbox == []
    ensures Run(cfg, s, LoopSteps(n)) == s
  {
    if n > 0 {
      LoopMoves(cfg, s, s, n);
      WaitingLoopWaits(cfg, s, n - 1);
    }
  }
}
