/** Per-worker socket views fed by one routing loop: each view is an exact filter of the traffic. */
module SocketViews {
  import opened Bytes
  import opened WorkerHash
  import opened Traffic
  import QuicRoute

  datatype Pc =
    | AtHead
    | AtReceive
    | Handing(item: Item, to: nat)  // waiting for room in a view's queue
    | Ended
    | NoSender

  /** A view is gone once its callback has dropped the receiving end. */
  datatype View = View(queue: seq<Item>, delivered: seq<Item>, gone: bool)

  datatype State = State(
    open: bool,
    inbox: seq<Item>,
    received: seq<Item>,
    pc: Pc,
    views: seq<View>)

  datatype Event =
    | Arrives(packet: Datagram, meta: PacketMeta)
    | Closes
    | WakeSent(from: PacketMeta)
    | LoopStep
    | ReceiveFails
    | LoopAborted
    | ViewReceives(w: nat)
    | ViewDropped(w: nat)

  function Init(cfg: Config): State {
    State(true, [], [], AtHead, seq(cfg.workers, _ => View([], [], false)))
  }

  function StepLoop(cfg: Config, s: State): State {
    match s.pc
    case AtHead => s.(pc := if s.open then AtReceive else Ended)
    case AtReceive =>
      if s.inbox == [] then s
      else
        var item := s.inbox[0];
        var route := cfg.RouteOf(item);
        s.(inbox := s.inbox[1..], received := s.received + [item],
           pc := if route.None? then AtHead
                 else if route.value >= |s.views| then NoSender
                 else Handing(item, route.value))
    case Handing(item, w) =>
      if w >= |s.views| || s.views[w].gone then s.(pc := Ended)
      else if |s.views[w].queue| < cfg.capacity
      then s.(pc := AtHead, views := s.views[w := s.views[w].(queue := s.views[w].queue + [item])])
      else s
    case Ended => s
    case NoSender => s
  }

  /** Steps that do not apply change nothing. */
  function Step(cfg: Config, s: State, e: Event): State {
    match e
    case Arrives(packet, meta) => s.(inbox := s.inbox + [Item(packet, meta, false)])
    case Closes => s.(open := false)
    case WakeSent(from) => if s.open then s else s.(inbox := s.inbox + [Item([0], from, true)])
    case LoopStep => StepLoop(cfg, s)
    case ReceiveFails => if s.pc.AtReceive? then s.(pc := if s.open then AtHead else Ended) else s
    case LoopAborted => if s.pc.AtReceive? || s.pc.Handing? then s.(pc := Ended) else s
    case ViewReceives(w) =>
      if w < |s.views| && !s.views[w].gone && s.views[w].queue != []
      then
        var v := s.views[w];
        s.(views := s.views[w := v.(queue := v.queue[1..], delivered := v.delivered + [v.queue[0]])])
      else s
    case ViewDropped(w) =>
      if w < |s.views| then s.(views := s.views[w := s.views[w].(queue := [], gone := true)]) else s
  }

  function Run(cfg: Config, s: State, schedule: seq<Event>): State
    decreases |schedule|
  {
    if schedule == [] then s else Run(cfg, Step(cfg, s, schedule[0]), schedule[1..])
  }

  function HandedTo(pc: Pc, w: nat): seq<Item> {
    if pc.Handing? && pc.to == w then [pc.item] else []
  }

  predicate ViewOk(cfg: Config, v: View, handed: seq<Item>, routed: seq<Item>, ended: bool) {
    && |v.queue| <= cfg.capacity
    && v.delivered + v.queue <= routed
    && (!v.gone && !ended ==> v.delivered + v.queue + handed == routed)
  }

  predicate Inv(cfg: Config, s: State) {
    && |s.views| == cfg.workers
    && !s.pc.NoSender?
    && (s.pc.Handing? ==> s.pc.to < |s.views|)
    && (forall w :: 0 <= w < |s.views| ==>
                      ViewOk(cfg, s.views[w], HandedTo(s.pc, w), RoutedTo(cfg, s.received, w), s.pc.Ended?))
    && (forall i :: 0 <= i < |s.inbox| && s.inbox[i].wake ==> s.inbox[i].packet == [0])
    && (forall i :: 0 <= i < |s.received| && s.received[i].wake ==> s.received[i].packet == [0])
  }

  lemma ReceiveKeepsInv(cfg: Config, s: State)
    requires cfg.Valid() && Inv(cfg, s) && s.pc.AtReceive? && s.inbox != []
    ensures Inv(cfg, StepLoop(cfg, s))
  {
    var s' := StepLoop(cfg, s);
    var item := s.inbox[0];
    assert cfg.RouteOf(item) == cfg.route(item.packet, item.meta);
    forall w | 0 <= w < |s.views|
      ensures ViewOk(cfg, s'.views[w], HandedTo(s'.pc, w), RoutedTo(cfg, s'.received, w), s'.pc.Ended?)
    {
      assert ViewOk(cfg, s.views[w], [], RoutedTo(cfg, s.received, w), false);
      RoutedToAppend(cfg, s.received, item, w);
      assert RoutedTo(cfg, s.received, w) + [] == RoutedTo(cfg, s.received, w);
    }
  }

  lemma HandKeepsInv(cfg: Config, s: State)
    requires Inv(cfg, s) && s.pc.Handing?
    ensures Inv(cfg, StepLoop(cfg, s))
  {
    var s' := StepLoop(cfg, s);
    if s' != s {
      forall w | 0 <= w < |s.views|
        ensures ViewOk(cfg, s'.views[w], HandedTo(s'.pc, w), RoutedTo(cfg, s'.received, w), s'.pc.Ended?)
      {
        var v := s.views[w];
        assert ViewOk(cfg, v, HandedTo(s.pc, w), RoutedTo(cfg, s.received, w), false);
        if w == s.pc.to {
          assert v.delivered + (v.queue + [s.pc.item]) == v.delivered + v.queue + [s.pc.item] + [];
        }
      }
    }
  }

  lemma ViewReceiveKeepsOk(cfg: Config, v: View, handed: seq<Item>, routed: seq<Item>, ended: bool)
    requires ViewOk(cfg, v, handed, routed, ended) && v.queue != []
    ensures ViewOk(cfg, v.(queue := v.queue[1..], delivered := v.delivered + [v.queue[0]]), handed, routed, ended)
  {
    assert v.delivered + v.queue == (v.delivered + [v.queue[0]]) + v.queue[1..];
  }

  lemma ViewDropKeepsOk(cfg: Config, v: View, handed: seq<Item>, routed: seq<Item>, ended: bool)
    requires ViewOk(cfg, v, handed, routed, ended)
    ensures ViewOk(cfg, v.(queue := [], gone := true), handed, routed, ended)
  {
    assert v.delivered == (v.delivered + v.queue)[..|v.delivered|];
    assert v.delivered + [] == v.delivered;
  }

  lemma ViewEventKeepsInv(cfg: Config, s: State, e: Event)
    requires Inv(cfg, s) && (e.ViewReceives? || e.ViewDropped?)
    ensures Inv(cfg, Step(cfg, s, e))
  {
    if e.w < |s.views| {
      var v, handed, routed := s.views[e.w], HandedTo(s.pc, e.w), RoutedTo(cfg, s.received, e.w);
      assert ViewOk(cfg, v, handed, routed, s.pc.Ended?);
      if v.queue != [] {
        ViewReceiveKeepsOk(cfg, v, handed, routed, s.pc.Ended?);
      }
      ViewDropKeepsOk(cfg, v, handed, routed, s.pc.Ended?);
    }
  }

  /** Moves of the flag, the inbox and an idle or ending loop. */
  lemma IdleMoveKeepsInv(cfg: Config, s: State, s': State)
    requires Inv(cfg, s) && s' == s.(open := s'.open, inbox := s'.inbox, pc := s'.pc)
    requires s'.pc == s.pc || s'.pc.Ended? || ((s.pc.AtHead? || s.pc.AtReceive?) && (s'.pc.AtHead? || s'.pc.AtReceive?))
    requires forall i :: 0 <= i < |s'.inbox| && s'.inbox[i].wake ==> s'.inbox[i].packet == [0]
    ensures Inv(cfg, s')
  {
    forall w | 0 <= w < |s.views|
      ensures ViewOk(cfg, s'.views[w], HandedTo(s'.pc, w), RoutedTo(cfg, s'.received, w), s'.pc.Ended?)
    {
      assert ViewOk(cfg, s.views[w], HandedTo(s.pc, w), RoutedTo(cfg, s.received, w), s.pc.Ended?);
    }
  }

  lemma StepKeepsInv(cfg: Config, s: State, e: Event)
    requires cfg.Valid() && Inv(cfg, s)
    ensures Inv(cfg, Step(cfg, s, e))
  {
    if e.ViewReceives? || e.ViewDropped? {
      ViewEventKeepsInv(cfg, s, e);
    } else if e.LoopStep? && s.pc.AtReceive? && s.inbox != [] {
      ReceiveKeepsInv(cfg, s);
    } else if e.LoopStep? && s.pc.Handing? {
      HandKeepsInv(cfg, s);
    } else {
      IdleMoveKeepsInv(cfg, s, Step(cfg, s, e));
    }
  }

  lemma {:induction false} RunKeepsInv(cfg: Config, s: State, schedule: seq<Event>)
    requires cfg.Valid() && Inv(cfg, s)
    ensures Inv(cfg, Run(cfg, s, schedule))
    decreases |schedule|
  {
    if schedule != [] {
      StepKeepsInv(cfg, s, schedule[0]);
      RunKeepsInv(cfg, Step(cfg, s, schedule[0]), schedule[1..]);
    }
  }

  /**
   In every run a view's deliveries and queue are, in order, the received items that route to its
   worker: all of them while the loop runs and the view exists (one may still wait for room), and a
   prefix of them ever after. No queue outgrows its capacity.
   */
  lemma ViewIsExactFilter(cfg: Config, schedule: seq<Event>, w: nat)
    requires cfg.Valid() && w < cfg.workers
    ensures var s := Run(cfg, Init(cfg), schedule);
            && |s.views| == cfg.workers && !s.pc.NoSender?
            && var v := s.views[w];
            && |v.queue| <= cfg.capacity
            && v.delivered + v.queue <= RoutedTo(cfg, s.received, w)
            && (!v.gone && !s.pc.Ended? ==>
                  v.delivered + v.queue + HandedTo(s.pc, w) == RoutedTo(cfg, s.received, w))
  {
    RunKeepsInv(cfg, Init(cfg), schedule);
    var s := Run(cfg, Init(cfg), schedule);
    assert ViewOk(cfg, s.views[w], HandedTo(s.pc, w), RoutedTo(cfg, s.received, w), s.pc.Ended?);
  }

  // ---------- the wake datagram ----------

  predicate WakeDelivered(s: State) {
    exists w, j :: 0 <= w < |s.views| && 0 <= j < |s.views[w].delivered| && s.views[w].delivered[j].wake
  }

  predicate WakeSeenIn(cfg: Config, schedule: seq<Event>) {
    WakeDelivered(Run(cfg, Init(cfg), schedule))
  }

  lemma {:induction false} RoutedWasReceived(cfg: Config, items: seq<Item>, w: nat, j: nat)
    requires j < |RoutedTo(cfg, items, w)|
    ensures RoutedTo(cfg, items, w)[j] in items && cfg.RouteOf(RoutedTo(cfg, items, w)[j]) == Some(w)
  {
    var n := |items| - 1;
    if j < |RoutedTo(cfg, items[..n], w)| {
      RoutedWasReceived(cfg, items[..n], w, j);
    }
  }

  ghost predicate WakeRoutable(cfg: Config) {
    exists from :: cfg.route([0], from).Some?
  }

  lemma DeliveredWakeIsRouted(cfg: Config, schedule: seq<Event>)
    requires cfg.Valid() && WakeSeenIn(cfg, schedule)
    ensures WakeRoutable(cfg)
  {
    RunKeepsInv(cfg, Init(cfg), schedule);
    var s := Run(cfg, Init(cfg), schedule);
    var w, j :| 0 <= w < |s.views| && 0 <= j < |s.views[w].delivered| && s.views[w].delivered[j].wake;
    var v, routed := s.views[w], RoutedTo(cfg, s.received, w);
    assert ViewOk(cfg, v, HandedTo(s.pc, w), routed, s.pc.Ended?);
    assert routed[j] == (v.delivered + v.queue)[j] == v.delivered[j];
    RoutedWasReceived(cfg, s.received, w, j);
    assert cfg.route(v.delivered[j].packet, v.delivered[j].meta).Some?;
  }

  /** The loop is receiving when the server closes; the wake is routed like any datagram and read by a view. */
  function WakingSchedule(from: PacketMeta, w: nat): seq<Event> {
    [LoopStep, Closes, WakeSent(from), LoopStep, LoopStep, ViewReceives(w)]
  }

  lemma RoutedWakeIsDelivered(cfg: Config, from: PacketMeta)
    requires cfg.Valid() && cfg.capacity > 0 && cfg.route([0], from).Some?
    ensures WakeSeenIn(cfg, WakingSchedule(from, cfg.route([0], from).value))
  {
    var w := cfg.route([0], from).value;
    var wake := Item([0], from, true);
    var s0 := Init(cfg);
    var e := WakingSchedule(from, w);
    var s3 := s0.(pc := AtReceive, open := false, inbox := [wake]);
    assert Step(cfg, Step(cfg, Step(cfg, s0, e[0]), e[1]), e[2]) == s3;
    WakeIsHandedOn(cfg, s3, wake, w);
    RunSix(cfg, s0, e);
  }

  lemma WakeIsHandedOn(cfg: Config, s3: State, wake: Item, w: nat)
    requires s3.pc.AtReceive? && s3.inbox == [wake] && wake.wake
    requires cfg.RouteOf(wake) == Some(w) && w < |s3.views| && cfg.capacity > 0
    requires s3.views[w] == View([], [], false)
    ensures WakeDelivered(Step(cfg, Step(cfg, Step(cfg, s3, LoopStep), LoopStep), ViewReceives(w)))
  {
    var s4 := Step(cfg, s3, LoopStep);
    assert s4.pc == Handing(wake, w) && s4.views == s3.views;
    var s5 := Step(cfg, s4, LoopStep);
    assert s5.views[w] == View([wake], [], false);
    var s6 := Step(cfg, s5, ViewReceives(w));
    assert s6.views[w].delivered[0].wake;
  }

  lemma RunSix(cfg: Config, s: State, e: seq<Event>)
    requires |e| == 6
    ensures Run(cfg, s, e)
         == Step(cfg, Step(cfg, Step(cfg, Step(cfg, Step(cfg, Step(cfg, s, e[0]), e[1]), e[2]), e[3]), e[4]), e[5])
  {
    RunTwo(cfg, s, e);
    var s2 := Step(cfg, Step(cfg, s, e[0]), e[1]);
    RunTwo(cfg, s2, e[2..]);
    var s4 := Step(cfg, Step(cfg, s2, e[2]), e[3]);
    assert e[2..][2..] == e[4..];
    RunTwo(cfg, s4, e[4..]);
    assert e[4..][2..] == [];
  }

  lemma RunTwo(cfg: Config, s: State, e: seq<Event>)
    requires |e| >= 2
    ensures Run(cfg, s, e) == Run(cfg, Step(cfg, Step(cfg, s, e[0]), e[1]), e[2..])
  {
    assert e[1..][1..] == e[2..];
  }

  /**
   This loop does not read the flag again after receiving, so closing can show the wake datagram to a
   view: it does in some run exactly when the routing accepts a one-byte datagram from somewhere.
   */
  lemma WakeReachesViewIff(cfg: Config)
    requires cfg.Valid() && cfg.capacity > 0
    ensures (exists schedule :: WakeSeenIn(cfg, schedule)) <==> WakeRoutable(cfg)
  {
    if WakeRoutable(cfg) {
      var from :| cfg.route([0], from).Some?;
      RoutedWakeIsDelivered(cfg, from);
    } else {
      forall schedule
        ensures !WakeSeenIn(cfg, schedule)
      {
        if WakeSeenIn(cfg, schedule) {
          DeliveredWakeIsRouted(cfg, schedule);
        }
      }
    }
  }

  /** QUIC views never see it, and hash-routed views can. */
  lemma WakeAndTheTwoRoutings(workers: nat, from: PacketMeta)
    requires workers > 0
    ensures QuicConfig(workers, None).route([0], from) == None
    ensures UdpConfig(workers, None).route([0], from).Some?
  {
    QuicRoute.WorkerIndexMeaning([0], workers);
  }

  // ---------- delivering and closing ----------

  lemma {:induction false} RunAppend(cfg: Config, s: State, a: seq<Event>, b: seq<Event>)
    ensures Run(cfg, s, a + b) == Run(cfg, Run(cfg, s, a), b)
    decreases |a|
  {
    if a == [] {
      assert a + b == b;
    } else {
      assert (a + b)[0] == a[0] && (a + b)[1..] == a[1..] + b;
      RunAppend(cfg, Step(cfg, s, a[0]), a[1..], b);
    }
  }

  lemma RunOne(cfg: Config, s: State, schedule: seq<Event>, next: State)
    requires schedule != [] && next == Step(cfg, s, schedule[0])
    ensures Run(cfg, s, schedule) == Run(cfg, next, schedule[1..])
  {
  }

  /** All views have read what routes to them. */
  function Delivered(cfg: Config, items: seq<Item>): State {
    State(true, [], items, AtHead,
          seq(cfg.workers, w requires 0 <= w < cfg.workers => View([], RoutedTo(cfg, items, w), false)))
  }

  function DeliverOne(cfg: Config, item: Item): seq<Event> {
    [Arrives(item.packet, item.meta), LoopStep, LoopStep]
    + match cfg.RouteOf(item)
      case None => []
      case Some(w) => [LoopStep, ViewReceives(w)]
  }

  function DeliverAll(cfg: Config, items: seq<Item>): seq<Event> {
    if items == [] then [] else DeliverAll(cfg, items[..|items| - 1]) + DeliverOne(cfg, items[|items| - 1])
  }

  /** Two steps take an item off the socket. */
  lemma TwoStepsReceive(cfg: Config, items: seq<Item>, item: Item)
    requires cfg.Valid() && !item.wake
    ensures Run(cfg, Delivered(cfg, items), [Arrives(item.packet, item.meta), LoopStep, LoopStep])
         == Delivered(cfg, items).(received := items + [item],
                                   pc := if cfg.RouteOf(item).None? then AtHead
                                         else Handing(item, cfg.RouteOf(item).value))
  {
    var s, e := Delivered(cfg, items), [Arrives(item.packet, item.meta), LoopStep, LoopStep];
    assert cfg.RouteOf(item) == cfg.route(item.packet, item.meta);
    assert [] + [item] == [item] && [item][1..] == [];
    var s1 := s.(inbox := [item]);
    var s2 := s1.(pc := AtReceive);
    RunOne(cfg, s, e, s1);
    RunOne(cfg, s1, e[1..], s2);
    RunOne(cfg, s2, e[2..], Step(cfg, s2, LoopStep));
    assert e[3..] == [];
  }

  lemma HandedItemIsRead(cfg: Config, items: seq<Item>, item: Item, w: nat)
    requires cfg.capacity > 0 && cfg.RouteOf(item) == Some(w) && w < cfg.workers
    ensures Run(cfg, Delivered(cfg, items).(received := items + [item], pc := Handing(item, w)),
                [LoopStep, ViewReceives(w)])
         == Delivered(cfg, items + [item])
  {
    var s, s' := Delivered(cfg, items), Delivered(cfg, items + [item]);
    var v, e := s.views[w], [LoopStep, ViewReceives(w)];
    var s1 := s.(received := items + [item], views := s.views[w := v.(queue := [item])]);
    assert [] + [item] == [item] && [item][1..] == [];
    RunOne(cfg, s.(received := items + [item], pc := Handing(item, w)), e, s1);
    forall u | 0 <= u < cfg.workers
      ensures s'.views[u] == if u == w then v.(delivered := v.delivered + [item]) else s.views[u]
    {
      RoutedToAppend(cfg, items, item, u);
    }
    assert s1.views[w := v.(delivered := v.delivered + [item])] == s'.views;
    RunOne(cfg, s1, e[1..], s');
    assert e[2..] == [];
  }

  lemma DeliverOneReaches(cfg: Config, items: seq<Item>, item: Item)
    requires cfg.Valid() && cfg.capacity > 0 && !item.wake
    ensures Run(cfg, Delivered(cfg, items), DeliverOne(cfg, item)) == Delivered(cfg, items + [item])
  {
    var first := [Arrives(item.packet, item.meta), LoopStep, LoopStep];
    assert cfg.RouteOf(item) == cfg.route(item.packet, item.meta);
    TwoStepsReceive(cfg, items, item);
    match cfg.RouteOf(item)
    case None =>
      assert DeliverOne(cfg, item) == first;
      forall w | 0 <= w < cfg.workers
        ensures RoutedTo(cfg, items + [item], w) == RoutedTo(cfg, items, w)
      {
        RoutedToAppend(cfg, items, item, w);
      }
      assert Delivered(cfg, items + [item]).views == Delivered(cfg, items).views;
    case Some(w) =>
      RunAppend(cfg, Delivered(cfg, items), first, [LoopStep, ViewReceives(w)]);
      HandedItemIsRead(cfg, items, item, w);
  }

  /** Whatever traffic arrives, some run lets every view read exactly what routes to it, in order. */
  lemma {:induction false} AllTrafficCanBeDelivered(cfg: Config, items: seq<Item>)
    requires cfg.Valid() && cfg.capacity > 0 && AllGenuine(items)
    ensures Run(cfg, Init(cfg), DeliverAll(cfg, items)) == Delivered(cfg, items)
  {
    if items == [] {
      assert Init(cfg).views == Delivered(cfg, []).views;
    } else {
      var n := |items| - 1;
      AllTrafficCanBeDelivered(cfg, items[..n]);
      RunAppend(cfg, Init(cfg), DeliverAll(cfg, items[..n]), DeliverOne(cfg, items[n]));
      DeliverOneReaches(cfg, items[..n], items[n]);
      assert items == items[..n] + [items[n]];
    }
  }

  /** The receive a closed loop may still have ahead of it. */
  function Ahead(s: State): nat {
    |s.received| + if s.pc.AtReceive? then 1 else 0
  }

  lemma {:induction false} ClosedReceivesNoMore(cfg: Config, s: State, schedule: seq<Event>)
    requires !s.open
    ensures !Run(cfg, s, schedule).open && Ahead(Run(cfg, s, schedule)) <= Ahead(s)
    decreases |schedule|
  {
    if schedule != [] {
      ClosedReceivesNoMore(cfg, Step(cfg, s, schedule[0]), schedule[1..]);
    }
  }

  /** Whatever happens before and after a close, at most one more item is received. */
  lemma CloseReceivesAtMostOne(cfg: Config, before: seq<Event>, after: seq<Event>)
    ensures var s, s' := Run(cfg, Init(cfg), before), Run(cfg, Init(cfg), before + [Closes] + after);
            |s'.received| <= |s.received| + if s.pc.AtReceive? then 1 else 0
  {
    var s := Run(cfg, Init(cfg), before);
    RunAppend(cfg, Init(cfg), before + [Closes], after);
    RunAppend(cfg, Init(cfg), before, [Closes]);
    RunOne(cfg, s, [Closes], s.(open := false));
    ClosedReceivesNoMore(cfg, s.(open := false), after);
  }

  /** A waiting loop ends within three steps of a close and its wake, if the view that is handed the wake has room. */
  lemma WakeEndsLoop(cfg: Config, s: State, from: PacketMeta)
    requires cfg.Valid() && |s.views| == cfg.workers && s.pc.AtReceive? && s.inbox == []
    requires forall w :: 0 <= w < |s.views| ==> |s.views[w].queue| < cfg.capacity
    ensures Run(cfg, s, [Closes, WakeSent(from), LoopStep, LoopStep, LoopStep]).pc.Ended?
  {
    var e, wake := [Closes, WakeSent(from), LoopStep, LoopStep, LoopStep], Item([0], from, true);
    var s2 := s.(open := false, inbox := [wake]);
    assert [] + [wake] == [wake];
    assert cfg.RouteOf(wake) == cfg.route([0], from);
    RunOne(cfg, s, e, s.(open := false));
    RunOne(cfg, s.(open := false), e[1..], s2);
    var s3 := Step(cfg, s2, LoopStep);
    var s4 := Step(cfg, s3, LoopStep);
    RunOne(cfg, s2, e[2..], s3);
    RunOne(cfg, s3, e[3..], s4);
    RunOne(cfg, s4, e[4..], Step(cfg, s4, LoopStep));
    assert e[5..] == [];
  }

  /** An open loop survives a receive error; a closed one, an aborted one and one whose view is gone end. */
  lemma HowTheLoopEnds(cfg: Config, s: State)
    requires s.pc.AtReceive?
    ensures s.open ==> Step(cfg, Step(cfg, s, ReceiveFails), LoopStep) == s
    ensures !s.open ==> Step(cfg, s, ReceiveFails).pc.Ended?
    ensures Step(cfg, s, LoopAborted).pc.Ended?
  {
  }

  predicate DroppedWith(s: State, w: nat, delivered: seq<Item>) {
    w < |s.views| && s.views[w] == View([], delivered, true)
  }

  /** A view that is dropped loses its queue and is never given anything again. */
  lemma {:induction false} DroppedViewStaysEmpty(cfg: Config, s: State, w: nat, schedule: seq<Event>)
    requires w < |s.views|
    ensures DroppedWith(Run(cfg, Step(cfg, s, ViewDropped(w)), schedule), w, s.views[w].delivered)
  {
    EmptyViewStaysEmpty(cfg, Step(cfg, s, ViewDropped(w)), w, s.views[w].delivered, schedule);
  }

  lemma {:induction false} EmptyViewStaysEmpty(
      cfg: Config, s: State, w: nat, delivered: seq<Item>, schedule: seq<Event>)
    requires DroppedWith(s, w, delivered)
    ensures DroppedWith(Run(cfg, s, schedule), w, delivered)
    decreases |schedule|
  {
    if schedule != [] {
      EmptyViewStaysEmpty(cfg, Step(cfg, s, schedule[0]), w, delivered, schedule[1..]);
    }
  }

  lemma DroppedViewEndsLoop(cfg: Config, s: State)
    requires s.pc.Handing? && s.pc.to < |s.views|
    ensures Step(cfg, Step(cfg, s, ViewDropped(s.pc.to)), LoopStep).pc.Ended?
    ensures Step(cfg, s, LoopAborted).pc.Ended?
  {
  }
}
