/** Serving from kernel-selected sockets hands every worker what userspace routing would. */
module Serving {
  import opened Bytes
  import opened Traffic
  import QuicRoute
  import EbpfSelector
  import Cbpf
  import Pipeline
  import PipelineServing
  import Listener

  datatype Program = Extended | Classic

  function SocketOf(program: Program, packet: Datagram, workers: nat): nat {
    match program
    case Extended => EbpfSelector.Socket(packet, workers)
    case Classic => Cbpf.Socket(packet, workers)
  }

  /** A packet is kept by the worker on whose socket it lands exactly when userspace routes it there. */
  lemma KeptWhereRouted(program: Program, packet: Datagram, workers: nat, w: nat)
    requires 1 <= workers < 0x1_0000_0000
    ensures SocketOf(program, packet, workers) < workers
    ensures SocketOf(program, packet, workers) == w && QuicRoute.AcceptsPacket(packet, workers)
       <==> QuicRoute.WorkerIndex(packet, workers) == Some(w)
  {
    Cbpf.ProgramsAgree(packet, workers);
    Cbpf.SelectMeaning(packet, workers);
    EbpfSelector.SelectMeaning(EbpfSelector.PlacedAt(packet), workers);
  }

  /** The items the kernel puts on socket `w`. */
  function KernelShare(program: Program, workers: nat, items: seq<Item>, w: nat): seq<Item> {
    if items == [] then []
    else
      var n := |items| - 1;
      KernelShare(program, workers, items[..n], w)
      + if SocketOf(program, items[n].packet, workers) == w then [items[n]] else []
  }

  function QuicListener(workers: nat, max: Option<nat>): Listener.Config {
    Listener.Config(EffectiveLimit(max), packet => QuicRoute.AcceptsPacket(packet, workers))
  }

  /** Splitting by socket and then filtering is the same as routing, item by item and in order. */
  lemma {:induction false} ShareThenFilterIsRoute(
      program: Program, workers: nat, max: Option<nat>, items: seq<Item>, w: nat)
    requires 1 <= workers < 0x1_0000_0000 && w < workers
    ensures Listener.AcceptedOf(QuicListener(workers, max), KernelShare(program, workers, items, w))
         == RoutedTo(QuicConfig(workers, None), items, w)
  {
    if items != [] {
      var n := |items| - 1;
      var share := KernelShare(program, workers, items[..n], w);
      ShareThenFilterIsRoute(program, workers, max, items[..n], w);
      KeptWhereRouted(program, items[n].packet, workers, w);
      Listener.AcceptedOfAppend(QuicListener(workers, max), share, items[n]);
      assert share + [] == share;
    }
  }

  /**
   Run the simulated pipeline without a limit and a kernel-selected listener of worker `w`, in any two
   interleavings, on the same traffic split by either program, however much of it each has been sent and
   whether or not either has been closed. At every moment the handlers started for the worker are, on
   both sides, the first ones of the same routed sequence.
   */
  lemma ServingFollowsRouting(
      program: Program, workers: nat, max: Option<nat>, traffic: seq<Item>,
      simulated: seq<Pipeline.Event>, kernel: seq<Listener.Event>, w: nat)
    requires 1 <= workers < 0x1_0000_0000 && w < workers
    requires Genuine(Simulated(workers, simulated).arrived) <= traffic
    requires Genuine(Kernel(workers, max, kernel).arrived) <= KernelShare(program, workers, traffic, w)
    ensures var routed := RoutedTo(QuicConfig(workers, None), traffic, w);
            var p, l := Simulated(workers, simulated), Kernel(workers, max, kernel);
            && |p.workers| == workers
            && p.workers[w].started <= routed && l.started <= routed
            && (p.workers[w].started <= l.started || l.started <= p.workers[w].started)
  {
    var cfg, listener := QuicConfig(workers, None), QuicListener(workers, max);
    var p, l := Simulated(workers, simulated), Kernel(workers, max, kernel);
    RoutingsAreValid(workers, None);
    Pipeline.StartedFollowsRoute(cfg, simulated, w);
    RoutedToPrefix(cfg, Genuine(p.arrived), traffic, w);
    Listener.StartedFollowsArrivals(listener, kernel);
    Listener.AcceptedOfPrefix(listener, Genuine(l.arrived), KernelShare(program, workers, traffic, w));
    ShareThenFilterIsRoute(program, workers, max, traffic, w);
    PrefixesCompare(p.workers[w].started, l.started, RoutedTo(cfg, traffic, w));
  }

  lemma PrefixesCompare(a: seq<Item>, b: seq<Item>, whole: seq<Item>)
    requires a <= whole && b <= whole
    ensures a <= b || b <= a
  {
    assert a == whole[..|a|] && b == whole[..|b|];
  }

  function Simulated(workers: nat, schedule: seq<Pipeline.Event>): Pipeline.State {
    Pipeline.Run(QuicConfig(workers, None), Pipeline.Init(QuicConfig(workers, None)), schedule)
  }

  function Kernel(workers: nat, max: Option<nat>, schedule: seq<Listener.Event>): Listener.State {
    Listener.Run(QuicListener(workers, max), Listener.Init(), schedule)
  }

  /** Once both have been sent everything and have nothing left to do, they have started the same handlers. */
  lemma KernelServingRefinesRouting(
      program: Program, workers: nat, max: Option<nat>,
      simulated: seq<Pipeline.Event>, kernel: seq<Listener.Event>, w: nat)
    requires 1 <= workers < 0x1_0000_0000 && w < workers
    requires var p, l := Simulated(workers, simulated), Kernel(workers, max, kernel);
             && p.inbox == [] && p.receiver.Receiving?
             && |p.workers| == workers && p.workers[w].pc.Waiting? && p.workers[w].queue == []
             && l.inbox == [] && l.pc.AtReceive?
             && l.arrived == KernelShare(program, workers, p.arrived, w)
    ensures |Simulated(workers, simulated).workers| == workers
    ensures Kernel(workers, max, kernel).started == Simulated(workers, simulated).workers[w].started
         == RoutedTo(QuicConfig(workers, None), Simulated(workers, simulated).arrived, w)
  {
    var cfg := QuicConfig(workers, None);
    var p := Simulated(workers, simulated);
    RoutingsAreValid(workers, None);
    Pipeline.ReachableInv(cfg, simulated);
    Pipeline.UnlimitedWorkerGetsItsRoute(cfg, simulated, w);
    assert p.received == p.arrived;
    var k := p.workers[w];
    Pipeline.WorkerIsFifo(cfg, simulated, w);
    assert k.started + [] + [] + [] == k.started;
    Listener.WaitingListenerServedArrivals(QuicListener(workers, max), kernel);
    ShareThenFilterIsRoute(program, workers, max, p.arrived, w);
  }

  lemma {:induction false} ShareIsGenuine(program: Program, workers: nat, items: seq<Item>, w: nat)
    requires AllGenuine(items)
    ensures AllGenuine(KernelShare(program, workers, items, w))
  {
    if items != [] {
      var n := |items| - 1;
      assert !items[n].wake;
      ShareIsGenuine(program, workers, items[..n], w);
    }
  }

  lemma SimulatedServes(workers: nat, traffic: seq<Item>, w: nat)
    requires w < workers && AllGenuine(traffic)
    ensures var p := Simulated(workers, PipelineServing.ServeAll(QuicConfig(workers, None), traffic));
            && p.arrived == traffic && |p.workers| == workers
            && p.workers[w].started == RoutedTo(QuicConfig(workers, None), traffic, w)
  {
    RoutingsAreValid(workers, None);
    PipelineServing.AllTrafficCanBeServed(QuicConfig(workers, None), traffic);
  }

  lemma KernelServes(workers: nat, max: Option<nat>, share: seq<Item>)
    requires AllGenuine(share)
    ensures var listener := QuicListener(workers, max);
            var l := Kernel(workers, max, Listener.ServeAll(listener, share));
            l.arrived == share && l.started == Listener.AcceptedOf(listener, share)
  {
    Listener.AllTrafficCanBeServed(QuicListener(workers, max), share);
  }

  /** Any traffic can be served on both sides to the end, with the same handlers started for each worker. */
  lemma EveryTrafficIsServedAlike(program: Program, workers: nat, max: Option<nat>, traffic: seq<Item>, w: nat)
    returns (simulated: seq<Pipeline.Event>, kernel: seq<Listener.Event>)
    requires 1 <= workers < 0x1_0000_0000 && w < workers && AllGenuine(traffic)
    ensures var p, l := Simulated(workers, simulated), Kernel(workers, max, kernel);
            && p.arrived == traffic && l.arrived == KernelShare(program, workers, traffic, w)
            && |p.workers| == workers
            && l.started == p.workers[w].started == RoutedTo(QuicConfig(workers, None), traffic, w)
  {
    var share := KernelShare(program, workers, traffic, w);
    simulated := PipelineServing.ServeAll(QuicConfig(workers, None), traffic);
    kernel := Listener.ServeAll(QuicListener(workers, max), share);
    SimulatedServes(workers, traffic, w);
    ShareIsGenuine(program, workers, traffic, w);
    KernelServes(workers, max, share);
    ShareThenFilterIsRoute(program, workers, max, traffic, w);
  }

  /** A configured limit of one or more bounds the handlers that a kernel-selected listener has running. */
  lemma ConfiguredLimitHolds(workers: nat, max: nat, schedule: seq<Listener.Event>)
    requires max > 0
    ensures Kernel(workers, Some(max), schedule).running <= max
  {
    Listener.ListenerSafety(QuicListener(workers, Some(max)), schedule);
  }
}
