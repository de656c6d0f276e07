/** What the servers receive and how they spread it over their workers. */
module Traffic {
  import opened Bytes
  import opened WorkerHash
  import QuicRoute

  /** A datagram or connection; `wake` marks the one-byte datagram that closing sends to unblock a receiver. */
  datatype Item = Item(packet: Datagram, meta: PacketMeta, wake: bool)

  /** A limit of zero, like no limit, means no bound. */
  function EffectiveLimit(max: Option<nat>): Option<nat> {
    if max.Some? && max.value > 0 then max else None
  }

  const WORK_QUEUE_CAPACITY: nat := 4096

  datatype Config = Config(
    workers: nat,
    max: Option<nat>,
    capacity: nat,
    route: (Datagram, PacketMeta) -> Option<nat>)
  {
    function RouteOf(item: Item): Option<nat> { route(item.packet, item.meta) }

    ghost predicate Valid() {
      && (max.Some? ==> max.value > 0)
      && (forall p, m :: route(p, m).Some? ==> route(p, m).value < workers)
    }
  }

  function QuicConfig(workers: nat, max: Option<nat>): Config {
    Config(workers, EffectiveLimit(max), WORK_QUEUE_CAPACITY, (p, m) => QuicRoute.WorkerIndex(p, workers))
  }

  function OkOrNone<T, E>(r: Result<T, E>): Option<T> {
    if r.Ok? then Some(r.value) else None
  }

  function UdpConfig(workers: nat, max: Option<nat>): Config {
    Config(workers, EffectiveLimit(max), WORK_QUEUE_CAPACITY, (p, m) => OkOrNone(Selected(m, workers)))
  }

  function TcpConfig(workers: nat, max: Option<nat>): Config {
    Config(workers, EffectiveLimit(max), WORK_QUEUE_CAPACITY, (p, m) => OkOrNone(SelectedTcp(m, workers)))
  }

  lemma RoutingsAreValid(workers: nat, max: Option<nat>)
    ensures QuicConfig(workers, max).Valid()
    ensures UdpConfig(workers, max).Valid()
    ensures TcpConfig(workers, max).Valid()
  {
  }

  /** UDP routes by the flow hash over all workers. */
  lemma UdpRoutesByHash(workers: nat, max: Option<nat>, item: Item, w: nat)
    requires w < workers
    ensures UdpConfig(workers, max).RouteOf(item) == Some(w) <==> (Flow(item.meta) - w) % workers == 0
  {
    SelectedIsResidue(item.meta, workers, w);
  }

  /** TCP leaves worker 0 out and routes by the flow hash over the others. */
  lemma TcpRoutesByHash(workers: nat, max: Option<nat>, item: Item, w: nat)
    requires 0 < w < workers
    ensures TcpConfig(workers, max).RouteOf(item) == Some(w) <==> (Flow(item.meta) - (w - 1)) % (workers - 1) == 0
    ensures TcpConfig(workers, max).RouteOf(item) != Some(0)
  {
    SelectedTcpIsResidue(item.meta, workers, w - 1);
  }

  /** The items that route to one worker, in order. */
  function RoutedTo(cfg: Config, items: seq<Item>, w: nat): seq<Item> {
    if items == [] then []
    else
      var n := |items| - 1;
      RoutedTo(cfg, items[..n], w) + if cfg.RouteOf(items[n]) == Some(w) then [items[n]] else []
  }

  lemma RoutedToAppend(cfg: Config, items: seq<Item>, item: Item, w: nat)
    ensures RoutedTo(cfg, items + [item], w)
         == RoutedTo(cfg, items, w) + if cfg.RouteOf(item) == Some(w) then [item] else []
  {
    assert (items + [item])[..|items|] == items;
  }

  lemma {:induction false} RoutedToPrefix(cfg: Config, a: seq<Item>, b: seq<Item>, w: nat)
    requires a <= b
    ensures RoutedTo(cfg, a, w) <= RoutedTo(cfg, b, w)
    decreases |b|
  {
    if a != b {
      RoutedToPrefix(cfg, a, b[..|b| - 1], w);
    }
  }

  /** What peers sent, without the wakes of a close. */
  function Genuine(items: seq<Item>): seq<Item> {
    if items == [] then []
    else
      var n := |items| - 1;
      Genuine(items[..n]) + if items[n].wake then [] else [items[n]]
  }

  predicate AllGenuine(items: seq<Item>) {
    forall i :: 0 <= i < |items| ==> !items[i].wake
  }

  lemma {:induction false} GenuineWhole(items: seq<Item>)
    requires AllGenuine(items)
    ensures Genuine(items) == items
  {
    if items != [] {
      GenuineWhole(items[..|items| - 1]);
    }
  }

  /** A wake-free prefix of the arrivals is a prefix of the genuine ones. */
  lemma {:induction false} GenuinePrefix(a: seq<Item>, b: seq<Item>)
    requires a <= b && AllGenuine(a)
    ensures a <= Genuine(b)
    decreases |b|
  {
    if a == b {
      GenuineWhole(a);
    } else {
      GenuinePrefix(a, b[..|b| - 1]);
    }
  }
}
