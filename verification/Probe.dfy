/**
 The start-up probe of the kernel's socket selection. The selector is any function from packets to
 sockets (or to none, for a lost packet). Everything sent to the port goes through it, probes and other
 packets alike, whenever the network chooses to deliver it: before a sweep over the sockets, between two
 receives, or while the sockets are drained. The deadline is the number of sweeps each probe is given.
 */
module Probe {
  import opened Bytes
  import opened QuicRoute
  import Serving

  datatype Error = InvalidInput | UnexpectedWorker | UnexpectedPacket | TimedOut | Io

  /** A packet reaching the port: one of the probes still in flight, or another sender's. */
  datatype Arrival = Sent(i: nat) | Stray(packet: Packet)

  /** What arrives before a sweep and before each socket's turn in it, and which sockets fail. */
  datatype Sweep = Sweep(before: seq<Arrival>, between: map<nat, seq<Arrival>>, failing: set<nat>)

  /** What happens just before one receive of the drain. */
  datatype Moment = Moment(arrivals: seq<Arrival>, fails: bool)

  const MAX_WORKERS: nat := 0x1_0000
  const PROBE_BUFFER: nat := 16

  function ProbePacket(expected: nat): (p: Packet)
    ensures |p| == 10
  {
    var index := expected % 0x1_0000;
    var high, low := index / 256, index % 256;
    [0xe0, 0, 0, 0, 1, 4, high, low, 0xa5, low]
  }

  /** What a receive into the 16-byte probe buffer leaves of a packet. */
  function Truncated(p: Packet): Packet {
    p[..Min(PROBE_BUFFER, |p|)]
  }

  /** The selector sends each probe to the socket it names. */
  ghost predicate SelectsProbes(selector: Packet -> Option<nat>, n: nat) {
    forall i :: 0 <= i < n ==> selector(ProbePacket(i)) == Some(i)
  }

  /** Nothing but the probe arrives. */
  predicate ProbeOnly(arrivals: seq<Arrival>) {
    arrivals == [] || arrivals == [Sent(0)]
  }

  /** A sweep that brings nothing but the probe, at any moment or not at all, and no errors. */
  predicate QuietSweep(sweep: Sweep) {
    ProbeOnly(sweep.before) && (forall j :: j in sweep.between ==> ProbeOnly(sweep.between[j])) && sweep.failing == {}
  }

  predicate Quiet(plan: seq<Sweep>) {
    forall i :: 0 <= i < |plan| ==> QuietSweep(plan[i])
  }

  /** Something arrives just before socket `j` is read. */
  predicate ArrivesAt(sweep: Sweep, j: nat) {
    j in sweep.between && sweep.between[j] != []
  }

  /** Something arrives before socket `k` has had its turn, `k` not included. */
  predicate Lands(sweep: Sweep, k: nat) {
    sweep.before != [] || exists j :: 0 <= j < k && ArrivesAt(sweep, j)
  }

  /** The probe lands no later than its socket's turn in some sweep, or anywhere in a sweep before the last. */
  predicate InTime(plan: seq<Sweep>, expected: nat, count: nat) {
    || (exists i :: 0 <= i < |plan| && Lands(plan[i], expected + 1))
    || (exists i :: 0 <= i < |plan| - 1 && Lands(plan[i], count))
  }

  ghost predicate AllQuiet(plans: nat -> seq<Sweep>, count: nat) {
    forall i :: 0 <= i < count ==> Quiet(plans(i))
  }

  ghost predicate AllInTime(plans: nat -> seq<Sweep>, count: nat) {
    forall i :: 0 <= i < count ==> InTime(plans(i), i, count)
  }

  /** What the wait makes of the first packet it reads. */
  function Verdict(isProbe: bool, isExpected: bool): Result<(), Error> {
    if isProbe && isExpected then Ok(()) else if isProbe then Err(UnexpectedWorker) else Err(UnexpectedPacket)
  }

  predicate Failing(script: seq<Moment>) {
    exists i :: 0 <= i < |script| && script[i].fails
  }

  predicate Silent(script: seq<Moment>) {
    forall i :: 0 <= i < |script| ==> script[i].arrivals == []
  }

  class Sockets {
    const selector: Packet -> Option<nat>
    const count: nat
    var queues: seq<seq<Packet>>
    var inFlight: seq<Packet>
    ghost var delivered: seq<seq<Packet>>  // all that ever landed on each socket
    ghost var read: seq<nat>               // how much of it was received

    constructor (selector: Packet -> Option<nat>, queues: seq<seq<Packet>>)
      ensures this.selector == selector && this.queues == queues && count == |queues| && inFlight == []
      ensures delivered == queues && read == seq(|queues|, _ => 0)
    {
      this.selector := selector;
      this.queues := queues;
      this.count := |queues|;
      this.inFlight := [];
      this.delivered := queues;
      this.read := seq(|queues|, _ => 0);
    }

    /** A probe may lie on a socket only if the selector sends it there. */
    ghost predicate Placed(p: Packet, k: nat) {
      forall i :: 0 <= i < count && p == ProbePacket(i) ==> selector(ProbePacket(i)) == Some(k)
    }

    /** Every queue is what landed on its socket and was not received, in order. */
    ghost predicate Kept()
      reads this
    {
      && |queues| == |delivered| == |read| == count
      && forall k :: 0 <= k < count ==> read[k] <= |delivered[k]| && queues[k] == delivered[k][read[k]..]
    }

    /** And every queued probe lies where the selector puts it. */
    ghost predicate Faithful()
      reads this
    {
      && Kept()
      && forall k, m :: 0 <= k < |queues| && 0 <= m < |queues[k]| ==> Placed(queues[k][m], k)
    }

    ghost predicate Empty()
      reads this
    {
      |queues| == count && forall k :: 0 <= k < count ==> queues[k] == []
    }

    /** Nothing that landed on a socket is forgotten. */
    twostate predicate Grown()
      reads this
    {
      |old(delivered)| == |delivered| && forall k :: 0 <= k < |delivered| ==> old(delivered)[k] <= delivered[k]
    }

    method Deliver(p: Packet)
      requires Faithful()
      modifies `queues, `delivered
      ensures Faithful() && Grown()
      ensures queues == if selector(p).Some? && selector(p).value < count
                        then old(queues)[selector(p).value := old(queues)[selector(p).value] + [p]]
                        else old(queues)
    {
      match selector(p) {
        case None =>
        case Some(k) =>
          if k < count {
            queues := queues[k := queues[k] + [p]];
            delivered := delivered[k := delivered[k] + [p]];
          }
      }
    }

    /** The network's turn. */
    method Network(arrivals: seq<Arrival>)
      requires Faithful()
      modifies `queues, `inFlight, `delivered
      ensures Faithful() && Grown()
      ensures arrivals == [] || (arrivals == [Sent(0)] && old(inFlight) == []) ==> unchanged(this)
      ensures arrivals == [Sent(0)] && |old(inFlight)| == 1 ==>
                var p := old(inFlight)[0];
                && inFlight == []
                && queues == if selector(p).Some? && selector(p).value < count
                             then old(queues)[selector(p).value := old(queues)[selector(p).value] + [p]]
                             else old(queues)
    {
      for j := 0 to |arrivals|
        invariant Faithful() && Grown()
        invariant j == 0 || (arrivals == [Sent(0)] && old(inFlight) == []) ==> unchanged(this)
        invariant j == 1 && arrivals == [Sent(0)] && |old(inFlight)| == 1 ==>
                    var p := old(inFlight)[0];
                    && inFlight == []
                    && queues == if selector(p).Some? && selector(p).value < count
                                 then old(queues)[selector(p).value := old(queues)[selector(p).value] + [p]]
                                 else old(queues)
      {
        match arrivals[j] {
          case Sent(i) =>
            if i < |inFlight| {
              Deliver(inFlight[i]);
              inFlight := inFlight[..i] + inFlight[i + 1..];
            }
          case Stray(p) =>
            Deliver(p);
        }
      }
    }

    /** A non-blocking receive into the probe buffer; an empty queue would block. */
    method Receive(k: nat, fails: bool) returns (r: Result<Option<Packet>, Error>)
      requires Faithful() && k < count
      modifies `queues, `read
      ensures Faithful()
      ensures fails ==> r == Err(Io) && unchanged(this)
      ensures !fails && old(queues)[k] == [] ==> r == Ok(None) && unchanged(this)
      ensures !fails && old(queues)[k] != [] ==>
                && r == Ok(Some(Truncated(old(queues)[k][0])))
                && queues == old(queues)[k := old(queues)[k][1..]]
                && read == old(read)[k := old(read)[k] + 1]
    {
      if fails {
        return Err(Io);
      }
      if queues[k] == [] {
        return Ok(None);
      }
      r := Ok(Some(Truncated(queues[k][0])));
      ghost var before := queues;
      queues := queues[k := queues[k][1..]];
      read := read[k := read[k] + 1];
      assert forall m :: 0 <= m < |queues[k]| ==> queues[k][m] == before[k][m + 1];
    }

    /** The queues hold this probe on socket `to` and nothing else. */
    ghost predicate OnlyProbe(expected: nat, to: nat)
      reads this
      requires to < count
    {
      && |queues| == count
      && queues[to] == [ProbePacket(expected)]
      && forall k :: 0 <= k < count && k != to ==> queues[k] == []
    }

    /** Nothing is queued and only this probe is in flight. */
    ghost predicate Flying(expected: nat)
      reads this
    {
      Empty() && inFlight == [ProbePacket(expected)]
    }

    /** The probe is still in flight or on socket `to`, where the selector sends it, and nothing else is around. */
    ghost predicate Alone(expected: nat, to: nat, arrived: bool)
      reads this
      requires to < count
    {
      && selector(ProbePacket(expected)) == Some(to)
      && if arrived then OnlyProbe(expected, to) && inFlight == [] else Flying(expected)
    }

    /** The selector sends this probe to none of the sockets. */
    ghost predicate Dropped(expected: nat) {
      selector(ProbePacket(expected)).Some? ==> selector(ProbePacket(expected)).value >= count
    }

    /** Such a probe is in flight or gone, and nothing else is around. */
    ghost predicate Lost(expected: nat)
      reads this
    {
      Dropped(expected) && Empty() && (inFlight == [] || inFlight == [ProbePacket(expected)])
    }

    /** The network's turn, and where it leaves a probe that is alone. */
    method ProbeNetwork(arrivals: seq<Arrival>, expected: nat, ghost to: nat, ghost arrived: bool)
      requires Faithful() && to < count
      modifies `queues, `inFlight, `delivered
      ensures Faithful() && Grown()
      ensures old(Alone(expected, to, arrived)) && ProbeOnly(arrivals) ==>
                Alone(expected, to, arrived || arrivals != [])
      ensures old(Lost(expected)) && ProbeOnly(arrivals) ==> Lost(expected)
    {
      Network(arrivals);
    }

    /** One look at one socket. */
    method LookAt(index: nat, expected: nat, sweep: Sweep, ghost to: nat, ghost arrived: bool)
      returns (r: Option<Result<(), Error>>)
      requires Faithful() && index < count && to < count
      modifies `queues, `inFlight, `delivered, `read
      ensures Faithful() && Grown()
      ensures r.Some? && r.value.Ok? ==> index == expected
      ensures r.Some? && r.value == Err(UnexpectedWorker) ==> index != expected
      ensures expected < count && r.Some? && (r.value.Ok? || r.value == Err(UnexpectedWorker)) ==>
                selector(ProbePacket(expected)) == Some(index)
      ensures old(Alone(expected, to, arrived)) && QuietSweep(sweep) ==>
                var here := arrived || ArrivesAt(sweep, index);
                if here && index == to then r == Some(Verdict(true, to == expected)) && Empty() && inFlight == []
                else r == None && Alone(expected, to, here)
      ensures old(Lost(expected)) && QuietSweep(sweep) ==> r == None && Lost(expected)
      ensures index in sweep.failing ==> r == Some(Err(Io))
      ensures index !in sweep.failing && index !in sweep.between && old(queues)[index] != [] ==>
                (old(queues)[index][0] != ProbePacket(expected) <==> r == Some(Err(UnexpectedPacket)))
    {
      if index in sweep.between {
        ProbeNetwork(sweep.between[index], expected, to, arrived);
      }
      ghost var before := queues;
      var got := Receive(index, index in sweep.failing);
      if got.Err? {
        return Some(Err(got.error));
      }
      if got.value.None? {
        return None;
      }
      assert Placed(before[index][0], index);
      TruncatedIsProbe(before[index][0], expected);
      return Some(Verdict(got.value.value == ProbePacket(expected), index == expected));
    }

    /** One look at every socket, ended by the first packet or failure. */
    method SweepOnce(expected: nat, sweep: Sweep, ghost to: nat, ghost arrived: bool)
      returns (r: Option<Result<(), Error>>)
      requires Faithful() && expected < count && to < count
      modifies `queues, `inFlight, `delivered, `read
      ensures Faithful() && Grown()
      ensures r.Some? ==> Truthful(r.value, expected)
      ensures old(Alone(expected, to, arrived)) && QuietSweep(sweep) ==>
                if arrived || Lands(sweep, to + 1)
                then r == Some(Verdict(true, to == expected)) && Empty() && inFlight == []
                else r == None && Alone(expected, to, Lands(sweep, count))
      ensures old(Lost(expected)) && QuietSweep(sweep) ==> r == None && Lost(expected)
    {
      ghost var quiet, lost := Alone(expected, to, arrived) && QuietSweep(sweep), Lost(expected) && QuietSweep(sweep);
      ProbeNetwork(sweep.before, expected, to, arrived);
      for index := 0 to count
        invariant Faithful() && Grown()
        invariant quiet ==> Alone(expected, to, arrived || Lands(sweep, index))
        invariant quiet && index > to ==> !arrived && !Lands(sweep, to + 1)
        invariant lost ==> Lost(expected)
      {
        assert Lands(sweep, index + 1) <==> Lands(sweep, index) || ArrivesAt(sweep, index);
        r := LookAt(index, expected, sweep, to, arrived || Lands(sweep, index));
        if r.Some? {
          return;
        }
      }
      r := None;
    }

    /** What a verdict on this probe says about the selector. */
    ghost predicate Truthful(r: Result<(), Error>, expected: nat) {
      && (r.Ok? ==> selector(ProbePacket(expected)) == Some(expected))
      && (r == Err(UnexpectedWorker) ==>
            && selector(ProbePacket(expected)).Some?
            && selector(ProbePacket(expected)).value < count
            && selector(ProbePacket(expected)).value != expected)
    }

    /** What the wait for this probe comes to when nothing else is around. */
    ghost function QuietVerdict(expected: nat, plan: seq<Sweep>): Result<(), Error> {
      var to := selector(ProbePacket(expected));
      if to.None? || to.value >= count || !InTime(plan, to.value, count) then Err(TimedOut)
      else if to.value == expected then Ok(())
      else Err(UnexpectedWorker)
    }

    /**
     Sweeps the sockets until a packet turns up. Under any traffic, success means the selector sent this
     probe to the expected socket, and "unexpected worker" that it sent it to another one. With nothing
     else around the verdict is exactly that, if the probe lands in time, and a timeout otherwise.
     */
    method WaitForProbe(expected: nat, plan: seq<Sweep>) returns (r: Result<(), Error>)
      requires Faithful() && expected < count
      modifies `queues, `inFlight, `delivered, `read
      ensures Faithful() && Grown() && Truthful(r, expected)
      ensures old(Flying(expected)) && Quiet(plan) ==> r == QuietVerdict(expected, plan)
      ensures old(Flying(expected)) && Quiet(plan) && r.Ok? ==> Empty() && inFlight == []
    {
      ghost var to := if Dropped(expected) then 0 else selector(ProbePacket(expected)).value;
      ghost var quiet, lost := Alone(expected, to, false) && Quiet(plan), Lost(expected) && Quiet(plan);
      ghost var arrived := false;
      for i := 0 to |plan|
        invariant Faithful() && Grown()
        invariant arrived <==> i > 0 && Lands(plan[i - 1], count)
        invariant quiet ==>
                    && Alone(expected, to, arrived)
                    && (forall j :: 0 <= j < i ==> !Lands(plan[j], to + 1))
                    && (forall j :: 0 <= j < i - 1 ==> !Lands(plan[j], count))
        invariant lost ==> Lost(expected)
      {
        var seen := SweepOnce(expected, plan[i], to, arrived);
        if seen.Some? {
          return seen.value;
        }
        arrived := Lands(plan[i], count);
      }
      r := Err(TimedOut);
    }

    /**
     Reads each socket until it is empty, unless one fails. All that had landed on any socket when the
     drain began is then gone; what a queue holds arrived later, and if nothing did, all are empty.
     */
    method Drain(script: seq<Moment>) returns (r: Result<(), Error>)
      requires Faithful()
      modifies `queues, `inFlight, `delivered, `read
      ensures Faithful() && Grown()
      ensures r.Ok? ==> forall k :: 0 <= k < count ==> read[k] >= |old(delivered)[k]|
      ensures r.Ok? && Silent(script) ==> Empty()
      ensures !Failing(script) ==> r.Ok?
    {
      var used := 0;
      for k := 0 to count
        invariant Faithful() && Grown() && used <= |script|
        invariant forall j :: 0 <= j < k ==> read[j] >= |old(delivered)[j]|
        invariant Silent(script) ==> delivered == old(delivered)
      {
        while true
          invariant Faithful() && Grown() && used <= |script|
          invariant forall j :: 0 <= j < k ==> read[j] >= |old(delivered)[j]|
          invariant Silent(script) ==> delivered == old(delivered)
          decreases |script| - used, |queues[k]|
        {
          var fails := false;
          if used < |script| {
            Network(script[used].arrivals);
            fails := script[used].fails;
            used := used + 1;
          }
          var got := Receive(k, fails);
          if got.Err? {
            return Err(got.error);
          }
          if got.value.None? {
            break;
          }
        }
      }
      r := Ok(());
    }

    /** Sends each probe and waits for it, up to the first that does not pass. */
    method ProbeAll(plans: nat -> seq<Sweep>) returns (r: Result<(), Error>)
      requires Faithful()
      modifies `queues, `inFlight, `delivered, `read
      ensures Faithful() && Grown()
      ensures r.Ok? ==> SelectsProbes(selector, count)
      ensures old(Empty()) && old(inFlight) == [] && AllQuiet(plans, count) && SelectsProbes(selector, count) ==>
                (r.Ok? <==> AllInTime(plans, count))
    {
      ghost var clean := Empty() && inFlight == [] && AllQuiet(plans, count) && SelectsProbes(selector, count);
      for expected := 0 to count
        invariant Faithful() && Grown()
        invariant forall i :: 0 <= i < expected ==> selector(ProbePacket(i)) == Some(i)
        invariant clean ==> Empty() && inFlight == [] && forall i :: 0 <= i < expected ==> InTime(plans(i), i, count)
      {
        inFlight := inFlight + [ProbePacket(expected)];
        r := WaitForProbe(expected, plans(expected));
        if r.Err? {
          return;
        }
      }
      r := Ok(());
    }

    /**
     The whole probe. It passes only a selector that sends probe i to socket i for every socket, and reads
     off the sockets all that had landed there (`landed`) when the last probe had been seen. When nothing
     else is around it passes exactly if the selector does so and every probe lands in time.
     */
    method RoutesProbes(plans: nat -> seq<Sweep>, script: seq<Moment>)
      returns (r: Result<(), Error>, ghost landed: seq<seq<Packet>>)
      requires Faithful()
      modifies `queues, `inFlight, `delivered, `read
      ensures count == 0 || count > 65536 ==> r == Err(InvalidInput) && queues == old(queues)
      ensures r.Ok? ==> SelectsProbes(selector, count)
      ensures r.Ok? ==> |landed| == |read| == |delivered| == |queues| == count == |old(delivered)| && Kept()
      ensures r.Ok? ==> forall k :: 0 <= k < count ==>
                          old(delivered)[k] <= landed[k] <= delivered[k] && |landed[k]| <= read[k]
      ensures r.Ok? && Silent(script) ==> Empty()
      ensures 1 <= count <= 65536 && old(Empty()) && old(inFlight) == [] && !Failing(script)
              && AllQuiet(plans, count) ==>
                (r.Ok? <==> SelectsProbes(selector, count) && AllInTime(plans, count))
    {
      landed := delivered;
      if count == 0 || count > MAX_WORKERS {
        return Err(InvalidInput), landed;
      }
      r := ProbeAll(plans);
      if r.Ok? {
        landed := delivered;
        r := Drain(script);
      }
    }
  }

  /** The probe buffer is longer than a probe, so what it holds is the probe only if the packet was. */
  lemma TruncatedIsProbe(p: Packet, i: nat)
    ensures Truncated(p) == ProbePacket(i) <==> p == ProbePacket(i)
  {
    if |p| <= PROBE_BUFFER {
      assert Truncated(p) == p;
    }
  }

  lemma ProbeIndex(i: nat, workers: nat)
    requires i < workers <= 65536
    ensures WorkerIndex(ProbePacket(i), workers) == Some(i)
  {
    var p := ProbePacket(i);
    WorkerIndexMeaning(p, workers);
    QuotientIs(i, 0x1_0000, 0, i);
    assert IndexAt(p, 6) == i;
    QuotientIs(i, workers, 0, i);
  }

  function UserspaceSelector(workers: nat): Packet -> Option<nat> {
    p => WorkerIndex(p, workers)
  }

  function KernelSelector(program: Serving.Program, workers: nat): Packet -> Option<nat> {
    p => if |p| <= MAX_DATAGRAM then Some(Serving.SocketOf(program, p, workers)) else None
  }

  /** Userspace routing and both kernel programs pass the probe for every worker count it admits. */
  lemma RoutingsPassProbe(program: Serving.Program, workers: nat)
    requires 1 <= workers <= 65536
    ensures SelectsProbes(UserspaceSelector(workers), workers)
    ensures SelectsProbes(KernelSelector(program, workers), workers)
  {
    forall i | 0 <= i < workers
      ensures WorkerIndex(ProbePacket(i), workers) == Some(i)
      ensures Serving.SocketOf(program, ProbePacket(i), workers) == i
    {
      ProbeIndex(i, workers);
      Serving.KeptWhereRouted(program, ProbePacket(i), workers, i);
    }
  }
}
