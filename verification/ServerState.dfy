/** The registries behind a server handle and what closing does to them, as a log of outside effects. */
module ServerState {
  import opened Bytes

  datatype Error = Closed | NoListenerSocket

  datatype Effect =
    | FlagCleared
    | Woken(socket: nat)      // the one-byte datagram was sent to the socket
    | ShutDown(socket: nat)
    | Cancelled(task: nat)

  function Wakes(sockets: seq<nat>): (e: seq<Effect>)
    ensures |e| == |sockets|
  {
    seq(|sockets|, i requires 0 <= i < |sockets| => Woken(sockets[i]))
  }

  function ShutDowns(sockets: seq<nat>): (e: seq<Effect>)
    ensures |e| == |sockets|
  {
    seq(|sockets|, i requires 0 <= i < |sockets| => ShutDown(sockets[i]))
  }

  function Cancels(tasks: seq<nat>): (e: seq<Effect>)
    ensures |e| == |tasks|
  {
    seq(|tasks|, i requires 0 <= i < |tasks| => Cancelled(tasks[i]))
  }

  /** Everything a close does: the flag first, each registry's wakes before its shutdowns, the tasks last. */
  function Closing(sockets: seq<nat>, closeSockets: seq<nat>, tasks: seq<nat>): seq<Effect> {
    [FlagCleared]
    + (Wakes(sockets) + ShutDowns(sockets))
    + (Wakes(closeSockets) + ShutDowns(closeSockets))
    + Cancels(tasks)
  }

  /** No socket is woken before the flag is down, so a received wake always finds it down. */
  lemma WakesFollowTheFlag(sockets: seq<nat>, closeSockets: seq<nat>, tasks: seq<nat>, i: nat)
    requires i < |Closing(sockets, closeSockets, tasks)|
    ensures Closing(sockets, closeSockets, tasks)[i].FlagCleared? <==> i == 0
  {
    var a := Wakes(sockets) + ShutDowns(sockets);
    var b := Wakes(closeSockets) + ShutDowns(closeSockets);
    var c := Cancels(tasks);
    assert forall k :: 0 <= k < |a| ==> !a[k].FlagCleared?;
    assert forall k :: 0 <= k < |b| ==> !b[k].FlagCleared?;
    assert forall k :: 0 <= k < |c| ==> !c[k].FlagCleared?;
  }

  /** Tasks are cancelled only after every socket has been dealt with. */
  lemma TasksCancelledLast(sockets: seq<nat>, closeSockets: seq<nat>, tasks: seq<nat>, i: nat, j: nat)
    requires i <= j < |Closing(sockets, closeSockets, tasks)| && Closing(sockets, closeSockets, tasks)[i].Cancelled?
    ensures Closing(sockets, closeSockets, tasks)[j].Cancelled?
  {
    var a := Wakes(sockets) + ShutDowns(sockets);
    var b := Wakes(closeSockets) + ShutDowns(closeSockets);
    var c := Cancels(tasks);
    assert forall k :: 0 <= k < |a| ==> !a[k].Cancelled?;
    assert forall k :: 0 <= k < |b| ==> !b[k].Cancelled?;
    assert forall k :: 0 <= k < |c| ==> c[k].Cancelled?;
  }

  /** The socket was woken and, after that, shut down. */
  ghost predicate Retired(log: seq<Effect>, socket: nat) {
    exists i, j :: 0 <= i < j < |log| && log[i] == Woken(socket) && log[j] == ShutDown(socket)
  }

  lemma RetiredWithin(before: seq<Effect>, log: seq<Effect>, after: seq<Effect>, socket: nat)
    requires Retired(log, socket)
    ensures Retired(before + log + after, socket)
  {
    var i, j :| 0 <= i < j < |log| && log[i] == Woken(socket) && log[j] == ShutDown(socket);
    var whole, n := before + log + after, |before|;
    assert whole[n + i] == Woken(socket) && whole[n + j] == ShutDown(socket);
  }

  lemma RegistryRetired(registry: seq<nat>, socket: nat)
    requires socket in registry
    ensures Retired(Wakes(registry) + ShutDowns(registry), socket)
  {
    var i :| 0 <= i < |registry| && registry[i] == socket;
    var log, n := Wakes(registry) + ShutDowns(registry), |registry|;
    assert log[i] == Woken(socket) && log[n + i] == ShutDown(socket);
  }

  /** A close retires every socket of either registry. */
  lemma ClosingRetires(sockets: seq<nat>, closeSockets: seq<nat>, tasks: seq<nat>, socket: nat)
    requires socket in sockets || socket in closeSockets
    ensures Retired(Closing(sockets, closeSockets, tasks), socket)
  {
    var first := Wakes(sockets) + ShutDowns(sockets);
    var second := Wakes(closeSockets) + ShutDowns(closeSockets);
    var all := Closing(sockets, closeSockets, tasks);
    if socket in sockets {
      RegistryRetired(sockets, socket);
      RetiredWithin([FlagCleared], first, second + Cancels(tasks), socket);
      assert all == [FlagCleared] + first + (second + Cancels(tasks));
    } else {
      RegistryRetired(closeSockets, socket);
      RetiredWithin([FlagCleared] + first, second, Cancels(tasks), socket);
      assert all == ([FlagCleared] + first) + second + Cancels(tasks);
    }
  }

  // ---------- which sockets a history of calls retires ----------

  predicate Pooled(threadSockets: map<nat, nat>, sockets: seq<nat>) {
    forall t :: t in threadSockets ==> threadSockets[t] in sockets
  }

  predicate Known(handedOut: set<nat>, calls: seq<Call>) {
    forall k :: k in handedOut ==> Registered(calls, k)
  }

  lemma PooledAppend(threadSockets: map<nat, nat>, sockets: seq<nat>, thread: nat, socket: nat)
    requires Pooled(threadSockets, sockets)
    ensures Pooled(threadSockets[thread := socket], sockets + [socket])
  {
  }

  lemma KnownAppend(handedOut: set<nat>, calls: seq<Call>, c: Call)
    requires Known(handedOut, calls)
    ensures Known(handedOut, calls + [c])
  {
  }

  datatype Call =
    | RegisterSocket(socket: nat)
    | RegisterCloseSocket(socket: nat)
    | RegisterTask(task: nat)
    | CloseServer

  datatype Registries = Registries(sockets: seq<nat>, closeSockets: seq<nat>, tasks: seq<nat>, log: seq<Effect>) {
    predicate Has(socket: nat) { socket in sockets || socket in closeSockets }
  }

  function Apply(r: Registries, c: Call): Registries {
    match c
    case RegisterSocket(socket) => r.(sockets := r.sockets + [socket])
    case RegisterCloseSocket(socket) => r.(closeSockets := r.closeSockets + [socket])
    case RegisterTask(task) => r.(tasks := r.tasks + [task])
    case CloseServer => Registries([], [], [], r.log + Closing(r.sockets, r.closeSockets, r.tasks))
  }

  function After(calls: seq<Call>): Registries {
    if calls == [] then Registries([], [], [], []) else Apply(After(calls[..|calls| - 1]), calls[|calls| - 1])
  }

  lemma AfterAppend(calls: seq<Call>, c: Call)
    ensures After(calls + [c]) == Apply(After(calls), c)
  {
    assert (calls + [c])[..|calls|] == calls;
  }

  predicate Registered(calls: seq<Call>, socket: nat) {
    RegisterSocket(socket) in calls || RegisterCloseSocket(socket) in calls
  }

  /** Some close comes after a registration of the socket. */
  predicate ClosedAfter(calls: seq<Call>, socket: nat) {
    exists j :: 0 <= j < |calls| && calls[j].CloseServer? && Registered(calls[..j], socket)
  }

  lemma ClosedAfterAppend(calls: seq<Call>, c: Call, socket: nat)
    ensures Registered(calls + [c], socket) <==>
            Registered(calls, socket) || c == RegisterSocket(socket) || c == RegisterCloseSocket(socket)
    ensures ClosedAfter(calls + [c], socket) <==>
            ClosedAfter(calls, socket) || (c.CloseServer? && Registered(calls, socket))
  {
    var all, n := calls + [c], |calls|;
    assert forall j :: 0 <= j <= n ==> all[..j] == calls[..j];
    assert calls[..n] == calls;
    if ClosedAfter(calls, socket) {
      var j :| 0 <= j < n && calls[j].CloseServer? && Registered(calls[..j], socket);
      assert all[j].CloseServer? && Registered(all[..j], socket);
    }
    if c.CloseServer? && Registered(calls, socket) {
      assert all[n].CloseServer? && Registered(all[..n], socket);
    }
    if ClosedAfter(all, socket) {
      var j :| 0 <= j < n + 1 && all[j].CloseServer? && Registered(all[..j], socket);
      assert j < n ==> calls[j].CloseServer? && Registered(calls[..j], socket);
    }
  }

  /** A registered socket is still in a registry or a close came after it. */
  lemma {:induction false} RegisteredOrClosed(calls: seq<Call>, socket: nat)
    ensures Registered(calls, socket) <==> After(calls).Has(socket) || ClosedAfter(calls, socket)
  {
    if calls != [] {
      var n := |calls| - 1;
      RegisteredOrClosed(calls[..n], socket);
      ClosedAfterAppend(calls[..n], calls[n], socket);
      assert calls == calls[..n] + [calls[n]];
    }
  }

  /** A close shuts down only what is registered. */
  lemma ClosingOnlyRegistered(r: Registries, i: nat, socket: nat)
    requires i < |Closing(r.sockets, r.closeSockets, r.tasks)|
    requires Closing(r.sockets, r.closeSockets, r.tasks)[i] == ShutDown(socket)
    ensures r.Has(socket)
  {
    var a := Wakes(r.sockets) + ShutDowns(r.sockets);
    var b := Wakes(r.closeSockets) + ShutDowns(r.closeSockets);
    var c := Cancels(r.tasks);
    assert forall k :: 0 <= k < |a| && a[k] == ShutDown(socket) ==> socket in r.sockets;
    assert forall k :: 0 <= k < |b| && b[k] == ShutDown(socket) ==> socket in r.closeSockets;
    assert forall k :: 0 <= k < |c| ==> c[k].Cancelled?;
  }

  lemma CloseRetiresIff(r: Registries, socket: nat)
    ensures Retired(Apply(r, CloseServer).log, socket) <==> Retired(r.log, socket) || r.Has(socket)
  {
    var closing := Closing(r.sockets, r.closeSockets, r.tasks);
    var all, n := r.log + closing, |r.log|;
    if r.Has(socket) {
      ClosingRetires(r.sockets, r.closeSockets, r.tasks, socket);
      RetiredWithin(r.log, closing, [], socket);
      assert r.log + closing + [] == all;
    }
    if Retired(r.log, socket) {
      RetiredWithin([], r.log, closing, socket);
      assert [] + r.log + closing == all;
    }
    if Retired(all, socket) && !r.Has(socket) {
      var i, j :| 0 <= i < j < |all| && all[i] == Woken(socket) && all[j] == ShutDown(socket);
      if j >= n {
        ClosingOnlyRegistered(r, j - n, socket);
      }
      assert r.log[i] == Woken(socket) && r.log[j] == ShutDown(socket);
    }
  }

  /**
   After any history of calls: a socket has been woken and then shut down exactly when some close came
   after a registration of it. Registering does not read the flag, so this is not every registered socket.
   */
  lemma {:induction false} RetiredIffClosedAfter(calls: seq<Call>, socket: nat)
    ensures Retired(After(calls).log, socket) <==> ClosedAfter(calls, socket)
  {
    if calls != [] {
      var n := |calls| - 1;
      var before := calls[..n];
      RetiredIffClosedAfter(before, socket);
      RegisteredOrClosed(before, socket);
      ClosedAfterAppend(before, calls[n], socket);
      CloseRetiresIff(After(before), socket);
      assert calls == before + [calls[n]];
    }
  }

  ghost predicate AllRetired(calls: seq<Call>, log: seq<Effect>) {
    forall k :: Registered(calls, k) ==> Retired(log, k)
  }

  lemma CloseRetiresAll(calls: seq<Call>)
    ensures AllRetired(calls, Apply(After(calls), CloseServer).log)
  {
    AfterAppend(calls, CloseServer);
    forall k | Registered(calls, k)
      ensures Retired(After(calls + [CloseServer]).log, k)
    {
      ClosedAfterAppend(calls, CloseServer, k);
      RetiredIffClosedAfter(calls + [CloseServer], k);
    }
  }

  // ---------- how often ----------

  lemma {:induction false} WakeCounts(ids: seq<nat>, x: nat)
    ensures var m := multiset(Wakes(ids));
            m[Woken(x)] == multiset(ids)[x] && m[ShutDown(x)] == 0 && m[Cancelled(x)] == 0
  {
    if ids != [] {
      var n := |ids| - 1;
      WakeCounts(ids[..n], x);
      assert ids == ids[..n] + [ids[n]] && Wakes(ids) == Wakes(ids[..n]) + [Woken(ids[n])];
    }
  }

  lemma {:induction false} ShutDownCounts(ids: seq<nat>, x: nat)
    ensures var m := multiset(ShutDowns(ids));
            m[ShutDown(x)] == multiset(ids)[x] && m[Woken(x)] == 0 && m[Cancelled(x)] == 0
  {
    if ids != [] {
      var n := |ids| - 1;
      ShutDownCounts(ids[..n], x);
      assert ids == ids[..n] + [ids[n]] && ShutDowns(ids) == ShutDowns(ids[..n]) + [ShutDown(ids[n])];
    }
  }

  lemma {:induction false} CancelCounts(ids: seq<nat>, x: nat)
    ensures var m := multiset(Cancels(ids));
            m[Cancelled(x)] == multiset(ids)[x] && m[Woken(x)] == 0 && m[ShutDown(x)] == 0
  {
    if ids != [] {
      var n := |ids| - 1;
      CancelCounts(ids[..n], x);
      assert ids == ids[..n] + [ids[n]] && Cancels(ids) == Cancels(ids[..n]) + [Cancelled(ids[n])];
    }
  }

  /** A close wakes and shuts down each socket, and cancels each task, as often as it is registered. */
  lemma ClosingCounts(sockets: seq<nat>, closeSockets: seq<nat>, tasks: seq<nat>, x: nat)
    ensures var closing := multiset(Closing(sockets, closeSockets, tasks));
            && closing[Woken(x)] == closing[ShutDown(x)] == multiset(sockets)[x] + multiset(closeSockets)[x]
            && closing[Cancelled(x)] == multiset(tasks)[x]
  {
    WakeCounts(sockets, x);
    ShutDownCounts(sockets, x);
    WakeCounts(closeSockets, x);
    ShutDownCounts(closeSockets, x);
    CancelCounts(tasks, x);
  }

  /** Every registration of a task is answered by one cancel or still waits for it; likewise for sockets. */
  predicate Balanced(r: Registries, calls: multiset<Call>, x: nat) {
    && multiset(r.log)[Cancelled(x)] + multiset(r.tasks)[x] == calls[Call.RegisterTask(x)]
    && multiset(r.log)[Woken(x)] == multiset(r.log)[ShutDown(x)]
    && multiset(r.log)[Woken(x)] + multiset(r.sockets)[x] + multiset(r.closeSockets)[x]
    == calls[RegisterSocket(x)] + calls[RegisterCloseSocket(x)]
  }

  lemma RegisterKeepsBalance(r: Registries, calls: multiset<Call>, c: Call, x: nat)
    requires Balanced(r, calls, x) && !c.CloseServer?
    ensures Balanced(Apply(r, c), calls + multiset{c}, x)
  {
  }

  lemma CloseKeepsBalance(r: Registries, calls: multiset<Call>, x: nat)
    requires Balanced(r, calls, x)
    ensures Balanced(Apply(r, CloseServer), calls + multiset{CloseServer}, x)
  {
    ClosingCounts(r.sockets, r.closeSockets, r.tasks, x);
  }

  lemma {:induction false} EffectsMatchRegistrations(calls: seq<Call>, x: nat)
    ensures Balanced(After(calls), multiset(calls), x)
  {
    if calls != [] {
      var n := |calls| - 1;
      EffectsMatchRegistrations(calls[..n], x);
      assert calls == calls[..n] + [calls[n]];
      if calls[n].CloseServer? {
        CloseKeepsBalance(After(calls[..n]), multiset(calls[..n]), x);
      } else {
        RegisterKeepsBalance(After(calls[..n]), multiset(calls[..n]), calls[n], x);
      }
    }
  }

  /** So after a close each task has been cancelled exactly as often as it was ever registered. */
  lemma CloseCancelsEachOnce(calls: seq<Call>, x: nat)
    ensures multiset(After(calls + [CloseServer]).log)[Cancelled(x)] == multiset(calls)[Call.RegisterTask(x)]
  {
    EffectsMatchRegistrations(calls + [CloseServer], x);
    AfterAppend(calls, CloseServer);
  }

  /** A socket first registered after the last close stays in the pool, neither woken nor shut down. */
  lemma LateSocketOutlivesClose(calls: seq<Call>, socket: nat)
    requires !Registered(calls, socket)
    ensures var late := calls + [CloseServer, RegisterSocket(socket)];
            && Registered(late, socket) && After(late).Has(socket) && !Retired(After(late).log, socket)
  {
    var closed := calls + [CloseServer];
    var late := calls + [CloseServer, RegisterSocket(socket)];
    assert late == closed + [RegisterSocket(socket)];
    ClosedAfterAppend(calls, CloseServer, socket);
    ClosedAfterAppend(closed, RegisterSocket(socket), socket);
    RegisteredOrClosed(calls, socket);
    AfterAppend(closed, RegisterSocket(socket));
    RetiredIffClosedAfter(late, socket);
  }

  lemma ClosingInOrder(
      before: seq<Effect>, sockets: seq<nat>, closeSockets: seq<nat>, tasks: seq<nat>, after: seq<Effect>)
    requires after == before + [FlagCleared]
                      + (Wakes(sockets) + ShutDowns(sockets))
                      + (Wakes(closeSockets) + ShutDowns(closeSockets))
                      + Cancels(tasks)
    ensures after == before + Closing(sockets, closeSockets, tasks)
  {
  }

  /** Which pool socket a thread without its own is given. */
  function Choice(counter: nat, clock: nat, n: nat): (i: nat)
    requires n > 0
    ensures i < n
  {
    Xor(counter, clock) % n
  }

  /** Whatever the counter, every pool socket is the choice at some time. */
  lemma EverySocketHasItsTime(counter: u64, n: nat, i: nat) returns (clock: u64)
    requires i < n <= U64_RANGE
    ensures Choice(counter, clock, n) == i
  {
    Pow2Is64();
    XorBound(i, counter, 64);
    clock := Xor(i, counter);
    XorCancels(i, counter);
    XorSymmetric(clock, counter);
    QuotientIs(i, n, 0, i);
  }

  class UdpServerState {
    var active: bool
    var tasks: seq<nat>
    var callbackTasks: seq<nat>
    var sockets: seq<nat>
    var closeSockets: seq<nat>
    var threadSockets: map<nat, nat>
    var nextSocket: nat
    ghost var log: seq<Effect>
    ghost var calls: seq<Call>
    ghost var handedOut: set<nat>

    /**
     The registries and the effects so far are those of the calls made. Every thread's socket is in the
     pool, and every socket ever handed out was registered.
     */
    ghost predicate Valid()
      reads this
    {
      && After(calls) == Registries(sockets, closeSockets, tasks, log)
      && Pooled(threadSockets, sockets)
      && Known(handedOut, calls)
    }

    constructor ()
      ensures Valid() && handedOut == {} && calls == []
      ensures active && tasks == [] && callbackTasks == [] && sockets == [] && closeSockets == []
      ensures threadSockets == map[] && nextSocket == 0 && log == []
    {
      active := true;
      tasks, callbackTasks, sockets, closeSockets := [], [], [], [];
      threadSockets, nextSocket, log, calls, handedOut := map[], 0, [], [], {};
    }

    /** Notes a call. */
    ghost method Record(c: Call)
      modifies `calls
      ensures calls == old(calls) + [c] && After(calls) == Apply(old(After(calls)), c)
      ensures old(Known(handedOut, calls)) ==> Known(handedOut, calls)
    {
      AfterAppend(calls, c);
      if Known(handedOut, calls) {
        KnownAppend(handedOut, calls, c);
      }
      calls := calls + [c];
    }

    /** A thread's latest socket answers for the thread; every socket joins the pool. */
    method RegisterListenerSocket(thread: nat, socket: nat)
      requires Valid()
      modifies `threadSockets, `sockets, `calls
      ensures Valid() && calls == old(calls) + [RegisterSocket(socket)]
      ensures threadSockets == old(threadSockets)[thread := socket]
      ensures sockets == old(sockets) + [socket]
    {
      PooledAppend(threadSockets, sockets, thread, socket);
      threadSockets := threadSockets[thread := socket];
      sockets := sockets + [socket];
      Record(RegisterSocket(socket));
    }

    method RegisterCloseSocket(socket: nat)
      requires Valid()
      modifies `closeSockets, `calls
      ensures Valid() && calls == old(calls) + [Call.RegisterCloseSocket(socket)]
      ensures closeSockets == old(closeSockets) + [socket]
    {
      Record(Call.RegisterCloseSocket(socket));
      closeSockets := closeSockets + [socket];
    }

    method RegisterTask(task: nat)
      requires Valid()
      modifies `tasks, `calls
      ensures Valid() && calls == old(calls) + [Call.RegisterTask(task)]
      ensures tasks == old(tasks) + [task]
    {
      Record(Call.RegisterTask(task));
      tasks := tasks + [task];
    }

    /** Wakes every socket of a registry, then shuts each down. */
    method WakeAndShutDown(registry: seq<nat>)
      modifies `log
      ensures log == old(log) + (Wakes(registry) + ShutDowns(registry))
    {
      for i := 0 to |registry|
        invariant log == old(log) + Wakes(registry[..i])
      {
        log := log + [Woken(registry[i])];
        assert Wakes(registry[..i + 1]) == Wakes(registry[..i]) + [Woken(registry[i])];
      }
      assert registry[..|registry|] == registry;
      for i := 0 to |registry|
        invariant log == old(log) + (Wakes(registry) + ShutDowns(registry[..i]))
      {
        log := log + [ShutDown(registry[i])];
        assert ShutDowns(registry[..i + 1]) == ShutDowns(registry[..i]) + [ShutDown(registry[i])];
      }
    }

    /**
     Empties every registry: each pool socket is woken and shut down once, each task cancelled once, the
     callback tasks merely forgotten. Every socket registered so far, so every socket any thread was ever
     given, has then been woken and shut down. A second close only stores the flag again.
     */
    method Close()
      requires Valid()
      modifies this
      ensures Valid() && handedOut == old(handedOut) && calls == old(calls) + [CloseServer]
      ensures Known(handedOut, old(calls)) && AllRetired(old(calls), log)
      ensures !active && tasks == [] && callbackTasks == [] && sockets == [] && closeSockets == []
      ensures threadSockets == map[] && nextSocket == old(nextSocket)
      ensures log == old(log) + Closing(old(sockets), old(closeSockets), old(tasks))
    {
      CloseRetiresAll(calls);
      EmptyRegistries();
      Record(CloseServer);
    }

    method EmptyRegistries()
      modifies this
      ensures !active && tasks == [] && callbackTasks == [] && sockets == [] && closeSockets == []
      ensures threadSockets == map[] && nextSocket == old(nextSocket)
      ensures log == old(log) + Closing(old(sockets), old(closeSockets), old(tasks))
      ensures calls == old(calls) && handedOut == old(handedOut)
    {
      active := false;
      log := log + [FlagCleared];
      WakeAndShutDown(sockets);
      sockets := [];
      WakeAndShutDown(closeSockets);
      closeSockets := [];
      threadSockets := map[];
      CancelTasks();
      callbackTasks := [];
      ClosingInOrder(old(log), old(sockets), old(closeSockets), old(tasks), log);
    }

    method CancelTasks()
      modifies `tasks, `log
      ensures tasks == [] && log == old(log) + Cancels(old(tasks))
    {
      for i := 0 to |tasks|
        invariant log == old(log) + Cancels(tasks[..i])
        invariant tasks == old(tasks)
      {
        log := log + [Cancelled(tasks[i])];
        assert Cancels(tasks[..i + 1]) == Cancels(tasks[..i]) + [Cancelled(tasks[i])];
      }
      assert tasks[..|tasks|] == tasks;
      tasks := [];
    }

    /**
     A thread with its own socket gets that one; any other thread gets some registered socket; a closed
     or empty server gives none. `clock` is the time seed that is mixed into the choice.
     */
    method ListenerSocket(thread: nat, clock: nat) returns (r: Result<nat, Error>)
      requires Valid()
      modifies `nextSocket, `handedOut
      ensures Valid()
      ensures r.Ok? ==> r.value in sockets
      ensures handedOut == old(handedOut) + if r.Ok? then {r.value} else {}
      ensures !active ==> r == Err(Closed)
      ensures active && thread in threadSockets ==> r == Ok(threadSockets[thread])
      ensures active && thread !in threadSockets && sockets == [] ==> r == Err(NoListenerSocket)
      ensures active && thread !in threadSockets && sockets != [] ==>
                r == Ok(sockets[Choice(old(nextSocket), clock, |sockets|)])
      ensures nextSocket == if active && thread !in threadSockets && sockets != []
                            then (old(nextSocket) + 1) % U64_RANGE else old(nextSocket)
    {
      if !active {
        return Err(Closed);
      }
      if thread in threadSockets {
        r := Ok(threadSockets[thread]);
        RegisteredOrClosed(calls, r.value);
        handedOut := handedOut + {r.value};
        return;
      }
      if sockets == [] {
        return Err(NoListenerSocket);
      }
      r := Ok(sockets[Choice(nextSocket, clock, |sockets|)]);
      nextSocket := (nextSocket + 1) % U64_RANGE;
      RegisteredOrClosed(calls, r.value);
      handedOut := handedOut + {r.value};
    }
  }
}
