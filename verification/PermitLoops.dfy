/**
 The three retry loops of the permit as the source runs them. Each call is shown to be a run of the
 permit machine in which everybody else takes whatever steps they like before each of its atomic
 accesses, so what holds of all runs of the machine holds of the loops. A call is given one `Tick` per
 round, so running out of ticks means still retrying.
 */
module PermitLoops {
  import opened Bytes
  import opened Permit

  // ---------- what a run says about one caller ----------

  datatype Caller = User(t: nat) | Listener(w: nat)

  predicate ActsFor(e: Event, c: Caller) {
    match c
    case User(t) => e.TaskStep? && e.t == t
    case Listener(w) => (e.WaiterStep? || e.SpuriousPoll? || e.CancelAcquire?) && e.w == w
  }

  /** The step sends the caller back to the start of its loop. */
  predicate Retries(s: State, e: Event, c: Caller) {
    && ActsFor(e, c)
    && match c
       case User(t) =>
         && t < |s.tasks|
         && (|| (s.tasks[t].TryCas? && Step(s, e).tasks[t].TryLoad?)
             || (s.tasks[t].DropCas? && Step(s, e).tasks[t].DropCas?))
       case Listener(w) =>
         && e.WaiterStep? && w < |s.waiters|
         && (s.waiters[w].Trying? || s.waiters[w].Rechecking?) && Step(s, e).waiters[w].Loading?
  }

  /** The step is a swap of the caller that finds the value it expects. */
  predicate Matches(s: State, e: Event, c: Caller) {
    && ActsFor(e, c)
    && match c
       case User(t) =>
         t < |s.tasks| && (s.tasks[t].TryCas? || s.tasks[t].DropCas?) && s.tasks[t].seen == s.active
       case Listener(w) =>
         e.WaiterStep? && w < |s.waiters| && s.waiters[w].Trying? && s.waiters[w].seen == s.active
  }

  /**
   For one caller in a run: rounds it had to repeat, those of its swaps that failed by themselves,
   counter changes by others, the sum of those, and the sum of its own changes.
   */
  datatype Tally = Tally(retries: nat, failures: nat, changes: nat, net: int, own: int) {
    function Plus(t: Tally): Tally {
      Tally(retries + t.retries, failures + t.failures, changes + t.changes, net + t.net, own + t.own)
    }
  }

  function TallyStep(s: State, e: Event, c: Caller): Tally {
    var delta := Step(s, e).active - s.active;
    if ActsFor(e, c)
    then Tally(if Retries(s, e, c) then 1 else 0, if Retries(s, e, c) && Matches(s, e, c) then 1 else 0, 0, 0, delta)
    else Tally(0, 0, if delta != 0 then 1 else 0, delta, 0)
  }

  function TallyOf(s: State, run: seq<Event>, c: Caller): Tally
    decreases |run|
  {
    if run == [] then Tally(0, 0, 0, 0, 0) else TallyStep(s, run[0], c).Plus(TallyOf(Step(s, run[0]), run[1..], c))
  }

  /** What the caller last read of the counter no longer holds, so its round is bound to fail. */
  function Stale(s: State, c: Caller): nat {
    match c
    case User(t) =>
      if t < |s.tasks| && (s.tasks[t].TryCas? || s.tasks[t].DropCas?) && s.tasks[t].seen != s.active then 1 else 0
    case Listener(w) =>
      if w >= |s.waiters| then 0
      else match s.waiters[w]
           case Trying(seen) => if seen != s.active then 1 else 0
           case Registering => if s.active < s.max then 1 else 0
           case Rechecking => if s.active < s.max then 1 else 0
           case _ => 0
  }

  lemma UserStepPays(s: State, e: Event, t: nat)
    ensures var now := TallyStep(s, e, User(t));
            now.retries + Stale(Step(s, e), User(t)) <= Stale(s, User(t)) + now.failures + now.changes
  {
  }

  lemma ListenerStepPays(s: State, e: Event, w: nat)
    ensures var now := TallyStep(s, e, Listener(w));
            now.retries + Stale(Step(s, e), Listener(w)) <= Stale(s, Listener(w)) + now.failures + now.changes
  {
  }

  /**
   In every run of the machine, each round that a caller repeats is paid for by somebody else's change of
   the counter or by a swap of its own that failed by itself; and the counter moves by what the others did
   plus what it did.
   */
  lemma {:induction false} RetriesPaidFor(s: State, run: seq<Event>, c: Caller)
    ensures var tally := TallyOf(s, run, c);
            && tally.retries + Stale(Run(s, run), c) <= Stale(s, c) + tally.failures + tally.changes
            && Run(s, run).active - s.active == tally.net + tally.own
    decreases |run|
  {
    if run != [] {
      match c {
        case User(t) => UserStepPays(s, run[0], t);
        case Listener(w) => ListenerStepPays(s, run[0], w);
      }
      RetriesPaidFor(Step(s, run[0]), run[1..], c);
    }
  }

  lemma {:induction false} TallyAppend(s: State, a: seq<Event>, b: seq<Event>, c: Caller)
    ensures Run(s, a + b) == Run(Run(s, a), b)
    ensures TallyOf(s, a + b, c) == TallyOf(s, a, c).Plus(TallyOf(Run(s, a), b, c))
    decreases |a|
  {
    if a == [] {
      assert a + b == b;
    } else {
      assert (a + b)[0] == a[0] && (a + b)[1..] == a[1..] + b;
      TallyAppend(Step(s, a[0]), a[1..], b, c);
    }
  }

  // ---------- who may be left waiting ----------

  /** Listener `w` has stored its waker and counts on it. */
  predicate Waiting(s: State, w: nat) {
    w < |s.waiters| && (s.waiters[w].Rechecking? || s.waiters[w].Parked?)
  }

  /** It has not been notified and its waker is not in the slot. */
  predicate Displaced(s: State, w: nat) {
    Waiting(s, w) && w !in s.woken && s.waker != Some(w)
  }

  /** The step stores the waker of a listener other than `w`. */
  predicate OtherRegisters(s: State, e: Event, w: nat) {
    e.WaiterStep? && e.w != w && e.w < |s.waiters| && s.waiters[e.w].Registering?
  }

  predicate OtherRegistered(s: State, run: seq<Event>, w: nat)
    decreases |run|
  {
    run != [] && (OtherRegisters(s, run[0], w) || OtherRegistered(Step(s, run[0]), run[1..], w))
  }

  lemma StepDisplaces(s: State, e: Event, w: nat)
    ensures Displaced(Step(s, e), w) ==> Displaced(s, w) || OtherRegisters(s, e, w)
  {
  }

  /** Only a second listener's registration can push a waker out of the slot unnotified. */
  lemma {:induction false} DisplacedByOther(s: State, run: seq<Event>, w: nat)
    ensures Displaced(Run(s, run), w) ==> Displaced(s, w) || OtherRegistered(s, run, w)
    decreases |run|
  {
    if run != [] {
      StepDisplaces(s, run[0], w);
      DisplacedByOther(Step(s, run[0]), run[1..], w);
    }
  }

  // ---------- interference ----------

  predicate Foreign(run: seq<Event>, c: Caller) {
    forall i :: 0 <= i < |run| ==> !ActsFor(run[i], c)
  }

  /** Where the caller stands. */
  predicate SameSpot(s: State, s': State, c: Caller) {
    && s'.max == s.max && |s'.waiters| == |s.waiters|
    && match c
       case User(t) => t < |s.tasks| ==> t < |s'.tasks| && s'.tasks[t] == s.tasks[t]
       case Listener(w) => w < |s.waiters| ==> s'.waiters[w] == s.waiters[w]
  }

  lemma ForeignStep(s: State, e: Event, c: Caller)
    requires !ActsFor(e, c)
    ensures SameSpot(s, Step(s, e), c)
  {
  }

  /** What the others do leaves the caller where it is and is not charged to it. */
  lemma {:induction false} ForeignRun(s: State, run: seq<Event>, c: Caller)
    requires Foreign(run, c)
    ensures SameSpot(s, Run(s, run), c)
    ensures var tally := TallyOf(s, run, c); tally.retries == 0 && tally.own == 0
    decreases |run|
  {
    if run != [] {
      ForeignStep(s, run[0], c);
      ForeignRun(Step(s, run[0]), run[1..], c);
    }
  }

  // ---------- one call ----------

  /** A call so far: where it began, all that happened since, its rounds and its own changes of the counter. */
  datatype Call = Call(start: State, run: seq<Event>, retries: nat, own: int) {
    predicate Reaches(s: State, c: Caller) {
      && s == Run(start, run)
      && TallyOf(start, run, c).retries == retries && TallyOf(start, run, c).own == own
    }
  }

  lemma RunOn(s: State, run: seq<Event>, e: Event)
    ensures Run(s, run + [e]) == Step(Run(s, run), e)
  {
    RunAppend(s, run, [e]);
    assert Run(Run(s, run), [e]) == Run(Step(Run(s, run), e), []);
  }

  /** Others take some steps. */
  lemma Overtaken(call: Call, theirs: seq<Event>, c: Caller)
    requires call.Reaches(Run(call.start, call.run), c) && Foreign(theirs, c)
    ensures var s := Run(call.start, call.run);
            call.(run := call.run + theirs).Reaches(Run(s, theirs), c) && SameSpot(s, Run(s, theirs), c)
  {
    ForeignRun(Run(call.start, call.run), theirs, c);
    TallyAppend(call.start, call.run, theirs, c);
  }

  lemma SingleTally(s: State, e: Event, c: Caller)
    ensures Run(s, [e]) == Step(s, e) && TallyOf(s, [e], c) == TallyStep(s, e, c)
  {
    assert [e][1..] == [];
    assert Run(Step(s, e), []) == Step(s, e) && TallyOf(Step(s, e), [], c) == Tally(0, 0, 0, 0, 0);
  }

  /** The caller takes a step. */
  lemma Moved(call: Call, s: State, e: Event, c: Caller) returns (next: Call)
    requires call.Reaches(s, c)
    ensures next.Reaches(Step(s, e), c) && next.start == call.start
    ensures var now := TallyStep(s, e, c);
            next.retries == call.retries + now.retries && next.own == call.own + now.own
  {
    var now := TallyStep(s, e, c);
    TallyAppend(call.start, call.run, [e], c);
    SingleTally(s, e, c);
    next := Call(call.start, call.run + [e], call.retries + now.retries, call.own + now.own);
  }

  /** The books of a whole call. */
  predicate Accounted(start: State, run: seq<Event>, c: Caller, retries: nat, own: int) {
    var tally := TallyOf(start, run, c);
    && Conserved(Run(start, run))
    && retries == tally.retries <= tally.failures + tally.changes
    && Run(start, run).active - start.active == tally.net + own
  }

  lemma Settle(call: Call, s: State, c: Caller)
    requires call.Reaches(s, c) && Conserved(call.start) && Stale(call.start, c) == 0
    ensures Accounted(call.start, call.run, c, call.retries, call.own)
  {
    RunConserves(call.start, call.run);
    RetriesPaidFor(call.start, call.run, c);
  }

  /** While a drop has not released its permit, the counter is not zero. */
  lemma HolderSeesPermit(call: Call, s: State, t: nat)
    requires call.Reaches(s, User(t)) && Conserved(call.start) && t < |s.tasks| && Counted(s.tasks[t])
    ensures s.active > 0
  {
    RunConserves(call.start, call.run);
    CountedIsPositive(s.tasks, t);
  }

  /** Nobody waits unnotified, except behind a second listener. */
  ghost predicate Notified(start: State, run: seq<Event>, s: State) {
    forall w :: Waiting(s, w) ==> w in s.woken || Displaced(start, w) || OtherRegistered(start, run, w)
  }

  lemma WokenSlot(start: State, run: seq<Event>, s: State)
    requires s == Run(start, run) && s.waker == None
    ensures Notified(start, run, s)
  {
    forall w | Waiting(s, w)
      ensures w in s.woken || Displaced(start, w) || OtherRegistered(start, run, w)
    {
      DisplacedByOther(start, run, w);
    }
  }

  // ---------- the loops ----------

  /** What the others attempt before the first, second and third access of a round; whether the swap fails by itself. */
  datatype Tick = Tick(first: seq<Event>, second: seq<Event>, third: seq<Event>, spurious: bool)

  datatype Outcome = Acquired | Refused | Pending | Released | Unfinished | FellThrough

  class ConcurrencyState {
    /** The shared memory, and where everybody stands. */
    var world: State

    constructor (max: nat, waiters: nat)
      requires max > 0
      ensures world == Init(max, waiters) && Conserved(world)
    {
      world := Init(max, waiters);
      new;
      RunConserves(world, []);
    }

    /** Somebody else's turn: whatever they try, except to act for the caller. */
    method Interfere(events: seq<Event>, c: Caller) returns (ghost run: seq<Event>)
      modifies this
      ensures world == Run(old(world), run) && Foreign(run, c)
    {
      run := [];
      for i := 0 to |events|
        invariant world == Run(old(world), run) && Foreign(run, c)
      {
        if !ActsFor(events[i], c) {
          RunOn(old(world), run, events[i]);
          world := Step(world, events[i]);
          run := run + [events[i]];
        }
      }
    }

    /** The same in the middle of a call, which it leaves where it is. */
    method Others(events: seq<Event>, c: Caller, ghost call: Call) returns (ghost next: Call)
      requires call.Reaches(world, c)
      modifies this
      ensures next.Reaches(world, c) && SameSpot(old(world), world, c)
      ensures next.start == call.start && next.retries == call.retries && next.own == call.own
    {
      ghost var theirs := Interfere(events, c);
      next := call.(run := call.run + theirs);
      Overtaken(call, theirs, c);
    }

    /** A weak swap: it can fail by itself, and it reports the value it found. */
    method CompareExchangeWeak(expected: nat, desired: nat, spurious: bool) returns (ok: bool, found: nat)
      modifies this
      ensures ok <==> !spurious && old(world).active == expected
      ensures world == if ok then old(world).(active := desired) else old(world)
      ensures found == old(world).active
    {
      found := world.active;
      ok := !spurious && found == expected;
      if ok {
        world := world.(active := desired);
      }
    }

    /** Takes the stored waker, if any, and notifies it. */
    method Wake()
      modifies this
      ensures world == old(world).(waker := None, woken := world.woken)
      ensures world.woken == old(world).woken + if old(world).waker.Some? then {old(world).waker.value} else {}
    {
      if world.waker.Some? {
        world := world.(woken := world.woken + {world.waker.value});
      }
      world := world.(waker := None);
    }

    /** Records where a user or a listener has got to. */
    method UserAt(t: nat, pc: TaskPc)
      requires t < |world.tasks|
      modifies this
      ensures world == old(world).(tasks := old(world).tasks[t := pc])
    {
      world := world.(tasks := world.tasks[t := pc]);
    }

    method ListenerAt(w: nat, pc: WaiterPc)
      requires w < |world.waiters|
      modifies this
      ensures world == old(world).(waiters := old(world).waiters[w := pc])
    {
      world := world.(waiters := world.waiters[w := pc]);
    }

    /** The first access of a try. */
    method TryLoad(t: nat) returns (full: bool, seen: nat)
      requires t < |world.tasks| && world.tasks[t].TryLoad?
      modifies this
      ensures world == Step(old(world), TaskStep(t, false))
      ensures full == (seen >= world.max) && seen == world.active
      ensures world.tasks[t] == if full then Gone else TryCas(seen)
    {
      seen := world.active;
      full := seen >= world.max;
      UserAt(t, if full then Gone else TryCas(seen));
    }

    /** The second: the swap. */
    method TrySwap(t: nat, seen: nat, spurious: bool) returns (ok: bool)
      requires t < |world.tasks| && world.tasks[t] == TryCas(seen)
      modifies this
      ensures world == Step(old(world), TaskStep(t, spurious))
      ensures world.tasks[t] == if ok then Holding else Permit.TryLoad
      ensures world.active == old(world).active + if ok then 1 else 0
    {
      var found;
      ok, found := CompareExchangeWeak(seen, seen + 1, spurious);
      UserAt(t, if ok then Holding else Permit.TryLoad);
    }

    /**
     Takes a permit unless the counter is full. However the others interleave, each extra round is paid
     for by one of their changes or by a spurious failure of this call, and the counter moves by theirs
     plus ours.
     */
    method TryAcquire(t: nat, ticks: seq<Tick>) returns (r: Outcome, retries: nat, ghost run: seq<Event>)
      requires Conserved(world) && t < |world.tasks| && world.tasks[t].TryLoad?
      modifies this
      ensures world == Run(old(world), run) && t < |world.tasks|
      ensures r in {Acquired, Refused, Unfinished}
      ensures world.tasks[t] == if r == Acquired then Holding else if r == Refused then Gone else Permit.TryLoad
      ensures r == Refused ==> world.active == world.max
      ensures r == Unfinished ==> retries == |ticks|
      ensures Accounted(old(world), run, User(t), retries, if r == Acquired then 1 else 0)
    {
      ghost var call := Call(world, [], 0, 0);
      retries := 0;
      for i := 0 to |ticks|
        invariant call.Reaches(world, User(t)) && call.start == old(world)
        invariant call.retries == retries == i && call.own == 0
        invariant t < |world.tasks| && world.tasks[t].TryLoad?
      {
        call := Others(ticks[i].first, User(t), call);
        call := Moved(call, world, TaskStep(t, false), User(t));
        var full, seen := TryLoad(t);
        if full {
          Settle(call, world, User(t));
          return Refused, retries, call.run;
        }
        call := Others(ticks[i].second, User(t), call);
        call := Moved(call, world, TaskStep(t, ticks[i].spurious), User(t));
        var ok := TrySwap(t, seen, ticks[i].spurious);
        if ok {
          Settle(call, world, User(t));
          return Acquired, retries, call.run;
        }
        retries := retries + 1;
      }
      Settle(call, world, User(t));
      return Unfinished, retries, call.run;
    }

    /** The first access of a poll's round. */
    method PollLoad(w: nat) returns (full: bool, seen: nat)
      requires w < |world.waiters| && world.waiters[w].Loading?
      modifies this
      ensures world == Step(old(world), WaiterStep(w, false))
      ensures world.waiters[w] == if full then Registering else Trying(seen)
    {
      seen := world.active;
      full := seen >= world.max;
      ListenerAt(w, if full then Registering else Trying(seen));
    }

    method PollSwap(w: nat, seen: nat, spurious: bool) returns (ok: bool)
      requires w < |world.waiters| && world.waiters[w] == Trying(seen)
      modifies this
      ensures world == Step(old(world), WaiterStep(w, spurious))
      ensures world.waiters[w] == if ok then Away else Loading
      ensures world.active == old(world).active + if ok then 1 else 0
      ensures ok ==> world.tasks == old(world).tasks + [Holding]
    {
      var found;
      ok, found := CompareExchangeWeak(seen, seen + 1, spurious);
      if ok {
        world := world.(tasks := world.tasks + [Holding]);
      }
      ListenerAt(w, if ok then Away else Loading);
    }

    method Register(w: nat)
      requires w < |world.waiters| && world.waiters[w].Registering?
      modifies this
      ensures world == Step(old(world), WaiterStep(w, false)) && world.waiters[w].Rechecking?
    {
      world := world.(waker := Some(w));
      ListenerAt(w, Rechecking);
    }

    method Recheck(w: nat) returns (full: bool)
      requires w < |world.waiters| && world.waiters[w].Rechecking?
      modifies this
      ensures world == Step(old(world), WaiterStep(w, false)) && full == (world.active >= world.max)
      ensures world.waiters[w] == if full then Parked else Loading
    {
      full := world.active >= world.max;
      ListenerAt(w, if full then Parked else Loading);
    }

    /** One half of a poll's round: the swap, when there was room. */
    method SwapInPoll(w: nat, seen: nat, spurious: bool, ghost call: Call) returns (ok: bool, ghost next: Call)
      requires call.Reaches(world, Listener(w)) && w < |world.waiters| && world.waiters[w] == Trying(seen)
      modifies this
      ensures next.Reaches(world, Listener(w)) && next.start == call.start
      ensures next.retries == call.retries + (if ok then 0 else 1) && next.own == call.own + if ok then 1 else 0
      ensures w < |world.waiters| && world.waiters[w] == if ok then Away else Loading
      ensures ok ==> world.tasks != [] && world.tasks[|world.tasks| - 1].Holding?
    {
      next := Moved(call, world, WaiterStep(w, spurious), Listener(w));
      ok := PollSwap(w, seen, spurious);
    }

    /** The other half of a poll's round: stores the waker and looks again, so that no release is missed. */
    method RegisterAndRecheck(w: nat, between: seq<Event>, ghost call: Call) returns (full: bool, ghost next: Call)
      requires call.Reaches(world, Listener(w)) && w < |world.waiters| && world.waiters[w].Registering?
      modifies this
      ensures next.Reaches(world, Listener(w)) && next.start == call.start && next.own == call.own
      ensures next.retries == call.retries + if full then 0 else 1
      ensures w < |world.waiters| && world.waiters[w] == if full then Parked else Loading
      ensures full ==> world.active >= world.max
    {
      next := Moved(call, world, WaiterStep(w, false), Listener(w));
      Register(w);
      next := Others(between, Listener(w), next);
      next := Moved(next, world, WaiterStep(w, false), Listener(w));
      full := Recheck(w);
    }

    /**
     One poll of the acquiring future by listener `w`. It returns pending only with the counter full and
     with its waker in the slot, unless it has been notified or another listener has stored its own.
     */
    method Poll(w: nat, ticks: seq<Tick>) returns (r: Outcome, retries: nat, ghost run: seq<Event>)
      requires Conserved(world) && w < |world.waiters| && world.waiters[w].Loading?
      modifies this
      ensures world == Run(old(world), run) && w < |world.waiters|
      ensures r in {Acquired, Pending, Unfinished}
      ensures world.waiters[w] == if r == Acquired then Away else if r == Pending then Parked else Loading
      ensures r == Acquired ==> world.tasks != [] && world.tasks[|world.tasks| - 1].Holding?
      ensures r == Pending ==>
                && world.active == world.max
                && (world.waker == Some(w) || w in world.woken || OtherRegistered(old(world), run, w))
      ensures r == Unfinished ==> retries == |ticks|
      ensures Accounted(old(world), run, Listener(w), retries, if r == Acquired then 1 else 0)
    {
      ghost var call := Call(world, [], 0, 0);
      retries := 0;
      for i := 0 to |ticks|
        invariant call.Reaches(world, Listener(w)) && call.start == old(world)
        invariant call.retries == retries == i && call.own == 0
        invariant w < |world.waiters| && world.waiters[w].Loading?
      {
        call := Others(ticks[i].first, Listener(w), call);
        call := Moved(call, world, WaiterStep(w, false), Listener(w));
        var full, seen := PollLoad(w);
        call := Others(ticks[i].second, Listener(w), call);
        if full {
          full, call := RegisterAndRecheck(w, ticks[i].third, call);
          if full {
            Settle(call, world, Listener(w));
            DisplacedByOther(call.start, call.run, w);
            return Pending, retries, call.run;
          }
        } else {
          var ok;
          ok, call := SwapInPoll(w, seen, ticks[i].spurious, call);
          if ok {
            Settle(call, world, Listener(w));
            return Acquired, retries, call.run;
          }
        }
        retries := retries + 1;
      }
      Settle(call, world, Listener(w));
      return Unfinished, retries, call.run;
    }

    /** The load a drop begins with. */
    method DropLoad(t: nat) returns (seen: nat)
      requires t < |world.tasks| && world.tasks[t].DropLoad?
      modifies this
      ensures world == Step(old(world), TaskStep(t, false)) && seen == world.active
      ensures world.tasks[t] == DropSees(seen)
    {
      seen := world.active;
      UserAt(t, DropSees(seen));
    }

    method DropSwap(t: nat, seen: nat, spurious: bool) returns (ok: bool, found: nat)
      requires t < |world.tasks| && world.tasks[t] == DropCas(seen) && seen > 0
      modifies this
      ensures world == Step(old(world), TaskStep(t, spurious)) && found == old(world).active
      ensures world.tasks[t] == if ok then Owing else DropSees(found)
      ensures world.active == old(world).active - if ok then 1 else 0
    {
      ok, found := CompareExchangeWeak(seen, seen - 1, spurious);
      UserAt(t, if ok then Owing else DropSees(found));
    }

    method DropWake(t: nat)
      requires t < |world.tasks| && world.tasks[t].Owing?
      modifies this
      ensures world == Step(old(world), TaskStep(t, false)) && world.tasks[t].Gone? && world.waker == None
    {
      Wake();
      UserAt(t, Gone);
      assert old(world).waker.None? ==> world.woken == old(world).woken;
    }

    /** What follows a successful release. */
    method WakeAfterRelease(t: nat, between: seq<Event>, ghost call: Call) returns (ghost next: Call)
      requires call.Reaches(world, User(t)) && t < |world.tasks| && world.tasks[t].Owing?
      modifies this
      ensures next.Reaches(world, User(t)) && next.start == call.start
      ensures next.retries == call.retries && next.own == call.own
      ensures t < |world.tasks| && world.tasks[t].Gone? && world.waker == None
    {
      next := Others(between, User(t), call);
      next := Moved(next, world, TaskStep(t, false), User(t));
      DropWake(t);
    }

    /**
     Gives one permit back and wakes the listener. The caller's own permit keeps the counter above zero,
     so the loop is never left without the release; after it no listener waits unnotified, except behind
     another listener's waker.
     */
    method DropPermit(t: nat, initial: seq<Event>, ticks: seq<Tick>)
      returns (r: Outcome, retries: nat, ghost run: seq<Event>)
      requires Conserved(world) && t < |world.tasks| && world.tasks[t].DropLoad?
      modifies this
      ensures world == Run(old(world), run) && t < |world.tasks|
      ensures r in {Released, Unfinished}
      ensures if r == Released then world.tasks[t].Gone? else world.tasks[t].DropCas?
      ensures r == Released ==> world.waker == None && Notified(old(world), run, world)
      ensures r == Unfinished ==> retries == |ticks|
      ensures Accounted(old(world), run, User(t), retries, if r == Released then -1 else 0)
    {
      ghost var call := Call(world, [], 0, 0);
      retries := 0;
      call := Others(initial, User(t), call);
      HolderSeesPermit(call, world, t);
      call := Moved(call, world, TaskStep(t, false), User(t));
      var seen := DropLoad(t);
      var i := 0;
      while seen > 0 && i < |ticks|
        invariant call.Reaches(world, User(t)) && call.start == old(world)
        invariant call.retries == retries == i <= |ticks| && call.own == 0
        invariant seen > 0 && t < |world.tasks| && world.tasks[t] == DropCas(seen)
        decreases |ticks| - i
      {
        call := Others(ticks[i].first, User(t), call);
        HolderSeesPermit(call, world, t);
        call := Moved(call, world, TaskStep(t, ticks[i].spurious), User(t));
        var ok, found := DropSwap(t, seen, ticks[i].spurious);
        if ok {
          call := WakeAfterRelease(t, ticks[i].second, call);
          Settle(call, world, User(t));
          WokenSlot(call.start, call.run, world);
          return Released, retries, call.run;
        }
        seen := found;
        retries, i := retries + 1, i + 1;
      }
      Settle(call, world, User(t));
      return if seen > 0 then Unfinished else FellThrough, retries, call.run;
    }
  }
}
