/**
 The per-worker concurrency permit as interleaved atomic steps: an atomic counter changed by weak
 compare-and-swap, one slot for a registered waker, and release on drop. Atomic accesses are
 sequentially consistent; registering and waking are one step each. A schedule names who moves next,
 so a statement about every schedule is a statement about every interleaving.
 */
module Permit {
  import opened Bytes

  /** Where a listener stands in `acquire().await`. */
  datatype WaiterPc =
    | Away                  // not acquiring
    | Loading               // about to load the counter
    | Trying(seen: nat)     // about to swap seen for seen + 1
    | Registering           // saw a full counter, about to store its waker
    | Rechecking            // about to load the counter again
    | Parked                // returned Pending

  /** Where another user of the permit stands. */
  datatype TaskPc =
    | TryLoad               // in try_acquire, about to load
    | TryCas(seen: nat)     // in try_acquire, about to swap
    | Holding               // owns a permit
    | DropLoad              // in drop, about to load
    | DropCas(seen: nat)    // in drop, about to swap seen for seen - 1
    | Owing                 // released, about to wake
    | Gone
    | Leaked                // drop fell out of its loop without releasing

  datatype State = State(
    max: nat,
    active: nat,
    waker: Option<nat>,
    woken: set<nat>,
    waiters: seq<WaiterPc>,
    tasks: seq<TaskPc>)

  /** A compare-and-swap may fail spuriously, as the weak form may. */
  datatype Event =
    | WaiterStep(w: nat, spurious: bool)
    | SpuriousPoll(w: nat)
    | CancelAcquire(w: nat)
    | BeginTry
    | TaskStep(t: nat, spurious: bool)

  function Init(max: nat, waiters: nat): State {
    State(max, 0, None, {}, seq(waiters, _ => Away), [])
  }

  function StepWaiter(s: State, w: nat, spurious: bool): State
    requires w < |s.waiters|
  {
    match s.waiters[w]
    case Away => s.(waiters := s.waiters[w := Loading], woken := s.woken - {w})
    case Loading =>
      s.(waiters := s.waiters[w := if s.active < s.max then Trying(s.active) else Registering])
    case Trying(seen) =>
      if !spurious && s.active == seen
      then s.(active := seen + 1, waiters := s.waiters[w := Away], tasks := s.tasks + [Holding])
      else s.(waiters := s.waiters[w := Loading])
    case Registering => s.(waker := Some(w), waiters := s.waiters[w := Rechecking])
    case Rechecking => s.(waiters := s.waiters[w := if s.active < s.max then Loading else Parked])
    case Parked =>
      if w in s.woken then s.(waiters := s.waiters[w := Loading], woken := s.woken - {w}) else s
  }

  function DropSees(value: nat): TaskPc {
    if value > 0 then DropCas(value) else Leaked
  }

  function StepTask(s: State, t: nat, spurious: bool): State
    requires t < |s.tasks|
  {
    match s.tasks[t]
    case TryLoad => s.(tasks := s.tasks[t := if s.active >= s.max then Gone else TryCas(s.active)])
    case TryCas(seen) =>
      if !spurious && s.active == seen
      then s.(active := seen + 1, tasks := s.tasks[t := Holding])
      else s.(tasks := s.tasks[t := TryLoad])
    case Holding => s.(tasks := s.tasks[t := DropLoad])
    case DropLoad => s.(tasks := s.tasks[t := DropSees(s.active)])
    case DropCas(seen) =>
      if !spurious && s.active == seen && seen > 0
      then s.(active := seen - 1, tasks := s.tasks[t := Owing])
      else s.(tasks := s.tasks[t := DropSees(s.active)])
    case Owing =>
      s.(waker := None,
         woken := if s.waker.Some? then s.woken + {s.waker.value} else s.woken,
         tasks := s.tasks[t := Gone])
    case Gone => s
    case Leaked => s
  }

  /** Steps that do not apply change nothing. */
  function Step(s: State, e: Event): State {
    match e
    case WaiterStep(w, spurious) => if w < |s.waiters| then StepWaiter(s, w, spurious) else s
    case SpuriousPoll(w) =>
      if w < |s.waiters| && s.waiters[w].Parked?
      then s.(waiters := s.waiters[w := Loading], woken := s.woken - {w}) else s
    case CancelAcquire(w) => if w < |s.waiters| then s.(waiters := s.waiters[w := Away]) else s
    case BeginTry => s.(tasks := s.tasks + [TryLoad])
    case TaskStep(t, spurious) => if t < |s.tasks| then StepTask(s, t, spurious) else s
  }

  function Run(s: State, schedule: seq<Event>): State
    decreases |schedule|
  {
    if schedule == [] then s else Run(Step(s, schedule[0]), schedule[1..])
  }

  /** The task's permit is still counted. */
  predicate Counted(pc: TaskPc) {
    pc.Holding? || pc.DropLoad? || pc.DropCas?
  }

  /** Permits handed out and not yet given back. */
  function Outstanding(tasks: seq<TaskPc>): nat {
    if tasks == [] then 0
    else Outstanding(tasks[..|tasks| - 1]) + if Counted(tasks[|tasks| - 1]) then 1 else 0
  }

  lemma {:induction false} OutstandingUpdate(tasks: seq<TaskPc>, t: nat, pc: TaskPc)
    requires t < |tasks|
    ensures Outstanding(tasks[t := pc]) ==
            Outstanding(tasks) - (if Counted(tasks[t]) then 1 else 0) + (if Counted(pc) then 1 else 0)
  {
    var n := |tasks| - 1;
    if t == n {
      assert tasks[t := pc][..n] == tasks[..n];
    } else {
      assert tasks[t := pc][..n] == tasks[..n][t := pc];
      OutstandingUpdate(tasks[..n], t, pc);
    }
  }

  lemma OutstandingAppend(tasks: seq<TaskPc>, pc: TaskPc)
    ensures Outstanding(tasks + [pc]) == Outstanding(tasks) + if Counted(pc) then 1 else 0
  {
    assert (tasks + [pc])[..|tasks|] == tasks;
  }

  /** A counted task makes the count positive. */
  lemma {:induction false} CountedIsPositive(tasks: seq<TaskPc>, t: nat)
    requires t < |tasks| && Counted(tasks[t])
    ensures Outstanding(tasks) > 0
  {
    OutstandingUpdate(tasks, t, Gone);
  }

  lemma {:induction false} PositiveHasCounted(tasks: seq<TaskPc>) returns (t: nat)
    requires Outstanding(tasks) > 0
    ensures t < |tasks| && Counted(tasks[t])
  {
    t := |tasks| - 1;
    if !Counted(tasks[t]) {
      t := PositiveHasCounted(tasks[..t]);
    }
  }

  // ---------- conservation, with any number of listeners ----------

  predicate Sane(pc: TaskPc, max: nat) {
    match pc
    case Leaked => false
    case TryCas(seen) => seen < max
    case DropCas(seen) => seen > 0
    case _ => true
  }

  predicate Conserved(s: State) {
    && s.max > 0
    && s.active <= s.max
    && s.active == Outstanding(s.tasks)
    && (forall t :: 0 <= t < |s.tasks| ==> Sane(s.tasks[t], s.max))
    && (forall w :: 0 <= w < |s.waiters| && s.waiters[w].Trying? ==> s.waiters[w].seen < s.max)
  }

  lemma TaskStepConserves(s: State, t: nat, spurious: bool)
    requires Conserved(s) && t < |s.tasks|
    ensures Conserved(StepTask(s, t, spurious))
  {
    var s' := StepTask(s, t, spurious);
    if Counted(s.tasks[t]) {
      CountedIsPositive(s.tasks, t);
    }
    OutstandingUpdate(s.tasks, t, s'.tasks[t]);
    assert s'.tasks == s.tasks[t := s'.tasks[t]];
  }

  /** Moves of a listener that leave the counter alone. */
  lemma IdleMoveConserves(s: State, s': State, w: nat, pc: WaiterPc)
    requires Conserved(s) && w < |s.waiters| && (pc.Trying? ==> pc.seen < s.max)
    requires s'.max == s.max && s'.active == s.active && s'.tasks == s.tasks && s'.waiters == s.waiters[w := pc]
    ensures Conserved(s')
  {
  }

  lemma TakenConserves(s: State, w: nat)
    requires Conserved(s) && w < |s.waiters| && s.active < s.max
    ensures Conserved(s.(active := s.active + 1, waiters := s.waiters[w := Away], tasks := s.tasks + [Holding]))
  {
    OutstandingAppend(s.tasks, Holding);
  }

  lemma WaiterStepConserves(s: State, w: nat, spurious: bool)
    requires Conserved(s) && w < |s.waiters|
    ensures Conserved(StepWaiter(s, w, spurious))
  {
    var pc, s' := s.waiters[w], StepWaiter(s, w, spurious);
    if pc.Trying? && !spurious && s.active == pc.seen {
      TakenConserves(s, w);
    } else if s' != s {
      IdleMoveConserves(s, s', w, s'.waiters[w]);
    }
  }

  lemma BeginTryConserves(s: State)
    requires Conserved(s)
    ensures Conserved(s.(tasks := s.tasks + [TryLoad]))
  {
    OutstandingAppend(s.tasks, TryLoad);
  }

  lemma StepConserves(s: State, e: Event)
    requires Conserved(s)
    ensures Conserved(Step(s, e))
  {
    match e
    case WaiterStep(w, spurious) =>
      if w < |s.waiters| {
        WaiterStepConserves(s, w, spurious);
      }
    case SpuriousPoll(w) =>
      if w < |s.waiters| && s.waiters[w].Parked? {
        IdleMoveConserves(s, Step(s, e), w, Loading);
      }
    case CancelAcquire(w) =>
      if w < |s.waiters| {
        IdleMoveConserves(s, Step(s, e), w, Away);
      }
    case BeginTry =>
      BeginTryConserves(s);
    case TaskStep(t, spurious) =>
      if t < |s.tasks| {
        TaskStepConserves(s, t, spurious);
      }
  }

  lemma {:induction false} RunConserves(s: State, schedule: seq<Event>)
    requires Conserved(s)
    ensures Conserved(Run(s, schedule))
    decreases |schedule|
  {
    if schedule != [] {
      StepConserves(s, schedule[0]);
      RunConserves(Step(s, schedule[0]), schedule[1..]);
    }
  }

  /**
   In every interleaving, with any number of listeners and users, the counter is the number of permits
   out, never above the maximum, and no drop leaves its loop without giving its permit back.
   */
  lemma PermitConservation(max: nat, waiters: nat, schedule: seq<Event>)
    requires max > 0
    ensures var s := Run(Init(max, waiters), schedule);
            && s.active == Outstanding(s.tasks) <= s.max == max
            && forall t :: 0 <= t < |s.tasks| ==> !s.tasks[t].Leaked?
  {
    RunConserves(Init(max, waiters), schedule);
    RunKeepsMax(Init(max, waiters), schedule);
  }

  lemma {:induction false} RunKeepsMax(s: State, schedule: seq<Event>)
    ensures Run(s, schedule).max == s.max
    ensures |Run(s, schedule).waiters| == |s.waiters|
    decreases |schedule|
  {
    if schedule != [] {
      RunKeepsMax(Step(s, schedule[0]), schedule[1..]);
    }
  }

  // ---------- no lost wake-up, with one listener ----------

  predicate Stuck(s: State, w: nat)
    requires w < |s.waiters|
  {
    s.waiters[w].Parked? && w !in s.woken
  }

  predicate WakeOwed(s: State) {
    exists t :: 0 <= t < |s.tasks| && s.tasks[t].Owing?
  }

  predicate Covered(s: State) {
    && |s.waiters| == 1
    && ((s.waiters[0].Rechecking? || s.waiters[0].Parked?) && 0 !in s.woken ==> s.waker == Some(0))
    && (Stuck(s, 0) && s.active < s.max ==> WakeOwed(s))
  }

  lemma StepKeepsCovered(s: State, e: Event)
    requires Conserved(s) && Covered(s)
    ensures Covered(Step(s, e))
  {
    var s' := Step(s, e);
    if s' != s && Stuck(s', 0) && s'.active < s'.max && WakeOwed(s) {
      var t :| 0 <= t < |s.tasks| && s.tasks[t].Owing?;
      assert s'.tasks[t].Owing?;
    }
    if e.TaskStep? && e.t < |s.tasks| && s'.tasks[e.t].Owing? {
      assert WakeOwed(s');
    }
  }

  lemma {:induction false} RunKeepsCovered(s: State, schedule: seq<Event>)
    requires Conserved(s) && Covered(s)
    ensures Conserved(Run(s, schedule)) && Covered(Run(s, schedule))
    decreases |schedule|
  {
    if schedule != [] {
      StepConserves(s, schedule[0]);
      StepKeepsCovered(s, schedule[0]);
      RunKeepsCovered(Step(s, schedule[0]), schedule[1..]);
    }
  }

  /**
   In every interleaving with one listener: while it is parked and not notified, its waker is
   registered, and either every permit is out or somebody has released one and still owes the wake.
   */
  lemma NoLostWakeup(max: nat, schedule: seq<Event>)
    requires max > 0
    ensures var s := Run(Init(max, 1), schedule);
            && |s.waiters| == 1
            && (Stuck(s, 0) ==> s.waker == Some(0) && (s.active == max || WakeOwed(s)))
  {
    RunKeepsCovered(Init(max, 1), schedule);
    RunKeepsMax(Init(max, 1), schedule);
  }

  /** The next `n` steps of task `t`, with nobody in between and no spurious failure. */
  function Steps(t: nat, n: nat): (e: seq<Event>)
    ensures |e| == n
  {
    if n == 0 then [] else [TaskStep(t, false)] + Steps(t, n - 1)
  }

  /** Steps a task in its drop still needs to reach the end of its wake. */
  function StepsToWake(pc: TaskPc, active: nat): nat
    requires Counted(pc) || pc.Owing?
  {
    match pc
    case Holding => 4
    case DropLoad => 3
    case DropCas(seen) => if seen == active then 2 else 3
    case Owing => 1
  }

  lemma {:induction false} StepsNotify(s: State, t: nat)
    requires t < |s.tasks| && (Counted(s.tasks[t]) || s.tasks[t].Owing?)
    requires s.waker == Some(0) && (Counted(s.tasks[t]) ==> s.active > 0)
    ensures 0 in Run(s, Steps(t, StepsToWake(s.tasks[t], s.active))).woken
    ensures Run(s, Steps(t, StepsToWake(s.tasks[t], s.active))).waiters == s.waiters
    decreases StepsToWake(s.tasks[t], s.active)
  {
    var n := StepsToWake(s.tasks[t], s.active);
    var next := StepTask(s, t, false);
    var rest := Steps(t, n - 1);
    assert Steps(t, n)[0] == TaskStep(t, false) && Steps(t, n)[1..] == rest;
    if s.tasks[t].Owing? {
      assert rest == [];
    } else {
      assert StepsToWake(next.tasks[t], next.active) == n - 1;
      StepsNotify(next, t);
    }
  }

  /** A holder that finishes its drop uninterrupted notifies the parked listener within four steps. */
  lemma DropNotifies(s: State, t: nat)
    requires Conserved(s) && Covered(s) && Stuck(s, 0)
    requires t < |s.tasks| && (Counted(s.tasks[t]) || s.tasks[t].Owing?)
    ensures StepsToWake(s.tasks[t], s.active) <= 4
    ensures 0 in Run(s, Steps(t, StepsToWake(s.tasks[t], s.active))).woken
    ensures Run(s, Steps(t, StepsToWake(s.tasks[t], s.active))).waiters == s.waiters
  {
    if Counted(s.tasks[t]) {
      CountedIsPositive(s.tasks, t);
    }
    StepsNotify(s, t);
  }

  /** After the first `k` steps of the schedule the listener is running or notified. */
  predicate FreeAfter(s: State, schedule: seq<Event>, k: nat)
    requires |s.waiters| == 1 && k <= |schedule|
  {
    RunKeepsMax(s, schedule[..k]);
    !Stuck(Run(s, schedule[..k]), 0)
  }

  /** A task in its drop stays in it until the step that wakes the listener. */
  lemma DropStep(s: State, e: Event, t: nat)
    requires Conserved(s) && Covered(s) && Stuck(s, 0)
    requires t < |s.tasks| && (Counted(s.tasks[t]) || s.tasks[t].Owing?)
    ensures var s' := Step(s, e);
            && |s'.waiters| == 1 && t < |s'.tasks|
            && (Counted(s'.tasks[t]) || s'.tasks[t].Owing? || (s'.tasks[t].Gone? && !Stuck(s', 0)))
  {
    if Counted(s.tasks[t]) {
      CountedIsPositive(s.tasks, t);
    }
  }

  /**
   However the others interleave and however often its swap fails, a holder cannot get through its drop
   while the listener stays parked and unnotified.
   */
  lemma {:induction false} FinishedDropFreed(s: State, schedule: seq<Event>, t: nat) returns (k: nat)
    requires Conserved(s) && Covered(s)
    requires t < |s.tasks| && (Counted(s.tasks[t]) || s.tasks[t].Owing?)
    requires t < |Run(s, schedule).tasks| && Run(s, schedule).tasks[t].Gone?
    ensures k <= |schedule| && FreeAfter(s, schedule, k)
    decreases |schedule|
  {
    if !Stuck(s, 0) {
      k := 0;
      assert schedule[..0] == [];
    } else {
      var s' := Step(s, schedule[0]);
      DropStep(s, schedule[0], t);
      StepConserves(s, schedule[0]);
      StepKeepsCovered(s, schedule[0]);
      k := 0;
      if Counted(s'.tasks[t]) || s'.tasks[t].Owing? {
        k := FinishedDropFreed(s', schedule[1..], t);
      }
      assert schedule[..k + 1][1..] == schedule[1..][..k];
      k := k + 1;
    }
  }

  /** So a parked listener is never abandoned: some user's remaining steps notify it. */
  lemma ParkedListenerHasRescuer(max: nat, schedule: seq<Event>) returns (t: nat, n: nat)
    requires max > 0
    requires |Run(Init(max, 1), schedule).waiters| == 1 && Stuck(Run(Init(max, 1), schedule), 0)
    ensures t < |Run(Init(max, 1), schedule).tasks| && n <= 4
    ensures 0 in Run(Run(Init(max, 1), schedule), Steps(t, n)).woken
  {
    var s := Run(Init(max, 1), schedule);
    RunKeepsCovered(Init(max, 1), schedule);
    if s.active < s.max {
      t :| 0 <= t < |s.tasks| && s.tasks[t].Owing?;
    } else {
      t := PositiveHasCounted(s.tasks);
    }
    DropNotifies(s, t);
    n := StepsToWake(s.tasks[t], s.active);
  }

  /** Once every permit has been dropped and every drop is over, the listener is not left waiting. */
  lemma QuiescentListenerIsRunnable(max: nat, schedule: seq<Event>)
    requires max > 0
    ensures var s := Run(Init(max, 1), schedule);
            |s.waiters| == 1 &&
            ((forall t :: 0 <= t < |s.tasks| ==> s.tasks[t].Gone?) ==> !Stuck(s, 0))
  {
    var s := Run(Init(max, 1), schedule);
    RunKeepsCovered(Init(max, 1), schedule);
    if s.active > 0 {
      var t := PositiveHasCounted(s.tasks);
    }
  }

  /** A notified listener that polls while a permit is free takes it in three steps. */
  lemma NotifiedListenerAcquires(s: State, w: nat)
    requires w < |s.waiters| && s.waiters[w].Parked? && w in s.woken && s.active < s.max
    ensures Run(s, WaiterSteps(w, 3))
         == s.(active := s.active + 1, woken := s.woken - {w}, waiters := s.waiters[w := Away],
               tasks := s.tasks + [Holding])
  {
    var s1 := s.(woken := s.woken - {w}, waiters := s.waiters[w := Loading]);
    var s2 := s1.(waiters := s.waiters[w := Trying(s.active)]);
    var s3 := s1.(active := s.active + 1, waiters := s.waiters[w := Away], tasks := s.tasks + [Holding]);
    assert s1.waiters[w := Trying(s.active)] == s2.waiters && s2.waiters[w := Away] == s3.waiters;
    WaiterMoves(s, w, s1, 3);
    WaiterMoves(s1, w, s2, 2);
    WaiterMoves(s2, w, s3, 1);
  }

  // ---------- the single listener is needed ----------

  function WaiterSteps(w: nat, n: nat): (e: seq<Event>)
    ensures |e| == n
  {
    if n == 0 then [] else [WaiterStep(w, false)] + WaiterSteps(w, n - 1)
  }

  lemma WaiterMoves(s: State, w: nat, next: State, n: nat)
    requires n > 0 && next == Step(s, WaiterStep(w, false))
    ensures Run(s, WaiterSteps(w, n)) == Run(next, WaiterSteps(w, n - 1))
  {
    assert WaiterSteps(w, n)[1..] == WaiterSteps(w, n - 1);
  }

  lemma TaskMoves(s: State, t: nat, next: State, n: nat)
    requires n > 0 && next == Step(s, TaskStep(t, false))
    ensures Run(s, Steps(t, n)) == Run(next, Steps(t, n - 1))
  {
    assert Steps(t, n)[1..] == Steps(t, n - 1);
  }

  lemma {:induction false} RunAppend(s: State, a: seq<Event>, b: seq<Event>)
    ensures Run(s, a + b) == Run(Run(s, a), b)
    decreases |a|
  {
    if a == [] {
      assert a + b == b;
    } else {
      assert (a + b)[0] == a[0] && (a + b)[1..] == a[1..] + b;
      RunAppend(Step(s, a[0]), a[1..], b);
    }
  }

  /** With every permit out, a listener parks and its waker replaces any other. */
  lemma ListenerParks(s: State, w: nat)
    requires w < |s.waiters| && s.waiters[w].Away? && s.active >= s.max
    ensures Run(s, WaiterSteps(w, 4))
         == s.(waker := Some(w), woken := s.woken - {w}, waiters := s.waiters[w := Parked])
  {
    var s1 := s.(woken := s.woken - {w}, waiters := s.waiters[w := Loading]);
    var s2 := s1.(waiters := s.waiters[w := Registering]);
    var s3 := s1.(waker := Some(w), waiters := s.waiters[w := Rechecking]);
    var s4 := s3.(waiters := s.waiters[w := Parked]);
    assert s1.waiters[w := Registering] == s2.waiters;
    assert s2.waiters[w := Rechecking] == s3.waiters && s3.waiters[w := Parked] == s4.waiters;
    WaiterMoves(s, w, s1, 4);
    WaiterMoves(s1, w, s2, 3);
    WaiterMoves(s2, w, s3, 2);
    WaiterMoves(s3, w, s4, 1);
  }

  /** An undisturbed drop gives its permit back and wakes whoever is registered, once. */
  lemma HolderDrops(s: State, t: nat)
    requires t < |s.tasks| && s.tasks[t].Holding? && s.active > 0
    ensures Run(s, Steps(t, 4))
         == s.(active := s.active - 1, waker := None, tasks := s.tasks[t := Gone],
               woken := if s.waker.Some? then s.woken + {s.waker.value} else s.woken)
  {
    var s1 := s.(tasks := s.tasks[t := DropLoad]);
    var s2 := s.(tasks := s.tasks[t := DropCas(s.active)]);
    var s3 := s.(active := s.active - 1, tasks := s.tasks[t := Owing]);
    var s4 := s3.(waker := None, tasks := s.tasks[t := Gone],
                  woken := if s.waker.Some? then s.woken + {s.waker.value} else s.woken);
    assert s1.tasks[t := DropCas(s.active)] == s2.tasks;
    assert s2.tasks[t := Owing] == s3.tasks && s3.tasks[t := Gone] == s4.tasks;
    TaskMoves(s, t, s1, 4);
    TaskMoves(s1, t, s2, 3);
    TaskMoves(s2, t, s3, 2);
    TaskMoves(s3, t, s4, 1);
  }

  /** One undisturbed `try_acquire` after another, by new users numbered from `next`. */
  function Fill(next: nat, n: nat): seq<Event>
    decreases n
  {
    if n == 0 then [] else [BeginTry] + Steps(next, 2) + Fill(next + 1, n - 1)
  }

  function Holders(n: nat): (h: seq<TaskPc>)
    ensures |h| == n
  {
    seq(n, _ => Holding)
  }

  lemma {:induction false} FillTakesPermits(s: State, n: nat)
    requires s.active + n <= s.max
    ensures Run(s, Fill(|s.tasks|, n)) == s.(active := s.active + n, tasks := s.tasks + Holders(n))
    decreases n
  {
    if n == 0 {
      assert s.tasks + Holders(0) == s.tasks;
    } else {
      var t := |s.tasks|;
      var s1 := s.(tasks := s.tasks + [TryLoad]);
      var s2 := s.(tasks := s.tasks + [TryCas(s.active)]);
      var s3 := s.(active := s.active + 1, tasks := s.tasks + [Holding]);
      assert s1.tasks[t := TryCas(s.active)] == s2.tasks && s2.tasks[t := Holding] == s3.tasks;
      TaskMoves(s1, t, s2, 2);
      TaskMoves(s2, t, s3, 1);
      assert Fill(t, n) == [BeginTry] + (Steps(t, 2) + Fill(t + 1, n - 1));
      assert Run(s, Fill(t, n)) == Run(s1, Steps(t, 2) + Fill(t + 1, n - 1));
      RunAppend(s1, Steps(t, 2), Fill(t + 1, n - 1));
      FillTakesPermits(s3, n - 1);
      assert s.tasks + [Holding] + Holders(n - 1) == s.tasks + Holders(n);
    }
  }

  /** No listener is parked, unnotified, with a permit free and no wake on its way. */
  predicate Safe(s: State) {
    forall w :: 0 <= w < |s.waiters| && Stuck(s, w) ==> s.active == s.max || WakeOwed(s)
  }

  /** Listeners a and b park, one drop wakes only b, which takes the permit and drops it unheard. */
  function LosingSchedule(max: nat, a: nat, b: nat): seq<Event>
    requires max > 0
  {
    Fill(0, max) + WaiterSteps(a, 4) + WaiterSteps(b, 4) + Steps(max - 1, 4) + WaiterSteps(b, 3) + Steps(max, 4)
  }

  lemma LosingScheduleSplits(s: State, max: nat, a: nat, b: nat)
    requires max > 0
    ensures Run(s, LosingSchedule(max, a, b))
         == Run(Run(Run(Run(Run(Run(s, Fill(0, max)), WaiterSteps(a, 4)), WaiterSteps(b, 4)), Steps(max - 1, 4)),
                    WaiterSteps(b, 3)), Steps(max, 4))
  {
    var e1 := Fill(0, max);
    var e2 := e1 + WaiterSteps(a, 4);
    var e3 := e2 + WaiterSteps(b, 4);
    var e4 := e3 + Steps(max - 1, 4);
    var e5 := e4 + WaiterSteps(b, 3);
    RunAppend(s, e5, Steps(max, 4));
    RunAppend(s, e4, WaiterSteps(b, 3));
    RunAppend(s, e3, Steps(max - 1, 4));
    RunAppend(s, e2, WaiterSteps(b, 4));
    RunAppend(s, e1, WaiterSteps(a, 4));
  }

  /** Both listeners park on a full limit; the waker slot keeps only the second. */
  lemma BothPark(full: State, a: nat, b: nat)
    requires full.active == full.max && a < |full.waiters| && b < |full.waiters| && a != b
    requires full.waiters[a].Away? && full.waiters[b].Away? && full.woken == {}
    ensures Run(Run(full, WaiterSteps(a, 4)), WaiterSteps(b, 4))
         == full.(waker := Some(b), waiters := full.waiters[a := Parked][b := Parked])
  {
    assert full.woken - {a} == full.woken && full.woken - {b} == full.woken;
    ListenerParks(full, a);
    ListenerParks(full.(waker := Some(a), waiters := full.waiters[a := Parked]), b);
  }

  /** The only notification goes to listener b, whose own release then finds nobody registered. */
  lemma SecondTakesAndDrops(two: State, t: nat, b: nat)
    requires t + 1 == |two.tasks| && two.tasks[t].Holding? && two.active == two.max > 0
    requires b < |two.waiters| && two.waiters[b].Parked? && two.waker == Some(b) && two.woken == {}
    ensures Run(Run(Run(two, Steps(t, 4)), WaiterSteps(b, 3)), Steps(t + 1, 4))
         == two.(active := two.max - 1, waker := None, waiters := two.waiters[b := Away],
                 tasks := two.tasks[t := Gone] + [Gone])
  {
    HolderDrops(two, t);
    var dropped := two.(active := two.max - 1, waker := None, tasks := two.tasks[t := Gone], woken := {b});
    assert two.woken + {b} == {b};
    NotifiedListenerAcquires(dropped, b);
    var taken := dropped.(active := two.max, woken := {}, waiters := two.waiters[b := Away],
                          tasks := dropped.tasks + [Holding]);
    assert dropped.woken - {b} == {};
    HolderDrops(taken, t + 1);
    assert taken.tasks[t + 1 := Gone] == two.tasks[t := Gone] + [Gone];
  }

  /** The state the losing schedule reaches: a is parked for good although a permit is free. */
  function LostState(max: nat, waiters: nat, a: nat, b: nat): State
    requires max > 0 && a < waiters && b < waiters && a != b
  {
    State(max, max - 1, None, {}, Init(max, waiters).waiters[a := Parked][b := Parked][b := Away],
          Holders(max)[max - 1 := Gone] + [Gone])
  }

  lemma LosingScheduleReaches(max: nat, waiters: nat, a: nat, b: nat)
    requires max > 0 && a < waiters && b < waiters && a != b
    ensures Run(Init(max, waiters), LosingSchedule(max, a, b)) == LostState(max, waiters, a, b)
  {
    var s0 := Init(max, waiters);
    var full := State(max, max, None, {}, s0.waiters, Holders(max));
    var two := State(max, max, Some(b), {}, s0.waiters[a := Parked][b := Parked], Holders(max));
    LosingScheduleSplits(s0, max, a, b);
    assert Run(s0, Fill(0, max)) == full by {
      FillTakesPermits(s0, max);
      assert s0.tasks + Holders(max) == Holders(max);
    }
    assert Run(Run(full, WaiterSteps(a, 4)), WaiterSteps(b, 4)) == two by {
      BothPark(full, a, b);
    }
    SecondTakesAndDrops(two, max - 1, b);
  }

  lemma LosingScheduleLoses(max: nat, waiters: nat, a: nat, b: nat)
    requires max > 0 && a < waiters && b < waiters && a != b
    ensures exists schedule :: !Safe(Run(Init(max, waiters), schedule))
  {
    LosingScheduleReaches(max, waiters, a, b);
    var lost := LostState(max, waiters, a, b);
    assert Stuck(lost, a);
    assert forall t :: 0 <= t < |lost.tasks| ==> !lost.tasks[t].Owing?;
  }

  /** A limit loses no wake-up in any interleaving exactly when at most one listener waits on it. */
  lemma NoLostWakeupIffOneListener(max: nat, waiters: nat)
    requires max > 0
    ensures (forall schedule :: Safe(Run(Init(max, waiters), schedule))) <==> waiters <= 1
  {
    if waiters >= 2 {
      LosingScheduleLoses(max, waiters, 0, 1);
    } else {
      forall schedule
        ensures Safe(Run(Init(max, waiters), schedule))
      {
        RunKeepsMax(Init(max, waiters), schedule);
        if waiters == 1 {
          NoLostWakeup(max, schedule);
        }
      }
    }
  }

  // ---------- polls without a wake, and cancelled acquires ----------

  /** Polled for no reason while every permit is out, a parked listener parks again with its waker stored. */
  lemma SpuriousPollParksAgain(s: State, w: nat)
    requires w < |s.waiters| && s.waiters[w].Parked? && s.active >= s.max
    ensures Run(s, [SpuriousPoll(w)] + WaiterSteps(w, 3)) == s.(waker := Some(w), woken := s.woken - {w})
  {
    var e := [SpuriousPoll(w)] + WaiterSteps(w, 3);
    var s1 := s.(woken := s.woken - {w}, waiters := s.waiters[w := Loading]);
    var s2 := s1.(waiters := s.waiters[w := Registering]);
    var s3 := s1.(waker := Some(w), waiters := s.waiters[w := Rechecking]);
    var s4 := s1.(waker := Some(w), waiters := s.waiters);
    assert e[1..] == WaiterSteps(w, 3) && Run(s, e) == Run(s1, e[1..]);
    assert s1.waiters[w := Registering] == s2.waiters;
    assert s2.waiters[w := Rechecking] == s3.waiters && s3.waiters[w := Parked] == s4.waiters;
    WaiterMoves(s1, w, s2, 3);
    WaiterMoves(s2, w, s3, 2);
    WaiterMoves(s3, w, s4, 1);
  }

  /** Wherever its future was dropped, a listener can acquire again: in three steps if a permit is free. */
  lemma CancelledListenerAcquiresAgain(s: State, w: nat)
    requires w < |s.waiters| && s.active < s.max
    ensures Run(s, [CancelAcquire(w)] + WaiterSteps(w, 3))
         == s.(active := s.active + 1, woken := s.woken - {w}, waiters := s.waiters[w := Away],
               tasks := s.tasks + [Holding])
  {
    var e := [CancelAcquire(w)] + WaiterSteps(w, 3);
    var s0 := s.(waiters := s.waiters[w := Away]);
    var s1 := s.(woken := s.woken - {w}, waiters := s.waiters[w := Loading]);
    var s2 := s1.(waiters := s.waiters[w := Trying(s.active)]);
    var s3 := s1.(active := s.active + 1, waiters := s.waiters[w := Away], tasks := s.tasks + [Holding]);
    assert e[1..] == WaiterSteps(w, 3) && Run(s, e) == Run(s0, e[1..]);
    assert s0.waiters[w := Loading] == s1.waiters && s1.waiters[w := Trying(s.active)] == s2.waiters;
    assert s2.waiters[w := Away] == s3.waiters;
    WaiterMoves(s0, w, s1, 3);
    WaiterMoves(s1, w, s2, 2);
    WaiterMoves(s2, w, s3, 1);
  }
}
