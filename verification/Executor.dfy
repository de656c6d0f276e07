/**
 The worker executor: other threads send spawn and cancel commands, tasks report their end through a
 drop guard, and one loop chooses among whatever is ready until shutdown. A schedule gives every choice
 and every move of the surrounding threads and tasks.
 */
module Executor {
  import opened Bytes

  datatype Command = Spawn(id: nat) | Cancel(id: nat)

  datatype TaskState =
    | Fresh                    // spawned, not polled yet: its completion guard does not exist
    | Polled                   // running, guard alive
    | Aborting(guarded: bool)  // abort requested, future not dropped yet
    | Finished
    | Dropped

  predicate Live(t: TaskState) {
    t.Fresh? || t.Polled?
  }

  /** `issued` and `cancelled` are history: the loop does not keep them. */
  datatype State = State(
    issued: nat,                 // ids handed out so far
    nextId: nat,                 // the 64-bit counter
    reserved: set<nat>,          // ids taken by a spawn call that has not sent yet
    remotes: set<nat>,           // task handles held by other threads
    cancelled: set<nat>,         // ids whose handle was used to cancel while the queue was open
    commands: seq<Command>,
    completions: seq<nat>,
    handles: set<nat>,           // keys of the loop's handle map
    tasks: map<nat, TaskState>,  // every task ever started
    shutdown: bool,
    stopped: bool)

  datatype Event =
    | Allocate
    | SendSpawn(id: nat)
    | CallCancel(id: nat)
    | RequestShutdown
    | TakeShutdown
    | TakeCompletion
    | TakeCommand
    | PollTask(id: nat)
    | FinishTask(id: nat)
    | DropAborted(id: nat)

  function Init(): State {
    State(0, 1, {}, {}, {}, [], [], {}, map[], false, false)
  }

  /** What `abort` makes of a task. */
  function Aborted(t: TaskState): TaskState {
    match t
    case Fresh => Aborting(false)
    case Polled => Aborting(true)
    case _ => t
  }

  function AbortAll(tasks: map<nat, TaskState>, ids: set<nat>): map<nat, TaskState> {
    map id | id in tasks :: if id in ids then Aborted(tasks[id]) else tasks[id]
  }

  function Execute(s: State, command: Command): State {
    match command
    case Spawn(id) => s.(handles := s.handles + {id}, tasks := s.tasks[id := Fresh])
    case Cancel(id) =>
      if id in s.handles
      then s.(handles := s.handles - {id}, tasks := AbortAll(s.tasks, {id}))
      else s
  }

  function Report(s: State, id: nat): seq<nat> {
    if s.stopped then s.completions else s.completions + [id]
  }

  /** Steps that do not apply change nothing. */
  function Step(s: State, e: Event): State {
    match e
    case Allocate =>
      s.(issued := s.issued + 1, nextId := (s.nextId + 1) % U64_RANGE, reserved := s.reserved + {s.nextId})
    case SendSpawn(id) =>
      if id !in s.reserved then s
      else if s.stopped then s.(reserved := s.reserved - {id})
      else s.(reserved := s.reserved - {id}, remotes := s.remotes + {id}, commands := s.commands + [Spawn(id)])
    case CallCancel(id) =>
      if id !in s.remotes then s
      else if s.stopped then s.(remotes := s.remotes - {id})
      else s.(remotes := s.remotes - {id}, cancelled := s.cancelled + {id}, commands := s.commands + [Cancel(id)])
    case RequestShutdown => s.(shutdown := true)
    case TakeShutdown =>
      if s.stopped || !s.shutdown then s
      else s.(stopped := true, handles := {}, tasks := AbortAll(s.tasks, s.handles))
    case TakeCompletion =>
      if s.stopped || s.completions == [] then s
      else s.(completions := s.completions[1..], handles := s.handles - {s.completions[0]})
    case TakeCommand =>
      if s.stopped || s.commands == [] then s
      else Execute(s.(commands := s.commands[1..]), s.commands[0])
    case PollTask(id) =>
      if s.stopped || id !in s.tasks || !s.tasks[id].Fresh? then s
      else s.(tasks := s.tasks[id := Polled])
    case FinishTask(id) =>
      if s.stopped || id !in s.tasks || !s.tasks[id].Polled? then s
      else s.(tasks := s.tasks[id := Finished], completions := Report(s, id))
    case DropAborted(id) =>
      if id !in s.tasks || !s.tasks[id].Aborting? then s
      else s.(tasks := s.tasks[id := Dropped],
              completions := if s.tasks[id].guarded then Report(s, id) else s.completions)
  }

  function Run(s: State, schedule: seq<Event>): State
    decreases |schedule|
  {
    if schedule == [] then s else Run(Step(s, schedule[0]), schedule[1..])
  }

  // ---------- identifiers and the command queue ----------

  predicate SpawnsOnce(commands: seq<Command>) {
    forall i, j :: 0 <= i < j < |commands| && commands[i].Spawn? ==> commands[j] != commands[i]
  }

  /** No command cancels a task that the loop will only hear of later. */
  predicate CancelsFollowSpawns(s: State) {
    forall j :: 0 <= j < |s.commands| && s.commands[j].Cancel? ==>
                  s.commands[j].id in s.tasks || Spawn(s.commands[j].id) in s.commands[..j]
  }

  /** The counter starts at 1, so the first 2^64 ids it gives are 1, 2, ..., 2^64 - 1 and 0. */
  predicate Issued(id: nat, n: nat) {
    1 <= id <= n || (id == 0 && n >= U64_RANGE)
  }

  /** An id is reserved, queued or started, and only one of the three; none has been issued twice. */
  predicate Ids(s: State) {
    && s.issued <= U64_RANGE && s.nextId == (s.issued + 1) % U64_RANGE
    && (forall id :: id in s.reserved ==> Issued(id, s.issued) && id !in s.tasks)
    && (forall i :: 0 <= i < |s.commands| && s.commands[i].Spawn? ==>
                      && Issued(s.commands[i].id, s.issued)
                      && s.commands[i].id !in s.tasks
                      && s.commands[i].id !in s.reserved)
    && (forall id :: id in s.tasks ==> Issued(id, s.issued))
    && SpawnsOnce(s.commands)
  }

  predicate Ordered(s: State) {
    && CancelsFollowSpawns(s)
    && forall id :: id in s.remotes ==> id in s.tasks || Spawn(id) in s.commands
  }

  lemma StepKeepsIds(s: State, e: Event)
    requires Ids(s) && (e.Allocate? ==> s.issued < U64_RANGE)
    ensures Ids(Step(s, e))
  {
    var s' := Step(s, e);
    match e
    case Allocate =>
      assert !Issued(s.nextId, s.issued) && Issued(s.nextId, s'.issued);
    case TakeCommand =>
      TakeCommandKeepsIds(s);
    case SendSpawn(id) =>
      if id in s.reserved && !s.stopped {
        AppendKeepsIds(s, s', Spawn(id));
      }
    case CallCancel(id) =>
      if id in s.remotes && !s.stopped {
        AppendKeepsIds(s, s', Cancel(id));
      }
    case _ =>
      assert s'.tasks.Keys == s.tasks.Keys;
  }

  lemma AppendKeepsIds(s: State, s': State, command: Command)
    requires Ids(s) && s'.tasks == s.tasks && s'.nextId == s.nextId && s'.issued == s.issued
    requires s'.commands == s.commands + [command]
    requires command.Spawn? ==> command.id in s.reserved && s'.reserved == s.reserved - {command.id}
    requires command.Cancel? ==> s'.reserved == s.reserved
    ensures Ids(s')
  {
  }

  lemma TakeCommandKeepsIds(s: State)
    requires Ids(s)
    ensures Ids(Step(s, TakeCommand))
  {
    if !s.stopped && s.commands != [] {
      var s' := Step(s, TakeCommand);
      var head := s.commands[0];
      assert s'.tasks.Keys == if head.Spawn? then s.tasks.Keys + {head.id} else s.tasks.Keys;
      assert forall i :: 0 <= i < |s'.commands| ==> s'.commands[i] == s.commands[i + 1];
    }
  }

  lemma StepKeepsOrdered(s: State, e: Event)
    requires Ordered(s)
    ensures Ordered(Step(s, e))
  {
    var s' := Step(s, e);
    if e.TakeCommand? && !s.stopped && s.commands != [] {
      TakeCommandKeepsOrdered(s);
    } else if s'.commands != s.commands {
      AppendKeepsOrdered(s, s');
    } else {
      assert s'.tasks.Keys == s.tasks.Keys;
    }
  }

  lemma AppendKeepsOrdered(s: State, s': State)
    requires Ordered(s) && s'.tasks == s.tasks
    requires |s'.commands| == |s.commands| + 1 && s'.commands[..|s.commands|] == s.commands
    requires var last := s'.commands[|s.commands|];
             && (last.Cancel? ==> last.id in s.remotes)
             && (forall id :: id in s'.remotes ==> id in s.remotes || last == Spawn(id))
    ensures Ordered(s')
  {
    var n := |s.commands|;
    forall j | 0 <= j <= n && s'.commands[j].Cancel?
      ensures s'.commands[j].id in s'.tasks || Spawn(s'.commands[j].id) in s'.commands[..j]
    {
      if j < n {
        assert s'.commands[j] == s.commands[j] && s'.commands[..j] == s.commands[..j];
      }
    }
    assert forall c :: c in s.commands ==> c in s'.commands;
    assert s'.commands[n] in s'.commands;
  }

  lemma TakeCommandKeepsOrdered(s: State)
    requires Ordered(s) && !s.stopped && s.commands != []
    ensures Ordered(Step(s, TakeCommand))
  {
  }

  // ---------- the handle map ----------

  predicate Tracked(s: State) {
    && (forall id :: id in s.tasks && Live(s.tasks[id]) ==> id in s.handles)
    && (forall id :: id in s.handles ==> id in s.tasks && (Live(s.tasks[id]) || s.tasks[id].Finished?))
    && (forall id :: id in s.handles && s.tasks[id].Finished? ==> id in s.completions)
    && (forall id :: id in s.completions ==> id in s.tasks && (s.tasks[id].Finished? || s.tasks[id].Dropped?))
    && (s.stopped ==> s.handles == {})
  }

  lemma StepKeepsTracked(s: State, e: Event)
    requires Ids(s) && Tracked(s)
    ensures Tracked(Step(s, e))
  {
    match e
    case TakeCompletion =>
      if !s.stopped && s.completions != [] {
        assert forall id :: id in s.completions ==> id == s.completions[0] || id in s.completions[1..];
      }
    case TakeCommand =>
      if !s.stopped && s.commands != [] {
        ExecuteKeepsTracked(s.(commands := s.commands[1..]), s.commands[0]);
      }
    case TakeShutdown =>
    case FinishTask(id) => TaskEndKeepsTracked(s, e, id);
    case DropAborted(id) => TaskEndKeepsTracked(s, e, id);
    case _ =>
  }

  lemma ExecuteKeepsTracked(s: State, command: Command)
    requires Tracked(s) && !s.stopped && (command.Spawn? ==> command.id !in s.tasks)
    ensures Tracked(Execute(s, command))
  {
  }

  lemma TaskEndKeepsTracked(s: State, e: Event, id: nat)
    requires Tracked(s) && (e == FinishTask(id) || e == DropAborted(id))
    ensures Tracked(Step(s, e))
  {
    assert forall c :: c in s.completions + [id] <==> c in s.completions || c == id;
  }

  // ---------- who gets aborted ----------

  predicate Blamed(s: State) {
    && (forall id :: id in s.tasks && (s.tasks[id].Aborting? || s.tasks[id].Dropped?) ==>
                       id in s.cancelled || s.stopped)
    && (forall id :: id in s.cancelled && !s.stopped ==>
                       Cancel(id) in s.commands || (id in s.tasks && !Live(s.tasks[id])))
    && (forall i :: 0 <= i < |s.commands| && s.commands[i].Cancel? ==> s.commands[i].id in s.cancelled)
  }

  lemma StepKeepsBlamed(s: State, e: Event)
    requires Ids(s) && Ordered(s) && Tracked(s) && Blamed(s)
    ensures Blamed(Step(s, e))
  {
    var s' := Step(s, e);
    match e
    case TakeCommand =>
      if !s.stopped && s.commands != [] {
        TakeCommandKeepsBlamed(s);
      }
    case TakeShutdown => ShutdownKeepsBlamed(s);
    case SendSpawn(_) => CallKeepsBlamed(s, e);
    case CallCancel(_) => CallKeepsBlamed(s, e);
    case _ => TaskMoveKeepsBlamed(s, s');
  }

  lemma CallKeepsBlamed(s: State, e: Event)
    requires Blamed(s) && (e.SendSpawn? || e.CallCancel?)
    ensures Blamed(Step(s, e))
  {
    var s' := Step(s, e);
    if s'.commands != s.commands {
      AppendKeepsBlamed(s, s', if e.SendSpawn? then Spawn(e.id) else Cancel(e.id));
    }
  }

  lemma ShutdownKeepsBlamed(s: State)
    requires Blamed(s)
    ensures Blamed(Step(s, TakeShutdown))
  {
  }

  /** Moves of tasks that start none and abort none. */
  lemma TaskMoveKeepsBlamed(s: State, s': State)
    requires Blamed(s) && s'.stopped == s.stopped && s'.commands == s.commands && s'.cancelled == s.cancelled
    requires s'.tasks.Keys == s.tasks.Keys
    requires forall id :: id in s.tasks ==>
                            && (Live(s'.tasks[id]) ==> Live(s.tasks[id]))
                            && (s'.tasks[id].Aborting? || s'.tasks[id].Dropped? ==>
                                  s.tasks[id].Aborting? || s.tasks[id].Dropped?)
    ensures Blamed(s')
  {
  }

  lemma AppendKeepsBlamed(s: State, s': State, command: Command)
    requires Blamed(s) && s'.tasks == s.tasks && s'.stopped == s.stopped && s'.commands == s.commands + [command]
    requires s'.cancelled == s.cancelled + if command.Cancel? then {command.id} else {}
    ensures Blamed(s')
  {
    assert command in s'.commands && forall c :: c in s.commands ==> c in s'.commands;
  }

  lemma TakeCommandKeepsBlamed(s: State)
    requires Ids(s) && Ordered(s) && Tracked(s) && Blamed(s) && !s.stopped && s.commands != []
    ensures Blamed(Step(s, TakeCommand))
  {
    var head, rest := s.commands[0], s.commands[1..];
    assert forall c :: c in s.commands ==> c == head || c in rest;
    assert forall i :: 0 <= i < |rest| ==> rest[i] == s.commands[i + 1];
    match head
    case Spawn(id) => SpawnKeepsBlamed(s, id);
    case Cancel(id) =>
      assert id in s.tasks;
      CancelKeepsBlamed(s, id);
  }

  lemma SpawnKeepsBlamed(s: State, id: nat)
    requires Blamed(s) && !s.stopped && s.commands != [] && s.commands[0] == Spawn(id) && id !in s.tasks
    requires forall c :: c in s.commands ==> c == s.commands[0] || c in s.commands[1..]
    ensures Blamed(Step(s, TakeCommand))
  {
    assert Step(s, TakeCommand).commands == s.commands[1..];
  }

  lemma CancelKeepsBlamed(s: State, id: nat)
    requires Tracked(s) && Blamed(s) && !s.stopped && s.commands != [] && s.commands[0] == Cancel(id) && id in s.tasks
    requires forall c :: c in s.commands ==> c == s.commands[0] || c in s.commands[1..]
    ensures Blamed(Step(s, TakeCommand))
  {
    assert Step(s, TakeCommand).commands == s.commands[1..];
  }

  predicate Inv(s: State) {
    Ids(s) && Ordered(s) && Tracked(s) && Blamed(s)
  }

  lemma StepKeepsInv(s: State, e: Event)
    requires Inv(s) && (e.Allocate? ==> s.issued < U64_RANGE)
    ensures Inv(Step(s, e))
  {
    StepKeepsIds(s, e);
    StepKeepsOrdered(s, e);
    StepKeepsTracked(s, e);
    StepKeepsBlamed(s, e);
  }

  /** How many ids a schedule issues: only a spawn call moves the counter. */
  function IdsIssued(schedule: seq<Event>): nat {
    if schedule == [] then 0 else (if schedule[0].Allocate? then 1 else 0) + IdsIssued(schedule[1..])
  }

  lemma StepIssues(s: State, e: Event)
    ensures Step(s, e).issued == s.issued + if e.Allocate? then 1 else 0
  {
  }

  lemma FirstKeepsInv(s: State, schedule: seq<Event>)
    requires Inv(s) && schedule != [] && s.issued + IdsIssued(schedule) <= U64_RANGE
    ensures Inv(Step(s, schedule[0]))
    ensures Step(s, schedule[0]).issued + IdsIssued(schedule[1..]) <= U64_RANGE
  {
    StepIssues(s, schedule[0]);
    StepKeepsInv(s, schedule[0]);
  }

  lemma {:induction false} RunKeepsInv(s: State, schedule: seq<Event>)
    requires Inv(s) && s.issued + IdsIssued(schedule) <= U64_RANGE
    ensures Inv(Run(s, schedule))
    decreases |schedule|
  {
    if schedule != [] {
      FirstKeepsInv(s, schedule);
      RunKeepsInv(Step(s, schedule[0]), schedule[1..]);
    }
  }

  lemma ReachableInv(schedule: seq<Event>)
    requires IdsIssued(schedule) <= U64_RANGE
    ensures Inv(Run(Init(), schedule))
  {
    RunKeepsInv(Init(), schedule);
  }

  // ---------- what holds in every run that issues no id twice ----------

  /**
   A live task can be reached through the handle map, a map entry of a finished task has its completion
   queued, a cancel never overtakes its spawn, and only a task whose own handle was cancelled is aborted
   before the loop ends.
   */
  predicate Safe(s: State) {
    && (forall id :: id in s.tasks && Live(s.tasks[id]) ==> id in s.handles)
    && (forall id :: id in s.handles ==> id in s.tasks)
    && (forall id :: id in s.handles && s.tasks[id].Finished? ==> id in s.completions)
    && CancelsFollowSpawns(s)
    && (forall id :: id in s.tasks && !s.stopped && (s.tasks[id].Aborting? || s.tasks[id].Dropped?) ==>
                       id in s.cancelled)
  }

  /** Once the loop has ended, every task it started has finished or been aborted. */
  predicate EndedAtShutdown(s: State) {
    s.stopped ==> s.handles == {} && forall id :: id in s.tasks ==> !Live(s.tasks[id])
  }

  /** With no completion waiting, the handle map holds exactly the live tasks: entries never pile up. */
  predicate MapExact(s: State) {
    !s.stopped && s.completions == [] ==> s.handles == set id | id in s.tasks && Live(s.tasks[id])
  }

  /** A cancel is never lost: unless the loop ended first, it is queued or its task is no longer live. */
  predicate CancelsHeeded(s: State) {
    forall id :: id in s.cancelled && !s.stopped ==>
                   Cancel(id) in s.commands || (id in s.tasks && !Live(s.tasks[id]))
  }

  lemma ExecutorSafety(schedule: seq<Event>)
    requires IdsIssued(schedule) <= U64_RANGE
    ensures Safe(Run(Init(), schedule))
  {
    ReachableInv(schedule);
  }

  lemma ShutdownEndsEveryTask(schedule: seq<Event>)
    requires IdsIssued(schedule) <= U64_RANGE
    ensures EndedAtShutdown(Run(Init(), schedule))
  {
    ReachableInv(schedule);
  }

  lemma DrainedMapIsExact(schedule: seq<Event>)
    requires IdsIssued(schedule) <= U64_RANGE
    ensures MapExact(Run(Init(), schedule))
  {
    ReachableInv(schedule);
  }

  lemma CancelTakesEffect(schedule: seq<Event>)
    requires IdsIssued(schedule) <= U64_RANGE
    ensures CancelsHeeded(Run(Init(), schedule))
  {
    ReachableInv(schedule);
  }

  predicate Guaranteed(s: State) {
    Safe(s) && EndedAtShutdown(s) && MapExact(s) && CancelsHeeded(s)
  }

  lemma RunIsGuaranteed(s: State, schedule: seq<Event>)
    ensures Inv(s) && s.issued + IdsIssued(schedule) <= U64_RANGE ==>
              Inv(Run(s, schedule)) && Guaranteed(Run(s, schedule))
  {
    if Inv(s) && s.issued + IdsIssued(schedule) <= U64_RANGE {
      RunKeepsInv(s, schedule);
    }
  }

  predicate Ended(s: State, id: nat) {
    id in s.tasks && !Live(s.tasks[id])
  }

  lemma EndedTaskStaysEnded(s: State, e: Event, id: nat)
    requires Ids(s) && Ended(s, id)
    ensures Ended(Step(s, e), id)
  {
    if e.TakeCommand? && s.commands != [] {
      assert s.commands[0].Spawn? ==> s.commands[0].id != id;
    }
  }

  /** A task that has ended, or been told to, never runs again. */
  lemma {:induction false} EndedTasksStayEnded(s: State, schedule: seq<Event>, id: nat)
    requires Inv(s) && s.issued + IdsIssued(schedule) <= U64_RANGE
    requires Ended(s, id)
    ensures Ended(Run(s, schedule), id)
    decreases |schedule|
  {
    if schedule != [] {
      FirstKeepsInv(s, schedule);
      EndedTaskStaysEnded(s, schedule[0], id);
      EndedTasksStayEnded(Step(s, schedule[0]), schedule[1..], id);
    }
  }

  // ---------- 2^64 ids is the threshold ----------

  /** Every run that issues at most `n` ids ends in a state that satisfies `p`. */
  ghost predicate Always(n: nat, p: State -> bool) {
    forall schedule :: IdsIssued(schedule) <= n ==> p(Run(Init(), schedule))
  }

  /** In every run that issues at most `n` ids, a task that has ended stays ended. */
  ghost predicate EndsForGood(n: nat) {
    forall before, after, id ::
      IdsIssued(before) + IdsIssued(after) <= n && Ended(Run(Init(), before), id) ==>
        Ended(Run(Run(Init(), before), after), id)
  }

  lemma {:induction false} RunAppend(s: State, a: seq<Event>, b: seq<Event>)
    ensures Run(s, a + b) == Run(Run(s, a), b)
    ensures IdsIssued(a + b) == IdsIssued(a) + IdsIssued(b)
    decreases |a|
  {
    if a == [] {
      assert a + b == b;
    } else {
      assert (a + b)[0] == a[0] && (a + b)[1..] == a[1..] + b;
      RunAppend(Step(s, a[0]), a[1..], b);
    }
  }

  lemma RunOne(s: State, schedule: seq<Event>, next: State)
    requires schedule != [] && next == Step(s, schedule[0])
    ensures Run(s, schedule) == Run(next, schedule[1..])
    ensures IdsIssued(schedule) == (if schedule[0].Allocate? then 1 else 0) + IdsIssued(schedule[1..])
  {
  }

  lemma {:induction false} IssuedByRun(s: State, schedule: seq<Event>)
    ensures Run(s, schedule).issued == s.issued + IdsIssued(schedule)
    decreases |schedule|
  {
    if schedule != [] {
      StepIssues(s, schedule[0]);
      IssuedByRun(Step(s, schedule[0]), schedule[1..]);
    }
  }

  lemma NextModulo(a: nat, m: nat)
    requires m > 1
    ensures (a % m + 1) % m == (a + 1) % m
  {
    var q, r := a / m, a % m;
    assert a == m * q + r;
    if r + 1 == m {
      assert m * (q + 1) == m * q + m;
      QuotientIs(a + 1, m, q + 1, 0);
      QuotientIs(r + 1, m, 1, 0);
    } else {
      QuotientIs(a + 1, m, q, r + 1);
      QuotientIs(r + 1, m, 0, r + 1);
    }
  }

  /** A spawn call, carried out by an idle loop. */
  function Spawning(id: nat): seq<Event> {
    [Allocate, SendSpawn(id), TakeCommand]
  }

  lemma SpawningStarts(s: State, id: nat)
    requires !s.stopped && s.commands == [] && s.reserved == {} && s.nextId == id
    ensures Run(s, Spawning(id))
         == s.(issued := s.issued + 1, nextId := (id + 1) % U64_RANGE, remotes := s.remotes + {id},
               handles := s.handles + {id}, tasks := s.tasks[id := Fresh])
    ensures IdsIssued(Spawning(id)) == 1
  {
    var e := Spawning(id);
    var s1 := s.(issued := s.issued + 1, nextId := (id + 1) % U64_RANGE, reserved := {id});
    var s2 := s1.(reserved := {}, remotes := s.remotes + {id}, commands := [Spawn(id)]);
    var s3 := s2.(commands := [], handles := s.handles + {id}, tasks := s.tasks[id := Fresh]);
    assert {} + {id} == {id} && {id} - {id} == {} && [] + [Spawn(id)] == [Spawn(id)] && [Spawn(id)][1..] == [];
    RunOne(s, e, s1);
    RunOne(s1, e[1..], s2);
    RunOne(s2, e[2..], s3);
    assert e[3..] == [];
  }

  /** A cancel of a live task: it reports its end exactly if it was ever polled, since only then it has a guard. */
  function Discarding(id: nat): seq<Event> {
    [CallCancel(id), TakeCommand, DropAborted(id)]
  }

  lemma DiscardingDrops(s: State, id: nat)
    requires !s.stopped && s.commands == [] && id in s.remotes && id in s.handles && id in s.tasks && Live(s.tasks[id])
    ensures Run(s, Discarding(id))
         == s.(remotes := s.remotes - {id}, cancelled := s.cancelled + {id},
               handles := s.handles - {id}, tasks := s.tasks[id := Dropped],
               completions := s.completions + if s.tasks[id].Polled? then [id] else [])
    ensures IdsIssued(Discarding(id)) == 0
  {
    var e := Discarding(id);
    var s1 := s.(remotes := s.remotes - {id}, cancelled := s.cancelled + {id}, commands := [Cancel(id)]);
    var s2 := s1.(commands := [], handles := s.handles - {id}, tasks := s.tasks[id := Aborting(s.tasks[id].Polled?)]);
    assert [] + [Cancel(id)] == [Cancel(id)] && [Cancel(id)][1..] == [];
    assert AbortAll(s.tasks, {id}) == s2.tasks;
    RunOne(s, e, s1);
    RunOne(s1, e[1..], s2);
    RunOne(s2, e[2..], s2.(tasks := s.tasks[id := Dropped],
                           completions := s.completions + if s.tasks[id].Polled? then [id] else []));
    assert e[3..] == [];
  }

  /** Task 1 runs to its end; the loop has not read its completion yet. */
  function FirstTask(): seq<Event> {
    Spawning(1) + [PollTask(1), FinishTask(1)]
  }

  function FirstTaskDone(): State {
    State(1, 2, {}, {1}, {}, [], [1], {1}, map[1 := Finished], false, false)
  }

  lemma FirstTaskReaches()
    ensures Run(Init(), FirstTask()) == FirstTaskDone() && IdsIssued(FirstTask()) == 1
  {
    var e := [PollTask(1), FinishTask(1)];
    SpawningStarts(Init(), 1);
    RunAppend(Init(), Spawning(1), e);
    var s1 := State(1, 2, {}, {1}, {}, [], [], {1}, map[1 := Fresh], false, false);
    assert {} + {1} == {1};
    RunOne(s1, e, s1.(tasks := map[1 := Polled]));
    RunOne(s1.(tasks := map[1 := Polled]), e[1..], FirstTaskDone());
    assert e[2..] == [];
  }

  /** The first task's completion still waits when `n` ids have been issued. */
  predicate Waiting(s: State, n: nat) {
    && s == State(n, (n + 1) % U64_RANGE, {}, {1}, s.cancelled, [], [1], {1}, s.tasks, false, false)
    && 1 in s.tasks && s.tasks[1].Finished?
  }

  function Discard(id: nat): seq<Event> {
    Spawning(id) + Discarding(id)
  }

  lemma DiscardReaches(s: State, n: nat, id: nat)
    requires Waiting(s, n) && id == (n + 1) % U64_RANGE && id != 1
    ensures Waiting(Run(s, Discard(id)), n + 1) && IdsIssued(Discard(id)) == 1
  {
    NextModulo(n + 1, U64_RANGE);
    RunAppend(s, Spawning(id), Discarding(id));
    SpawningStarts(s, id);
    DiscardingDrops(Run(s, Spawning(id)), id);
    assert {1} + {id} - {id} == {1} && [1] + [] == [1];
  }

  /** One thread spawns and discards a task under each id from the second to the `n`th. */
  function Discards(n: nat): seq<Event>
    requires n >= 1
  {
    if n == 1 then [] else Discards(n - 1) + Discard(n % U64_RANGE)
  }

  lemma {:induction false} DiscardsReach(n: nat)
    requires 1 <= n <= U64_RANGE
    ensures Waiting(Run(FirstTaskDone(), Discards(n)), n)
    ensures IdsIssued(Discards(n)) == n - 1
  {
    if n > 1 {
      DiscardsReach(n - 1);
      RunAppend(FirstTaskDone(), Discards(n - 1), Discard(n % U64_RANGE));
      DiscardReaches(Run(FirstTaskDone(), Discards(n - 1)), n - 1, n % U64_RANGE);
    }
  }

  /** The next spawn gets the id 1 again. */
  function SecondTask(): seq<Event> {
    Discards(U64_RANGE) + Spawning(1)
  }

  /** Two tasks have had the id 1: the first one's completion is queued while the second has just started. */
  predicate Reused(s: State) {
    && s == State(U64_RANGE + 1, 2, {}, {1}, s.cancelled, [], [1], {1}, s.tasks, false, false)
    && 1 in s.tasks && s.tasks[1].Fresh?
  }

  lemma SecondTaskReaches()
    ensures Reused(Run(FirstTaskDone(), SecondTask()))
    ensures IdsIssued(SecondTask()) == U64_RANGE
  {
    DiscardsReach(U64_RANGE);
    SpawningReuses(FirstTaskDone(), Discards(U64_RANGE), 1);
  }

  lemma SpawningReuses(s: State, discards: seq<Event>, id: nat)
    requires Waiting(Run(s, discards), U64_RANGE) && id == 1
    ensures Reused(Run(s, discards + Spawning(id)))
    ensures IdsIssued(discards + Spawning(id)) == IdsIssued(discards) + 1
  {
    RunAppend(s, discards, Spawning(id));
    SpawningStarts(Run(s, discards), id);
    assert {1} + {id} == {1};
  }

  /** The stale completion then takes the new task's handle out of the map. */
  lemma StaleCompletionUnlists(s: State) returns (s': State)
    requires Reused(s)
    ensures Run(s, [TakeCompletion]) == s' == s.(completions := [], handles := {})
    ensures !Safe(s') && !MapExact(s')
  {
    s' := s.(completions := [], handles := {});
    assert {1} - {1} == {} && [1][1..] == [];
    RunOne(s, [TakeCompletion], s');
    assert 1 in s'.tasks && Live(s'.tasks[1]);
    assert 1 in set id | id in s'.tasks && Live(s'.tasks[id]);
  }

  /** So neither shutting down nor cancelling reaches that task. */
  lemma UnlistedTaskIsOutOfReach(s: State)
    requires Reused(s)
    ensures !EndedAtShutdown(Run(s, [TakeCompletion, RequestShutdown, TakeShutdown]))
    ensures !CancelsHeeded(Run(s, [TakeCompletion, CallCancel(1), TakeCommand]))
  {
    var s' := s.(completions := [], handles := {});
    assert {1} - {1} == {} && [1][1..] == [];
    var down, cancel := [TakeCompletion, RequestShutdown, TakeShutdown], [TakeCompletion, CallCancel(1), TakeCommand];
    RunOne(s, down, s');
    RunOne(s', down[1..], s'.(shutdown := true));
    var ended := s'.(shutdown := true, stopped := true);
    assert AbortAll(s'.tasks, {}) == s'.tasks;
    RunOne(s'.(shutdown := true), down[2..], ended);
    assert 1 in ended.tasks && Live(ended.tasks[1]);

    RunOne(s, cancel, s');
    var sent := s'.(remotes := {}, cancelled := s.cancelled + {1}, commands := [Cancel(1)]);
    RunOne(s', cancel[1..], sent);
    assert [Cancel(1)][1..] == [];
    RunOne(sent, cancel[2..], sent.(commands := []));
  }

  /** The run that issues one id more than there are, followed by `more`. */
  lemma ReuseRun(more: seq<Event>) returns (schedule: seq<Event>, s: State)
    requires IdsIssued(more) == 0
    ensures Reused(s) && Run(Init(), schedule) == Run(s, more)
    ensures IdsIssued(schedule) == U64_RANGE + 1
  {
    FirstTaskReaches();
    SecondTaskReaches();
    RunAppend(Init(), FirstTask(), SecondTask());
    RunAppend(Init(), FirstTask() + SecondTask(), more);
    schedule, s := FirstTask() + SecondTask() + more, Run(FirstTaskDone(), SecondTask());
  }

  /** Each guarantee holds in all runs that issue at most `n` ids exactly when `n` is at most 2^64. */
  lemma GuaranteesIffIdsUnique(n: nat)
    ensures Always(n, Safe) <==> n <= U64_RANGE
    ensures Always(n, EndedAtShutdown) <==> n <= U64_RANGE
    ensures Always(n, MapExact) <==> n <= U64_RANGE
    ensures Always(n, CancelsHeeded) <==> n <= U64_RANGE
    ensures EndsForGood(n) <==> n <= U64_RANGE
  {
    if n <= U64_RANGE {
      GuaranteesHold(n);
    } else {
      GuaranteesFail(n);
    }
  }

  lemma GuaranteesHold(n: nat)
    requires n <= U64_RANGE
    ensures Always(n, Safe) && Always(n, EndedAtShutdown) && Always(n, MapExact) && Always(n, CancelsHeeded)
    ensures EndsForGood(n)
  {
    forall schedule | IdsIssued(schedule) <= n
      ensures Inv(Run(Init(), schedule)) && Run(Init(), schedule).issued == IdsIssued(schedule)
    {
      ReachableInv(schedule);
      IssuedByRun(Init(), schedule);
    }
    forall before, after, id |
      IdsIssued(before) + IdsIssued(after) <= n && Ended(Run(Init(), before), id)
      ensures Ended(Run(Run(Init(), before), after), id)
    {
      EndedTasksStayEnded(Run(Init(), before), after, id);
    }
  }

  lemma GuaranteesFail(n: nat)
    requires n > U64_RANGE
    ensures !Always(n, Safe) && !Always(n, EndedAtShutdown) && !Always(n, MapExact) && !Always(n, CancelsHeeded)
    ensures !EndsForGood(n)
  {
    var stale, s := ReuseRun([TakeCompletion]);
    var _ := StaleCompletionUnlists(s);
    var shut, s1 := ReuseRun([TakeCompletion, RequestShutdown, TakeShutdown]);
    UnlistedTaskIsOutOfReach(s1);
    var cancel, s2 := ReuseRun([TakeCompletion, CallCancel(1), TakeCommand]);
    UnlistedTaskIsOutOfReach(s2);
    FirstTaskReaches();
    SecondTaskReaches();
    assert IdsIssued(FirstTask()) + IdsIssued(SecondTask()) <= n && Ended(Run(Init(), FirstTask()), 1);
  }

  lemma RunTwo(s: State, a: Event, b: Event)
    ensures Run(s, [a, b]) == Step(Step(s, a), b)
  {
    assert [a, b][1..] == [b];
    assert Run(Step(s, a), [b]) == Run(Step(Step(s, a), b), []);
  }

  lemma {:induction false} RunExtend(s: State, schedule: seq<Event>, k: nat)
    requires k < |schedule|
    ensures Run(s, schedule[..k + 1]) == Step(Run(s, schedule[..k]), schedule[k])
    decreases k
  {
    if k == 0 {
      assert schedule[..1][1..] == [];
    } else {
      assert schedule[..k][1..] == schedule[1..][..k - 1] && schedule[..k + 1][1..] == schedule[1..][..k];
      RunExtend(Step(s, schedule[0]), schedule[1..], k - 1);
    }
  }

  lemma AbortOneMore(tasks: map<nat, TaskState>, done: set<nat>, id: nat)
    ensures AbortAll(AbortAll(tasks, done), {id}) == AbortAll(tasks, done + {id})
  {
  }

  // ---------- the loop itself ----------

  datatype Error = BrokenPipe

  /** Aborting a join handle aborts the task it was made for. */
  datatype JoinHandle = JoinHandle(task: nat)

  class CurrentThreadExecutor {
    var nextId: nat
    var reserved: set<nat>
    var remotes: set<nat>
    var commands: seq<Command>
    var completions: seq<nat>
    var taskHandles: map<nat, JoinHandle>
    var tasks: map<nat, TaskState>
    var shutdown: bool
    var stopped: bool
    ghost var issued: nat
    ghost var cancelled: set<nat>

    ghost function View(): State
      reads this
    {
      State(issued, nextId, reserved, remotes, cancelled, commands, completions, taskHandles.Keys, tasks,
            shutdown, stopped)
    }

    /** Every map entry holds the handle of the task it is filed under. */
    ghost predicate Filed()
      reads this
    {
      forall id :: id in taskHandles ==> taskHandles[id].task == id
    }

    constructor ()
      ensures View() == Init() && Filed()
    {
      issued, nextId := 0, 1;
      reserved, remotes, cancelled := {}, {}, {};
      commands, completions := [], [];
      taskHandles, tasks := map[], map[];
      shutdown, stopped := false, false;
    }

    method Abort(handle: JoinHandle)
      modifies `tasks
      ensures tasks == AbortAll(old(tasks), {handle.task})
    {
      tasks := map id | id in tasks :: if id == handle.task then Aborted(tasks[id]) else tasks[id];
    }

    /** Takes an id and sends the spawn; afterwards the loop will start the task unless it has ended. */
    method SpawnTask() returns (r: Result<nat, Error>)
      modifies this
      ensures View() == Run(old(View()), [Allocate, SendSpawn(old(nextId))])
      ensures r == if old(stopped) then Err(BrokenPipe) else Ok(old(nextId))
      ensures Filed() == old(Filed())
    {
      var id := nextId;
      RunTwo(View(), Allocate, SendSpawn(id));
      Outside(Allocate);
      Outside(SendSpawn(id));
      r := if stopped then Err(BrokenPipe) else Ok(id);
    }

    /** The moves that are not the loop's own. */
    method Outside(e: Event)
      requires !e.TakeShutdown? && !e.TakeCompletion? && !e.TakeCommand?
      modifies `issued, `nextId, `reserved, `remotes, `cancelled, `commands, `completions, `tasks, `shutdown
      ensures View() == Step(old(View()), e)
    {
      match e {
        case Allocate =>
          issued, nextId, reserved := issued + 1, (nextId + 1) % U64_RANGE, reserved + {nextId};
        case SendSpawn(id) =>
          if id in reserved {
            reserved := reserved - {id};
            if !stopped {
              remotes, commands := remotes + {id}, commands + [Spawn(id)];
            }
          }
        case CallCancel(id) =>
          if id in remotes {
            remotes := remotes - {id};
            if !stopped {
              cancelled, commands := cancelled + {id}, commands + [Cancel(id)];
            }
          }
        case RequestShutdown =>
          shutdown := true;
        case PollTask(id) =>
          if !stopped && id in tasks && tasks[id].Fresh? {
            tasks := tasks[id := Polled];
          }
        case FinishTask(id) =>
          if !stopped && id in tasks && tasks[id].Polled? {
            tasks, completions := tasks[id := Finished], completions + [id];
          }
        case DropAborted(id) =>
          if id in tasks && tasks[id].Aborting? {
            if tasks[id].guarded && !stopped {
              completions := completions + [id];
            }
            tasks := tasks[id := Dropped];
          }
      }
    }

    /** One completion from the queue. */
    method TakeOneCompletion()
      requires !stopped && completions != [] && Filed()
      modifies `completions, `taskHandles
      ensures View() == Step(old(View()), TakeCompletion) && Filed()
    {
      taskHandles := taskHandles - {completions[0]};
      completions := completions[1..];
    }

    /** One command from the queue. */
    method TakeOneCommand()
      requires !stopped && commands != [] && Filed()
      modifies `commands, `taskHandles, `tasks
      ensures View() == Step(old(View()), TakeCommand) && Filed()
    {
      var command := commands[0];
      commands := commands[1..];
      match command {
        case Spawn(id) =>
          tasks := tasks[id := Fresh];
          taskHandles := taskHandles[id := JoinHandle(id)];
        case Cancel(id) =>
          if id in taskHandles {
            var handle := taskHandles[id];
            taskHandles := taskHandles - {id};
            Abort(handle);
          }
      }
    }

    /**
     Runs the loop through a schedule of choices and outside moves until it is told to shut down, then
     aborts whatever the map still holds. Unless an id comes round, no live task is ever out of the map's
     reach, and when the loop has ended no task it started is live.
     */
    method ParkUntilShutdown(world: seq<Event>) returns (used: nat)
      requires Filed()
      modifies this
      ensures used <= |world| && (used < |world| ==> stopped)
      ensures View() == Run(old(View()), world[..used]) && Filed()
      ensures old(Inv(View())) && old(issued) + IdsIssued(world[..used]) <= U64_RANGE ==>
                Inv(View()) && Guaranteed(View())
    {
      used := 0;
      assert world[..0] == [];
      ghost var start := View();
      while used < |world| && !stopped
        invariant used <= |world|
        invariant View() == Run(start, world[..used]) && Filed()
      {
        RunExtend(start, world, used);
        var event := world[used];
        match event {
          case TakeShutdown =>
            if shutdown {
              AbortRemaining();
            }
          case TakeCompletion =>
            if completions != [] {
              TakeOneCompletion();
            }
          case TakeCommand =>
            if commands != [] {
              TakeOneCommand();
            }
          case _ =>
            Outside(event);
        }
        used := used + 1;
      }
      RunIsGuaranteed(start, world[..used]);
    }

    /** After the loop: every handle left in the map is aborted, in whatever order the map yields them. */
    method AbortRemaining()
      requires !stopped && shutdown && Filed()
      modifies `stopped, `taskHandles, `tasks
      ensures View() == Step(old(View()), TakeShutdown) && Filed()
    {
      stopped := true;
      var left := taskHandles.Keys;
      while left != {}
        invariant stopped && taskHandles == old(taskHandles)
        invariant left <= taskHandles.Keys
        invariant tasks == AbortAll(old(tasks), taskHandles.Keys - left)
      {
        var id :| id in left;
        AbortOneMore(old(tasks), taskHandles.Keys - left, id);
        assert taskHandles.Keys - left + {id} == taskHandles.Keys - (left - {id});
        Abort(taskHandles[id]);
        left := left - {id};
      }
      assert taskHandles.Keys - left == taskHandles.Keys;
      taskHandles := map[];
    }
  }
}
