/** How often a task is tried: what each operation does to one task, and that a task whose every dispatch
  fails is tried exactly as often as its queue allows. */
module CloudTasksAttempts {
  import opened Wrappers
  import opened Text
  import opened GoTime
  import opened CloudTasksState

  function At(st: State, queue: string, task: string): Option<Task> {
    if queue in st.tasks && task in st.tasks[queue] then Some(st.tasks[queue][task]) else None
  }

  function QueueAt(st: State, queue: string): Option<Queue> {
    if queue in st.queues then Some(st.queues[queue]) else None
  }

  ghost predicate OthersStay(before: State, after: State, queue: string, task: string) {
    forall q, n :: q != queue || n != task ==> At(after, q, n) == At(before, q, n)
  }

  // ---------- one operation ----------

  /** A retry puts a task with attempts left back, to wait for its backoff, and drops any other. */
  lemma {:induction false} RetryMeans(st: State, queue: string, task: string, now: int)
    requires WellFormed(st) && At(st, queue, task).Some? && QueueAt(st, queue).Some?
    ensures var after := RetryTask(st, queue, task, now);
            var t, q := At(st, queue, task).value, QueueAt(st, queue).value;
            && after.queues == st.queues && OthersStay(st, after, queue, task)
            && At(after, queue, task) ==
               if t.dispatchCount < q.maxAttempts then
                 Some(t.(state := Pending, scheduleTime := now + Backoff(q, t.dispatchCount)))
               else None
  {
    assert TasksOk(queue, st.queues[queue], st.tasks[queue]);
    hide Backoff;
  }

  lemma {:induction false} RetriedExactly(st: State, queue: string, task: string)
    requires WellFormed(st)
    ensures CanRetry(st, queue, task) <==>
              && At(st, queue, task).Some? && QueueAt(st, queue).Some?
              && At(st, queue, task).value.dispatchCount < QueueAt(st, queue).value.maxAttempts
  {}

  /** A task is polled when it is pending and its time has come. */
  predicate Ripe(t: Option<Task>, now: int) {
    t.Some? && t.value.state == Pending && t.value.scheduleTime <= now
  }

  /** A poll dispatches every task that is ripe, counts that as an attempt, and leaves the others alone. */
  lemma {:induction false} PollMeans(st: State, now: int, queue: string, task: string)
    requires WellFormed(st)
    ensures var after := DueTasks(st, now);
            var t := At(st, queue, task);
            && after.queues == st.queues
            && At(after, queue, task) ==
               if Ripe(t, now) then
                 Some(t.value.(state := Dispatching, dispatchCount := t.value.dispatchCount + 1, lastAttempt := now))
               else t
  {
    if Has(st, queue, task) { assert TasksOk(queue, st.queues[queue], st.tasks[queue]); }
  }

  /** A new queue keeps the settings that are positive, and gets defaults for the others. */
  lemma {:induction false} CreateQueueMeans(st: State, config: Queue)
    ensures var after := CreateQueue(st, config);
            if config.name in st.queues then after == st
            else
              && QueueAt(after, config.name).Some?
              && var q := QueueAt(after, config.name).value;
                 && q.name == config.name && q.maxDoublings == config.maxDoublings
                 && q.maxAttempts == (if config.maxAttempts > 0 then config.maxAttempts else 3)
                 && q.minBackoffSeconds == (if config.minBackoffSeconds > 0 then config.minBackoffSeconds else 1)
                 && q.maxBackoffSeconds == (if config.maxBackoffSeconds > 0 then config.maxBackoffSeconds else 10)
                 && (forall n :: At(after, config.name, n) == None)
                 && (forall other :: other != config.name ==> QueueAt(after, other) == QueueAt(st, other))
                 && (forall other, n :: other != config.name ==> At(after, other, n) == At(st, other, n))
  {}

  /** A new task carries its request, waits for its schedule time or none, and has not been tried. */
  lemma {:induction false} CreateTaskMeans(st: State, queue: string, task: string, request: Request, scheduleTime: int,
                                           now: int)
    requires queue in st.queues && queue in st.tasks && At(st, queue, NameFor(st, queue, task)).None?
    ensures var after, name := CreateTask(st, queue, task, request, scheduleTime, now), NameFor(st, queue, task);
            && name == (if task == "" then queue + "/tasks/" + Decimal(st.counter + 1) else task)
            && after.queues == st.queues && OthersStay(st, after, queue, name)
            && At(after, queue, name).Some?
            && var t := At(after, queue, name).value;
               && t.name == name && t.queue == queue && t.state == Pending && t.dispatchCount == 0 && t.createTime == now
               && t.scheduleTime == (if scheduleTime == ZERO_TIME then now else scheduleTime)
               && t.request.url == request.url && t.request.body == request.body && t.request.headers == request.headers
               && t.request.httpMethod == if request.httpMethod == "" then "POST" else request.httpMethod
  {}

  lemma {:induction false} RemoveMeans(st: State, queue: string, task: string)
    ensures var after := RemoveTask(st, queue, task);
            after.queues == st.queues && At(after, queue, task) == None && OthersStay(st, after, queue, task)
  {}

  /** Purging a queue empties it, and deleting it removes it with its tasks. */
  lemma {:induction false} PurgeAndDeleteMean(st: State, queue: string, q: string, n: string)
    requires WellFormed(st)
    ensures At(PurgeQueue(st, queue), q, n) == if q == queue then None else At(st, q, n)
    ensures At(DeleteQueue(st, queue), q, n) == if q == queue then None else At(st, q, n)
    ensures PurgeQueue(st, queue).queues == st.queues
    ensures QueueAt(DeleteQueue(st, queue), q) == if q == queue then None else QueueAt(st, q)
  {}

  // ---------- a task that nobody removes ----------

  /** The operation takes the task off, alone or with its queue. */
  predicate Removes(op: Op, queue: string, task: string) {
    match op
    case OpDeleteQueue(q) => q == queue
    case OpPurgeQueue(q) => q == queue
    case OpDeleteTask(q, n) => q == queue && n == task
    case OpCompleteTask(q, n) => q == queue && n == task
    case _ => false
  }

  /** The operation creates a task of the name. */
  predicate Renews(st: State, op: Op, queue: string, task: string) {
    op.OpCreateTask? && op.queue == queue && NameFor(st, queue, op.task) == task && At(st, queue, task).None?
  }

  /** Nobody removes the task, or creates another of its name. Retries may come at any time. */
  ghost predicate LeftAlone(st: State, ops: seq<Op>, queue: string, task: string)
    decreases ops
  {
    ops != [] ==>
      && !Removes(ops[0], queue, task) && !Renews(st, ops[0], queue, task)
      && LeftAlone(Exec(st, ops[0]), ops[1..], queue, task)
  }

  predicate Tries(st: State, op: Op, queue: string, task: string) {
    op.OpDueTasks? && Ripe(At(st, queue, task), op.now)
  }

  /** How often the task is dispatched. */
  ghost function TriesOf(st: State, ops: seq<Op>, queue: string, task: string): nat
    decreases ops
  {
    if ops == [] then 0
    else (if Tries(st, ops[0], queue, task) then 1 else 0) + TriesOf(Exec(st, ops[0]), ops[1..], queue, task)
  }

  /** What an operation makes of a task that it does not remove: each try is counted, and it goes only when
    its attempts are used up. */
  ghost predicate Moves(before: Option<Task>, after: Option<Task>, tries: nat, max: int) {
    if before.None? then after.None? && tries == 0
    else if after.None? then before.value.dispatchCount == max && tries == 0
    else
      && after.value.dispatchCount == before.value.dispatchCount + tries && after.value.dispatchCount <= max
      && (after.value.state == Dispatching ==> tries == 1 || before.value.state == Dispatching)
  }

  lemma {:induction false} StepMoves(st: State, op: Op, queue: string, task: string, q: Queue)
    requires WellFormed(st) && QueueAt(st, queue) == Some(q)
    requires !Removes(op, queue, task) && !Renews(st, op, queue, task)
    ensures WellFormed(Exec(st, op)) && QueueAt(Exec(st, op), queue) == Some(q)
    ensures Moves(At(st, queue, task), At(Exec(st, op), queue, task), if Tries(st, op, queue, task) then 1 else 0, q.maxAttempts)
  {
    hide WellFormed, Backoff, DueTasks, RetryTask, CreateTask, CreateQueue, RemoveTask, WithDefaults, NewTask;
    ExecOk(st, op);
    CountInRange(st, queue, task);
    WaitingHasLeft(st, queue, task);
    match op {
      case OpDueTasks(now) => PollMeans(st, now, queue, task);
      case OpRetryTask(other, n, now) =>
        if At(st, other, n).Some? && QueueAt(st, other).Some? { RetryMeans(st, other, n, now); }
        else { NothingToRetry(st, other, n, now); }
      case OpCreateTask(_, _, _, _, _) => CreateMoves(st, op, queue, task);
      case OpCreateQueue(config) => CreateQueueMeans(st, config);
      case OpDeleteTask(other, n) => RemoveMeans(st, other, n);
      case OpCompleteTask(other, n) => RemoveMeans(st, other, n);
      case OpPurgeQueue(other) => PurgeAndDeleteMean(st, other, queue, task);
      case OpDeleteQueue(other) => PurgeAndDeleteMean(st, other, queue, task);
    }
  }

  lemma NothingToRetry(st: State, queue: string, task: string, now: int)
    requires At(st, queue, task).None? || QueueAt(st, queue).None?
    ensures RetryTask(st, queue, task, now) == st
  {}

  lemma CountInRange(st: State, queue: string, task: string)
    requires WellFormed(st) && queue in st.queues
    ensures At(st, queue, task).Some? ==> 0 <= At(st, queue, task).value.dispatchCount <= st.queues[queue].maxAttempts
  {
    if At(st, queue, task).Some? { assert TasksOk(queue, st.queues[queue], st.tasks[queue]); }
  }

  /** What neither polls, retries nor removes the task leaves it as it is, and so does a poll too early. */
  lemma {:induction false} StaysAsItIs(st: State, op: Op, queue: string, task: string)
    requires WellFormed(st) && At(st, queue, task).Some? && QueueAt(st, queue).Some?
    requires !Removes(op, queue, task) && !Tries(st, op, queue, task)
    requires !(op.OpRetryTask? && op.queue == queue && op.task == task)
    ensures At(Exec(st, op), queue, task) == At(st, queue, task) && QueueAt(Exec(st, op), queue) == QueueAt(st, queue)
  {
    hide WellFormed, Backoff, DueTasks, RetryTask, CreateTask, CreateQueue, RemoveTask, WithDefaults, NewTask;
    match op {
      case OpDueTasks(now) => PollMeans(st, now, queue, task);
      case OpRetryTask(other, n, now) =>
        if At(st, other, n).Some? && QueueAt(st, other).Some? { RetryMeans(st, other, n, now); }
        else { NothingToRetry(st, other, n, now); }
      case OpCreateTask(_, _, _, _, _) => CreateMoves(st, op, queue, task);
      case OpCreateQueue(config) => CreateQueueMeans(st, config);
      case OpDeleteTask(other, n) => RemoveMeans(st, other, n);
      case OpCompleteTask(other, n) => RemoveMeans(st, other, n);
      case OpPurgeQueue(other) => PurgeAndDeleteMean(st, other, queue, task);
      case OpDeleteQueue(other) => PurgeAndDeleteMean(st, other, queue, task);
    }
  }

  lemma {:induction false} CreateMoves(st: State, op: Op, queue: string, task: string)
    requires op.OpCreateTask? && !Renews(st, op, queue, task)
    ensures Exec(st, op).queues == st.queues && At(Exec(st, op), queue, task) == At(st, queue, task)
  {}

  /** As long as nobody removes it, a task is there exactly as long as it has been tried less often than the
    queue allows or its last try is still out; and when it is gone, it has been tried exactly that often. */
  lemma {:induction false} TriesAreCounted(st: State, ops: seq<Op>, queue: string, task: string, q: Queue)
    requires WellFormed(st) && QueueAt(st, queue) == Some(q) && LeftAlone(st, ops, queue, task)
    ensures var end, tries := Run(st, ops), TriesOf(st, ops, queue, task);
            && WellFormed(end) && QueueAt(end, queue) == Some(q)
            && Moved(At(st, queue, task), At(end, queue, task), tries, q.maxAttempts)
    decreases ops
  {
    hide WellFormed, Exec, Removes, Renews, Tries;
    if ops != [] {
      var next := Exec(st, ops[0]);
      StepMoves(st, ops[0], queue, task, q);
      TriesAreCounted(next, ops[1..], queue, task, q);
    }
  }

  ghost predicate Moved(before: Option<Task>, after: Option<Task>, tries: nat, max: int) {
    if before.None? then after.None? && tries == 0
    else if after.None? then tries == max - before.value.dispatchCount
    else
      && after.value.dispatchCount == before.value.dispatchCount + tries
      && (after.value.state == Dispatching ==> tries >= 1 || before.value.state == Dispatching)
  }

  // ---------- a task that is polled and retried in time ----------

  /** One round of a task: anything, a poll, anything, and a retry. */
  datatype Round = Round(before: seq<Op>, poll: int, between: seq<Op>, retry: int)

  function Ops(r: Round, queue: string, task: string): seq<Op> {
    r.before + [OpDueTasks(r.poll)] + r.between + [OpRetryTask(queue, task, r.retry)]
  }

  function AllOps(rounds: seq<Round>, queue: string, task: string): seq<Op> {
    if rounds == [] then [] else Ops(rounds[0], queue, task) + AllOps(rounds[1..], queue, task)
  }

  /** When the poll of a round comes, the time of the task, if it still waits for it, has come. */
  ghost predicate PolledInTime(st: State, rounds: seq<Round>, queue: string, task: string)
    decreases rounds
  {
    rounds != [] ==>
      && InTime(At(Run(st, rounds[0].before), queue, task), rounds[0].poll)
      && PolledInTime(Run(st, Ops(rounds[0], queue, task)), rounds[1..], queue, task)
  }

  predicate InTime(t: Option<Task>, poll: int) {
    t.Some? && t.value.state == Pending ==> t.value.scheduleTime <= poll
  }

  lemma {:induction false} RunConcat(st: State, a: seq<Op>, b: seq<Op>)
    ensures Run(st, a + b) == Run(Run(st, a), b)
    decreases a
  {
    if a == [] {
      assert a + b == b;
    } else {
      assert (a + b)[0] == a[0] && (a + b)[1..] == a[1..] + b;
      RunConcat(Exec(st, a[0]), a[1..], b);
    }
  }

  lemma {:induction false} LeftAloneSplits(st: State, a: seq<Op>, b: seq<Op>, queue: string, task: string)
    requires LeftAlone(st, a + b, queue, task)
    ensures LeftAlone(st, a, queue, task) && LeftAlone(Run(st, a), b, queue, task)
    decreases a
  {
    hide Exec, Removes, Renews;
    if a == [] {
      assert a + b == b;
    } else {
      assert (a + b)[0] == a[0] && (a + b)[1..] == a[1..] + b;
      LeftAloneSplits(Exec(st, a[0]), a[1..], b, queue, task);
    }
  }

  lemma OneOp(st: State, op: Op)
    ensures Run(st, [op]) == Exec(st, op)
  {
    assert Run(Exec(st, op), [op][1..]) == Exec(st, op);
  }

  /** The task waits, and at least `count` attempts are counted; or it is gone. */
  predicate Waits(t: Option<Task>, count: int) {
    t.Some? ==> t.value.state == Pending && t.value.dispatchCount >= count
  }

  /** A round tries a waiting task at least once more, and ends with the task waiting or gone. */
  lemma {:induction false} RoundTries(st: State, r: Round, queue: string, task: string, q: Queue, count: int)
    requires WellFormed(st) && QueueAt(st, queue) == Some(q) && Waits(At(st, queue, task), count)
    requires LeftAlone(st, Ops(r, queue, task), queue, task)
    requires InTime(At(Run(st, r.before), queue, task), r.poll)
    ensures var end := Run(st, Ops(r, queue, task));
            WellFormed(end) && QueueAt(end, queue) == Some(q) && Waits(At(end, queue, task), count + 1)
  {
    hide WellFormed, Run, LeftAlone, TriesOf, Exec, Removes, Renews;
    var poll, retry := OpDueTasks(r.poll), OpRetryTask(queue, task, r.retry);
    LeftAloneSplits(st, r.before + [poll] + r.between, [retry], queue, task);
    LeftAloneSplits(st, r.before + [poll], r.between, queue, task);
    LeftAloneSplits(st, r.before, [poll], queue, task);
    RunConcat(st, r.before + [poll] + r.between, [retry]);
    RunConcat(st, r.before + [poll], r.between);
    RunConcat(st, r.before, [poll]);
    var first := Run(st, r.before);
    TriesAreCounted(st, r.before, queue, task, q);
    var polled := Exec(first, poll);
    PolledTries(first, r.poll, queue, task, q, count);
    OneOp(first, poll);
    var last := Run(polled, r.between);
    TriesAreCounted(polled, r.between, queue, task, q);
    OneOp(last, retry);
    RetriedWaits(last, queue, task, r.retry, q, count + 1);
  }

  lemma {:induction false} PolledTries(st: State, now: int, queue: string, task: string, q: Queue, count: int)
    requires WellFormed(st) && QueueAt(st, queue) == Some(q) && InTime(At(st, queue, task), now)
    requires At(st, queue, task).Some? ==>
               var t := At(st, queue, task).value;
               t.dispatchCount >= count && (t.state == Dispatching ==> t.dispatchCount >= count + 1)
    ensures var after := Exec(st, OpDueTasks(now));
            && WellFormed(after) && QueueAt(after, queue) == Some(q)
            && (At(after, queue, task).Some? ==> At(after, queue, task).value.dispatchCount >= count + 1)
  {
    ExecOk(st, OpDueTasks(now));
    PollMeans(st, now, queue, task);
    NeverCompleted(st, queue, task);
    hide WellFormed;
  }

  lemma NeverCompleted(st: State, queue: string, task: string)
    requires WellFormed(st)
    ensures At(st, queue, task).Some? ==> At(st, queue, task).value.state != Completed
  {
    if At(st, queue, task).Some? { assert TasksOk(queue, st.queues[queue], st.tasks[queue]); }
  }

  lemma {:induction false} RetriedWaits(st: State, queue: string, task: string, now: int, q: Queue, count: int)
    requires WellFormed(st) && QueueAt(st, queue) == Some(q)
    requires At(st, queue, task).Some? ==> At(st, queue, task).value.dispatchCount >= count
    ensures var after := Exec(st, OpRetryTask(queue, task, now));
            WellFormed(after) && QueueAt(after, queue) == Some(q) && Waits(At(after, queue, task), count)
  {
    ExecOk(st, OpRetryTask(queue, task, now));
    if At(st, queue, task).Some? { RetryMeans(st, queue, task, now); }
    hide WellFormed, Backoff;
  }

  lemma {:induction false} RoundsTry(st: State, rounds: seq<Round>, queue: string, task: string, q: Queue, count: int)
    requires WellFormed(st) && QueueAt(st, queue) == Some(q) && Waits(At(st, queue, task), count)
    requires LeftAlone(st, AllOps(rounds, queue, task), queue, task) && PolledInTime(st, rounds, queue, task)
    ensures var end := Run(st, AllOps(rounds, queue, task));
            WellFormed(end) && QueueAt(end, queue) == Some(q) && Waits(At(end, queue, task), count + |rounds|)
    decreases rounds
  {
    hide WellFormed, LeftAlone, Ops, InTime, Waits, Exec;
    if rounds != [] {
      var ops, rest := Ops(rounds[0], queue, task), AllOps(rounds[1..], queue, task);
      LeftAloneSplits(st, ops, rest, queue, task);
      RunConcat(st, ops, rest);
      RoundTries(st, rounds[0], queue, task, q, count);
      RoundsTry(Run(st, ops), rounds[1..], queue, task, q, count + 1);
    }
  }

  /** A task whose every dispatch fails is tried exactly as often as its queue allows, and is then gone: it
    takes at most as many rounds, each with a poll in time and a retry, whatever else goes on. */
  lemma {:induction false} TriedExactly(st: State, queue: string, name: string, request: Request, scheduleTime: int,
                                        now: int, rounds: seq<Round>)
    requires WellFormed(st) && queue in st.queues && At(st, queue, NameFor(st, queue, name)).None?
    requires var start, task := CreateTask(st, queue, name, request, scheduleTime, now), NameFor(st, queue, name);
             && LeftAlone(start, AllOps(rounds, queue, task), queue, task) && PolledInTime(start, rounds, queue, task)
             && |rounds| >= st.queues[queue].maxAttempts
    ensures var start, task := CreateTask(st, queue, name, request, scheduleTime, now), NameFor(st, queue, name);
            var ops := AllOps(rounds, queue, task);
            && At(start, queue, task).Some? && At(Run(start, ops), queue, task).None?
            && TriesOf(start, ops, queue, task) == st.queues[queue].maxAttempts
  {
    var start, task := CreateTask(st, queue, name, request, scheduleTime, now), NameFor(st, queue, name);
    var q, ops := st.queues[queue], AllOps(rounds, queue, task);
    ExecOk(st, OpCreateTask(queue, name, request, scheduleTime, now));
    TasksOf(st, queue);
    CreateTaskMeans(st, queue, name, request, scheduleTime, now);
    hide WellFormed, LeftAlone, PolledInTime, Run, TriesOf, AllOps, CreateTask, NameFor;
    RoundsTry(start, rounds, queue, task, q, 0);
    TriesAreCounted(start, ops, queue, task, q);
    WaitingHasLeft(Run(start, ops), queue, task);
  }

  lemma TasksOf(st: State, queue: string)
    requires WellFormed(st) && queue in st.queues
    ensures queue in st.tasks
  {}

  lemma WaitingHasLeft(st: State, queue: string, task: string)
    requires WellFormed(st) && queue in st.queues
    ensures At(st, queue, task).Some? && At(st, queue, task).value.state == Pending ==>
              At(st, queue, task).value.dispatchCount < st.queues[queue].maxAttempts
  {
    if At(st, queue, task).Some? { assert TasksOk(queue, st.queues[queue], st.tasks[queue]); }
  }
}
