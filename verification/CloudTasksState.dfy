/** The Cloud Tasks emulator as a state machine over values: what each store operation does to queues and
  tasks, and the backoff between two attempts. */
module CloudTasksState {
  import opened Wrappers
  import opened Text
  import opened GoTime

  datatype Queue = Queue(name: string, maxAttempts: Int32, minBackoffSeconds: Int32, maxBackoffSeconds: Int32,
                         maxDoublings: Int32)

  datatype TaskState = Pending | Dispatching | Completed

  datatype Request = Request(url: string, httpMethod: string, body: string, headers: map<string, string>)

  datatype Task = Task(name: string, queue: string, request: Request, scheduleTime: int, createTime: int,
                       dispatchCount: Int32, lastAttempt: int, state: TaskState)

  /** Tasks by name. */
  type Tasks = map<string, Task>

  datatype State = State(queues: map<string, Queue>, tasks: map<string, Tasks>, counter: nat)

  const Empty: State := State(map[], map[], 0)

  // ---------- backoff ----------

  function Pow2(k: nat): nat {
    if k == 0 then 1 else 2 * Pow2(k - 1)
  }

  /** How often the backoff of a task is doubled. */
  function Doublings(q: Queue, dispatchCount: Int32): nat {
    var capped := if dispatchCount - 1 <= q.maxDoublings then dispatchCount - 1 else q.maxDoublings;
    if capped < 0 then 0 else capped
  }

  /** The backoff before it is capped, in unbounded arithmetic. */
  function Uncapped(q: Queue, dispatchCount: Int32): int {
    q.minBackoffSeconds * SECOND * Pow2(Doublings(q, dispatchCount))
  }

  function Capped(q: Queue, backoff: int): int {
    if backoff > q.maxBackoffSeconds * SECOND then q.maxBackoffSeconds * SECOND else backoff
  }

  /** The wait before the next attempt, as 64-bit arithmetic has it. */
  function Backoff(q: Queue, dispatchCount: Int32): int {
    Capped(q, Wrap64(Uncapped(q, dispatchCount)))
  }

  /** The first retry waits the minimum; each further attempt doubles that, as often as the queue allows; and
    the queue's maximum caps it. */
  lemma {:induction false} BackoffMeans(q: Queue, c: Int32)
    requires q.minBackoffSeconds > 0 && 0 <= c < MAX_INT32
    ensures c <= 1 ==> Uncapped(q, c) == q.minBackoffSeconds * SECOND
    ensures c >= 1 ==> Uncapped(q, c + 1) == if c <= q.maxDoublings then 2 * Uncapped(q, c) else Uncapped(q, c)
    ensures Uncapped(q, c) <= MAX_INT64 ==>
              Backoff(q, c) == if Uncapped(q, c) <= q.maxBackoffSeconds * SECOND then Uncapped(q, c)
                               else q.maxBackoffSeconds * SECOND
  {
    UncappedPositive(q, c);
    if 1 <= c <= q.maxDoublings { DoubleLast(q.minBackoffSeconds * SECOND, Pow2(c - 1)); }
  }

  /** The doubling loop. */
  method ComputeBackoff(q: Queue, dispatchCount: Int32) returns (backoff: int)
    ensures backoff == Backoff(q, dispatchCount)
  {
    var base := q.minBackoffSeconds * SECOND;
    backoff := base;
    var i := 1;
    while i < dispatchCount && i <= q.maxDoublings
      invariant 1 <= i && (i == 1 || (i <= dispatchCount && i - 1 <= q.maxDoublings))
      invariant backoff == Wrap64(base * Pow2(i - 1))
      decreases dispatchCount - i
    {
      Wrap64Doubled(base * Pow2(i - 1));
      DoubleLast(base, Pow2(i - 1));
      backoff := Wrap64(backoff * 2);
      i := i + 1;
    }
    assert i - 1 == Doublings(q, dispatchCount);
    if backoff > q.maxBackoffSeconds * SECOND {
      backoff := q.maxBackoffSeconds * SECOND;
    }
  }

  lemma DoubleLast(base: int, p: int)
    ensures base * p * 2 == base * (2 * p)
  {}

  /** All waits up to count `n` are the capped exponential backoff exactly when the exponential of count `n`
    fits into 64 bits: the first doubling that does not fit makes the wait negative. */
  lemma {:induction false} BackoffExact(q: Queue, n: Int32)
    requires q.minBackoffSeconds > 0 && q.maxBackoffSeconds > 0 && n >= 0
    ensures (forall c: Int32 :: 0 <= c <= n ==> Backoff(q, c) == Capped(q, Uncapped(q, c))) <==>
            Uncapped(q, n) <= MAX_INT64
  {
    hide Backoff, Capped, Uncapped, Wrap64;
    if Uncapped(q, n) <= MAX_INT64 {
      forall c: Int32 | 0 <= c <= n ensures Backoff(q, c) == Capped(q, Uncapped(q, c)) {
        UncappedMonotone(q, c, n);
        FitsExactly(q, c);
      }
    } else {
      var c := FirstThatWraps(q, n);
    }
  }

  lemma FitsExactly(q: Queue, c: Int32)
    requires q.minBackoffSeconds > 0 && q.maxBackoffSeconds > 0 && Uncapped(q, c) <= MAX_INT64
    ensures Backoff(q, c) == Capped(q, Uncapped(q, c)) > 0
  {
    UncappedPositive(q, c);
  }

  /** The first count whose exponential does not fit has a negative wait. */
  lemma {:induction false} FirstThatWraps(q: Queue, n: Int32) returns (c: Int32)
    requires q.minBackoffSeconds > 0 && q.maxBackoffSeconds > 0 && n >= 0 && Uncapped(q, n) > MAX_INT64
    ensures 0 <= c <= n && Backoff(q, c) < 0 < Capped(q, Uncapped(q, c))
    decreases n
  {
    hide Uncapped, Wrap64;
    AtFirst(q, n);
    if Uncapped(q, n - 1) > MAX_INT64 {
      c := FirstThatWraps(q, n - 1);
    } else {
      c := n;
      OneDoubling(q, n);
      WrapsNegative(Uncapped(q, n));
    }
  }

  /** Before the first doubling, the backoff is a 32-bit number of seconds. */
  lemma AtFirst(q: Queue, n: Int32)
    requires n >= 0 && Uncapped(q, n) > MAX_INT64
    ensures n > 1
  {}

  lemma OneDoubling(q: Queue, n: Int32)
    requires n > 1
    ensures Uncapped(q, n) == Uncapped(q, n - 1) || Uncapped(q, n) == Uncapped(q, n - 1) * 2
  {
    if n - 1 <= q.maxDoublings {
      DoubleLast(q.minBackoffSeconds * SECOND, Pow2(Doublings(q, n - 1)));
    }
  }

  lemma WrapsNegative(x: int)
    requires MAX_INT64 < x <= 2 * MAX_INT64
    ensures Wrap64(x) < 0
  {}

  lemma UncappedPositive(q: Queue, dispatchCount: Int32)
    requires q.minBackoffSeconds > 0
    ensures Uncapped(q, dispatchCount) > 0
  {
    Pow2Positive(Doublings(q, dispatchCount));
    AtLeastOnce(Pow2(Doublings(q, dispatchCount)), q.minBackoffSeconds * SECOND);
  }

  lemma {:induction false} Pow2Positive(k: nat)
    ensures Pow2(k) >= 1
  {
    if k > 0 { Pow2Positive(k - 1); }
  }

  lemma {:induction false} Pow2Monotone(j: nat, k: nat)
    requires j <= k
    ensures Pow2(j) <= Pow2(k)
  {
    if j < k { Pow2Monotone(j, k - 1); }
  }

  lemma MulMonotone(a: nat, x: int, y: int)
    requires x <= y
    ensures a * x <= a * y
  {}

  lemma UncappedMonotone(q: Queue, fewer: Int32, more: Int32)
    requires q.minBackoffSeconds > 0 && fewer <= more
    ensures Uncapped(q, fewer) <= Uncapped(q, more)
  {
    Pow2Monotone(Doublings(q, fewer), Doublings(q, more));
    MulMonotone(q.minBackoffSeconds * SECOND, Pow2(Doublings(q, fewer)), Pow2(Doublings(q, more)));
  }

  /** A retry sees fewer attempts than the queue allows. So no wait of a queue wraps, and all are positive,
    exactly when the exponential of its last retry fits into 64 bits. */
  lemma {:induction false} BackoffNeverWraps(q: Queue)
    requires QueueOk(q)
    ensures (forall c: Int32 :: 0 <= c < q.maxAttempts ==> Backoff(q, c) == Capped(q, Uncapped(q, c)) > 0) <==>
            Uncapped(q, q.maxAttempts - 1) <= MAX_INT64
  {
    hide Backoff, Capped, Uncapped;
    BackoffExact(q, q.maxAttempts - 1);
    if Uncapped(q, q.maxAttempts - 1) <= MAX_INT64 {
      forall c: Int32 | 0 <= c < q.maxAttempts ensures Backoff(q, c) == Capped(q, Uncapped(q, c)) > 0 {
        UncappedMonotone(q, c, q.maxAttempts - 1);
        FitsExactly(q, c);
      }
    }
  }

  /** As long as nothing wraps, the backoff does not shrink with the number of attempts. */
  lemma {:induction false} BackoffMonotone(q: Queue, fewer: Int32, more: Int32)
    requires q.minBackoffSeconds > 0 && q.maxBackoffSeconds > 0
    requires fewer <= more && Uncapped(q, more) <= MAX_INT64
    ensures Backoff(q, fewer) <= Backoff(q, more)
  {
    UncappedMonotone(q, fewer, more);
    UncappedPositive(q, fewer);
  }

  /** After 35 attempts with a minimum of one second and no limit on doublings in reach, the wait is
    negative: the task is retried at once. */
  lemma {:induction false} BackoffWraps(q: Queue)
    requires q.minBackoffSeconds == 1 && q.maxDoublings >= 34 && q.maxBackoffSeconds > 0
    ensures Backoff(q, 35) < 0
  {
    assert Pow2(34) == 0x4_0000_0000 by { Pow2Values(); }
  }

  lemma Pow2Values()
    ensures Pow2(34) == 0x4_0000_0000
  {
    assert Pow2(8) == 256;
    assert Pow2(16) == 65536;
    assert Pow2(24) == 0x100_0000;
    assert Pow2(32) == 0x1_0000_0000;
  }

  // ---------- operations ----------

  function OrDefault(x: Int32, default: Int32): Int32 {
    if x <= 0 then default else x
  }

  function WithDefaults(q: Queue): Queue {
    q.(maxAttempts := OrDefault(q.maxAttempts, 3),
       minBackoffSeconds := OrDefault(q.minBackoffSeconds, 1),
       maxBackoffSeconds := OrDefault(q.maxBackoffSeconds, 10))
  }

  function CreateQueue(st: State, q: Queue): State {
    if q.name in st.queues then st
    else st.(queues := st.queues[q.name := WithDefaults(q)], tasks := st.tasks[q.name := map[]])
  }

  function DeleteQueue(st: State, queue: string): State {
    if queue !in st.queues then st else st.(queues := st.queues - {queue}, tasks := st.tasks - {queue})
  }

  function PurgeQueue(st: State, queue: string): State {
    if queue !in st.queues then st else st.(tasks := st.tasks[queue := map[]])
  }

  predicate Has(st: State, queue: string, task: string) {
    queue in st.tasks && task in st.tasks[queue]
  }

  function WithTasks(st: State, queue: string, tasks: Tasks): State {
    st.(tasks := st.tasks[queue := tasks])
  }

  /** The name a new task gets. */
  function NameFor(st: State, queue: string, task: string): string {
    if task == "" then queue + "/tasks/" + Decimal(st.counter + 1) else task
  }

  function NewTask(queue: string, task: string, request: Request, scheduleTime: int, now: int): Task {
    Task(task, queue, request.(httpMethod := if request.httpMethod == "" then "POST" else request.httpMethod),
         if scheduleTime == ZERO_TIME then now else scheduleTime, now, 0, ZERO_TIME, Pending)
  }

  function CreateTask(st: State, queue: string, task: string, request: Request, scheduleTime: int, now: int): State {
    if queue !in st.queues then st
    else
      var name := NameFor(st, queue, task);
      var counted := if task == "" then st.(counter := st.counter + 1) else st;
      if queue !in st.tasks || name in st.tasks[queue] then counted
      else WithTasks(counted, queue, st.tasks[queue][name := NewTask(queue, name, request, scheduleTime, now)])
  }

  /** What deleting a task and completing it do to the store. */
  function RemoveTask(st: State, queue: string, task: string): State {
    if Has(st, queue, task) then WithTasks(st, queue, st.tasks[queue] - {task}) else st
  }

  predicate Due(t: Task, now: int) {
    t.state == Pending && t.scheduleTime <= now
  }

  function Dispatched(t: Task, now: int): Task {
    t.(state := Dispatching, dispatchCount := Wrap32(t.dispatchCount + 1), lastAttempt := now)
  }

  function Polled(tasks: Tasks, now: int): Tasks {
    map n | n in tasks :: if Due(tasks[n], now) then Dispatched(tasks[n], now) else tasks[n]
  }

  function DueTasks(st: State, now: int): State {
    st.(tasks := map q | q in st.tasks :: Polled(st.tasks[q], now))
  }

  /** The task has used up its attempts. */
  predicate Exhausted(q: Queue, t: Task) {
    q.maxAttempts > 0 && t.dispatchCount >= q.maxAttempts
  }

  predicate CanRetry(st: State, queue: string, task: string) {
    Has(st, queue, task) && queue in st.queues && !Exhausted(st.queues[queue], st.tasks[queue][task])
  }

  function RetryTask(st: State, queue: string, task: string, now: int): State {
    if !Has(st, queue, task) || queue !in st.queues then st
    else
      var q, t := st.queues[queue], st.tasks[queue][task];
      if Exhausted(q, t) then RemoveTask(st, queue, task)
      else WithTasks(st, queue, st.tasks[queue][task := Retried(q, t, now)])
  }

  function Retried(q: Queue, t: Task, now: int): Task {
    t.(scheduleTime := now + Backoff(q, t.dispatchCount), state := Pending)
  }

  datatype Op =
    | OpCreateQueue(config: Queue)
    | OpDeleteQueue(queue: string)
    | OpPurgeQueue(queue: string)
    | OpCreateTask(queue: string, task: string, request: Request, scheduleTime: int, now: int)
    | OpDeleteTask(queue: string, task: string)
    | OpCompleteTask(queue: string, task: string)
    | OpDueTasks(now: int)
    | OpRetryTask(queue: string, task: string, now: int)

  function Exec(st: State, op: Op): State {
    match op
    case OpCreateQueue(config) => CreateQueue(st, config)
    case OpDeleteQueue(queue) => DeleteQueue(st, queue)
    case OpPurgeQueue(queue) => PurgeQueue(st, queue)
    case OpCreateTask(queue, task, request, scheduleTime, now) => CreateTask(st, queue, task, request, scheduleTime, now)
    case OpDeleteTask(queue, task) => RemoveTask(st, queue, task)
    case OpCompleteTask(queue, task) => RemoveTask(st, queue, task)
    case OpDueTasks(now) => DueTasks(st, now)
    case OpRetryTask(queue, task, now) => RetryTask(st, queue, task, now)
  }

  function Run(st: State, ops: seq<Op>): State
    decreases ops
  {
    if ops == [] then st else Run(Exec(st, ops[0]), ops[1..])
  }

  // ---------- what every operation keeps ----------

  predicate QueueOk(q: Queue) {
    q.maxAttempts > 0 && q.minBackoffSeconds > 0 && q.maxBackoffSeconds > 0
  }

  predicate TaskOk(q: Queue, t: Task) {
    match t.state
    case Pending => 0 <= t.dispatchCount < q.maxAttempts
    case Dispatching => 1 <= t.dispatchCount <= q.maxAttempts
    case Completed => false
  }

  ghost predicate TasksOk(queue: string, q: Queue, tasks: Tasks) {
    forall n :: n in tasks ==> tasks[n].name == n && tasks[n].queue == queue && TaskOk(q, tasks[n])
  }

  /** Every queue has its tasks, and no others have any; attempts stay within the queue's limit. */
  ghost predicate WellFormed(st: State) {
    && st.tasks.Keys == st.queues.Keys
    && forall q :: q in st.queues ==>
         QueueOk(st.queues[q]) && st.queues[q].name == q && TasksOk(q, st.queues[q], st.tasks[q])
  }

  lemma TasksChange(st: State, queue: string, tasks: Tasks)
    requires WellFormed(st) && queue in st.queues && TasksOk(queue, st.queues[queue], tasks)
    ensures WellFormed(WithTasks(st, queue, tasks))
  {
    hide TasksOk, QueueOk;
  }

  lemma PolledOk(queue: string, q: Queue, tasks: Tasks, now: int)
    requires TasksOk(queue, q, tasks)
    ensures TasksOk(queue, q, Polled(tasks, now))
  {}

  /** Every operation keeps the invariant, whatever stale completions and retries come in. */
  lemma {:induction false} ExecOk(st: State, op: Op)
    requires WellFormed(st)
    ensures WellFormed(Exec(st, op))
  {
    match op {
      case OpCreateQueue(config) =>
        assert TasksOk(config.name, WithDefaults(config), map[]);
        hide TasksOk;
      case OpDeleteQueue(queue) => hide TasksOk, QueueOk;
      case OpPurgeQueue(queue) => if queue in st.queues { TasksChange(st, queue, map[]); }
      case OpCreateTask(queue, task, request, scheduleTime, now) => CreateTaskOk(st, queue, task, request, scheduleTime, now);
      case OpDeleteTask(queue, task) => RemoveTaskOk(st, queue, task);
      case OpCompleteTask(queue, task) => RemoveTaskOk(st, queue, task);
      case OpDueTasks(now) =>
        forall q | q in st.queues ensures TasksOk(q, st.queues[q], Polled(st.tasks[q], now)) {
          PolledOk(q, st.queues[q], st.tasks[q], now);
        }
        hide TasksOk, QueueOk;
      case OpRetryTask(queue, task, now) => RetryTaskOk(st, queue, task, now);
    }
  }

  lemma CreateTaskOk(st: State, queue: string, task: string, request: Request, scheduleTime: int, now: int)
    requires WellFormed(st)
    ensures WellFormed(CreateTask(st, queue, task, request, scheduleTime, now))
  {
    var name := NameFor(st, queue, task);
    var counted := if task == "" then st.(counter := st.counter + 1) else st;
    if queue in st.queues && name !in st.tasks[queue] {
      TasksChange(counted, queue, st.tasks[queue][name := NewTask(queue, name, request, scheduleTime, now)]);
    }
  }

  lemma RemoveTaskOk(st: State, queue: string, task: string)
    requires WellFormed(st)
    ensures WellFormed(RemoveTask(st, queue, task))
  {
    if Has(st, queue, task) { TasksChange(st, queue, st.tasks[queue] - {task}); }
  }

  lemma RetryTaskOk(st: State, queue: string, task: string, now: int)
    requires WellFormed(st)
    ensures WellFormed(RetryTask(st, queue, task, now))
  {
    if CanRetry(st, queue, task) {
      var q, t := st.queues[queue], st.tasks[queue][task];
      TasksChange(st, queue, st.tasks[queue][task := Retried(q, t, now)]);
    } else {
      RemoveTaskOk(st, queue, task);
    }
  }

  lemma {:induction false} RunOk(st: State, ops: seq<Op>)
    requires WellFormed(st)
    ensures WellFormed(Run(st, ops))
    decreases ops
  {
    if ops != [] {
      ExecOk(st, ops[0]);
      RunOk(Exec(st, ops[0]), ops[1..]);
    }
  }

  /** In every reachable state, a retry finds the queue of the task it finds; pending tasks have attempts
    left; and no attempt is counted twice or wraps. */
  lemma {:induction false} ReachableStates(ops: seq<Op>, queue: string, task: string)
    ensures var st := Run(Empty, ops);
            Has(st, queue, task) ==>
              && queue in st.queues
              && var q, t := st.queues[queue], st.tasks[queue][task];
                 && t.name == task && t.queue == queue
                 && (t.state == Pending ==> 0 <= t.dispatchCount < q.maxAttempts)
                 && (t.state != Pending ==> t.state == Dispatching && 1 <= t.dispatchCount <= q.maxAttempts)
  {
    RunOk(Empty, ops);
  }
}
