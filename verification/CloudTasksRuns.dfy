/** What holds over whole runs of the Cloud Tasks emulator: tasks drain, none is dispatched more often than
  its queue allows, and a retried task waits for its backoff. */
module CloudTasksRuns {
  import opened GoTime
  import opened CloudTasksState
  import opened CloudTasksAttempts

  datatype Key = Key(queue: string, task: string)

  ghost function Keys(st: State): set<Key> {
    set q, n | q in st.tasks && n in st.tasks[q] :: Key(q, n)
  }

  // ---------- the rank of a state ----------

  /** How much a task can still go through: each attempt is a dispatch and an outcome. */
  function TaskRank(q: Queue, t: Task): nat {
    var r := 2 * (q.maxAttempts - t.dispatchCount) + if t.state == Dispatching then 1 else 0;
    if r < 0 then 0 else r
  }

  function RankAt(st: State, k: Key): nat {
    if Has(st, k.queue, k.task) && k.queue in st.queues then TaskRank(st.queues[k.queue], st.tasks[k.queue][k.task]) else 0
  }

  ghost function Ranks(st: State): map<Key, nat> {
    map k | k in Keys(st) :: RankAt(st, k)
  }

  ghost function Total<K>(m: map<K, nat>): nat {
    if m == map[] then 0
    else
      var k :| k in m;
      m[k] + Total(m - {k})
  }

  ghost function Rank(st: State): nat {
    Total(Ranks(st))
  }

  lemma {:induction false} TotalRemove<K>(m: map<K, nat>, k: K)
    requires k in m
    ensures Total(m) == m[k] + Total(m - {k})
    decreases |m|
  {
    var j :| j in m && Total(m) == m[j] + Total(m - {j});
    if j != k {
      TotalRemove(m - {j}, k);
      TotalRemove(m - {k}, j);
      assert m - {j} - {k} == m - {k} - {j};
    }
  }

  /** Entry by entry, `n` is no more than `m`, and less by one at the keys `moved`. */
  ghost predicate Falls<K>(m: map<K, nat>, n: map<K, nat>, moved: set<K>) {
    && n.Keys <= m.Keys && moved <= m.Keys
    && forall k :: k in m ==> (if k in n then n[k] else 0) + (if k in moved then 1 else 0) <= m[k]
  }

  lemma {:induction false} TotalFalls<K>(m: map<K, nat>, n: map<K, nat>, moved: set<K>)
    requires Falls(m, n, moved)
    ensures Total(n) + |moved| <= Total(m)
    decreases |m|
  {
    if m == map[] {
      assert n == map[] && moved == {};
    } else {
      var k :| k in m;
      TotalWithout(m, k);
      TotalWithout(n, k);
      SizeWithout(moved, k);
      FallsWithout(m, n, moved, k);
      TotalFalls(m - {k}, n - {k}, moved - {k});
    }
  }

  lemma TotalWithout<K>(m: map<K, nat>, k: K)
    ensures Total(m) == (if k in m then m[k] else 0) + Total(m - {k})
  {
    if k in m { TotalRemove(m, k); } else { assert m - {k} == m; }
  }

  lemma SizeWithout<K>(s: set<K>, k: K)
    ensures |s| == |s - {k}| + if k in s then 1 else 0
  {
    if k in s { assert s == (s - {k}) + {k}; } else { assert s - {k} == s; }
  }

  lemma FallsWithout<K>(m: map<K, nat>, n: map<K, nat>, moved: set<K>, k: K)
    requires Falls(m, n, moved)
    ensures Falls(m - {k}, n - {k}, moved - {k})
  {}

  // ---------- draining ----------

  ghost function DueKeys(st: State, now: int): set<Key> {
    set k | k in Keys(st) && Due(st.tasks[k.queue][k.task], now)
  }

  /** The tasks that an operation dispatches, takes off, or puts back after a failed dispatch. */
  ghost function Moved(st: State, op: Op): set<Key> {
    match op
    case OpDueTasks(now) => DueKeys(st, now)
    case OpDeleteQueue(queue) => set k | k in Keys(st) && k.queue == queue
    case OpPurgeQueue(queue) => set k | k in Keys(st) && k.queue == queue
    case OpDeleteTask(queue, task) => set k | k in Keys(st) && k == Key(queue, task)
    case OpCompleteTask(queue, task) => set k | k in Keys(st) && k == Key(queue, task)
    case OpRetryTask(queue, task, _) =>
      set k | k in Keys(st) && k == Key(queue, task) && st.tasks[queue][task].state == Dispatching
    case _ => {}
  }

  lemma TaskRankPositive(q: Queue, t: Task)
    requires TaskOk(q, t)
    ensures TaskRank(q, t) > 0
  {}

  /** What becomes of one task: its rank does not rise, and falls if the task is moved. */
  lemma RankAtFalls(st: State, op: Op, k: Key)
    requires WellFormed(st) && !op.OpCreateTask? && k in Keys(st)
    ensures (if k in Keys(Exec(st, op)) then RankAt(Exec(st, op), k) else 0) + (if k in Moved(st, op) then 1 else 0)
            <= RankAt(st, k)
  {
    var q, t := st.queues[k.queue], st.tasks[k.queue][k.task];
    assert TasksOk(k.queue, q, st.tasks[k.queue]) && TaskOk(q, t);
    TaskRankPositive(q, t);
    hide WellFormed, TasksOk, Backoff;
  }

  lemma KeysShrink(st: State, op: Op)
    requires WellFormed(st) && !op.OpCreateTask?
    ensures Keys(Exec(st, op)) <= Keys(st)
  {
    hide TasksOk, Backoff, Due, Dispatched;
  }

  lemma {:induction false} RankFalls(st: State, op: Op)
    requires WellFormed(st) && !op.OpCreateTask?
    ensures Rank(Exec(st, op)) + |Moved(st, op)| <= Rank(st)
  {
    hide WellFormed, Exec, Moved, RankAt, Keys;
    KeysShrink(st, op);
    MovedAreKeys(st, op);
    forall k | k in Keys(st)
      ensures (if k in Keys(Exec(st, op)) then RankAt(Exec(st, op), k) else 0) + (if k in Moved(st, op) then 1 else 0)
              <= RankAt(st, k)
    {
      RankAtFalls(st, op, k);
    }
    TotalFalls(Ranks(st), Ranks(Exec(st, op)), Moved(st, op));
  }

  lemma MovedAreKeys(st: State, op: Op)
    ensures Moved(st, op) <= Keys(st)
  {
    hide Keys;
  }

  /** The rank that an operation adds: two for each attempt of a task it creates. */
  ghost function Added(st: State, op: Op): nat {
    if op.OpCreateTask? && op.queue in st.queues && st.queues[op.queue].maxAttempts > 0
       && !Has(st, op.queue, NameFor(st, op.queue, op.task))
    then 2 * st.queues[op.queue].maxAttempts else 0
  }

  lemma CreateAdds(st: State, op: Op)
    requires WellFormed(st) && op.OpCreateTask?
    ensures Rank(Exec(st, op)) <= Rank(st) + Added(st, op)
  {
    var k := Key(op.queue, NameFor(st, op.queue, op.task));
    var next := Exec(st, op);
    if op.queue in st.queues && !Has(st, k.queue, k.task) {
      RanksWithNew(st, op, k);
      TotalRemove(Ranks(next), k);
    } else {
      assert Ranks(next) == Ranks(st);
    }
  }

  lemma RanksWithNew(st: State, op: Op, k: Key)
    requires WellFormed(st) && op.OpCreateTask? && op.queue in st.queues
    requires k == Key(op.queue, NameFor(st, op.queue, op.task)) && !Has(st, k.queue, k.task)
    ensures k in Ranks(Exec(st, op)) && Ranks(Exec(st, op))[k] == 2 * st.queues[op.queue].maxAttempts
    ensures Ranks(Exec(st, op)) - {k} == Ranks(st)
  {
    hide TasksOk, NameFor;
    var next := Exec(st, op);
    assert Keys(next) == Keys(st) + {k};
    forall j | j in Keys(st) ensures RankAt(next, j) == RankAt(st, j) {}
  }

  ghost function AllMoved(st: State, ops: seq<Op>): nat
    decreases ops
  {
    if ops == [] then 0 else |Moved(st, ops[0])| + AllMoved(Exec(st, ops[0]), ops[1..])
  }

  ghost function AllAdded(st: State, ops: seq<Op>): nat
    decreases ops
  {
    if ops == [] then 0 else Added(st, ops[0]) + AllAdded(Exec(st, ops[0]), ops[1..])
  }

  /** Every run drains: the dispatches, removals and retries in it are no more than the rank it began with
    and the rank that new tasks added. Without new tasks, there are finitely many. */
  lemma {:induction false} Drain(st: State, ops: seq<Op>)
    requires WellFormed(st)
    ensures AllMoved(st, ops) + Rank(Run(st, ops)) <= Rank(st) + AllAdded(st, ops)
    decreases ops
  {
    if ops != [] {
      ExecOk(st, ops[0]);
      Drain(Exec(st, ops[0]), ops[1..]);
      if ops[0].OpCreateTask? { CreateAdds(st, ops[0]); } else { RankFalls(st, ops[0]); }
    }
  }

  // ---------- dispatches of one task ----------

  ghost predicate NeverRenewed(st: State, ops: seq<Op>, queue: string, task: string)
    decreases ops
  {
    ops != [] ==> !Renews(st, ops[0], queue, task) && NeverRenewed(Exec(st, ops[0]), ops[1..], queue, task)
  }

  /** The attempts that a task has left. */
  function Left(st: State, queue: string, task: string): int {
    if Has(st, queue, task) && queue in st.queues then st.queues[queue].maxAttempts - st.tasks[queue][task].dispatchCount
    else 0
  }

  lemma LeftFalls(st: State, op: Op, queue: string, task: string)
    requires WellFormed(st) && !Renews(st, op, queue, task)
    ensures (if Tries(st, op, queue, task) then 1 else 0) + Left(Exec(st, op), queue, task) <= Left(st, queue, task)
  {
    hide WellFormed, Backoff, Exec;
    SameKeys(st);
    if QueueAt(st, queue).Some? && At(st, queue, task).Some? {
      CountInRange(st, queue, task);
      if Removes(op, queue, task) {
        RemovedIsGone(st, op, queue, task);
      } else {
        StepMoves(st, op, queue, task, st.queues[queue]);
      }
    } else {
      StaysAbsent(st, op, queue, task);
    }
  }

  lemma SameKeys(st: State)
    requires WellFormed(st)
    ensures st.tasks.Keys == st.queues.Keys
  {}

  lemma RemovedIsGone(st: State, op: Op, queue: string, task: string)
    requires st.tasks.Keys == st.queues.Keys && Removes(op, queue, task)
    ensures At(Exec(st, op), queue, task).None?
  {}

  lemma StaysAbsent(st: State, op: Op, queue: string, task: string)
    requires st.tasks.Keys == st.queues.Keys && At(st, queue, task).None? && !Renews(st, op, queue, task)
    ensures At(Exec(st, op), queue, task).None?
  {
    hide Backoff, NameFor, NewTask, WithDefaults, Due, Dispatched, Exhausted;
  }

  lemma LeftNotNegative(st: State, queue: string, task: string)
    requires WellFormed(st)
    ensures Left(st, queue, task) >= 0
  {}

  /** A task that is not created anew is dispatched at most as often as it has attempts left: in all, at most
    `maxAttempts` times. */
  lemma {:induction false} DispatchesAreBounded(st: State, ops: seq<Op>, queue: string, task: string)
    requires WellFormed(st) && NeverRenewed(st, ops, queue, task)
    ensures TriesOf(st, ops, queue, task) <= Left(st, queue, task)
    ensures Has(st, queue, task) ==> Left(st, queue, task) <= st.queues[queue].maxAttempts
    decreases ops
  {
    if Has(st, queue, task) { assert TasksOk(queue, st.queues[queue], st.tasks[queue]); }
    if ops == [] {
      LeftNotNegative(st, queue, task);
    } else {
      ExecOk(st, ops[0]);
      LeftFalls(st, ops[0], queue, task);
      DispatchesAreBounded(Exec(st, ops[0]), ops[1..], queue, task);
    }
  }

  /** A new task is dispatched by the next poll exactly when that comes at or after its schedule time, or
    its creation if it has none. */
  lemma {:induction false} NewTaskIsDue(st: State, queue: string, name: string, request: Request, scheduleTime: int,
                                        now: int, poll: int)
    requires queue in st.queues && queue in st.tasks && !Has(st, queue, NameFor(st, queue, name))
    ensures Tries(CreateTask(st, queue, name, request, scheduleTime, now), OpDueTasks(poll), queue, NameFor(st, queue, name))
       <==> poll >= if scheduleTime == ZERO_TIME then now else scheduleTime
  {}

  // ---------- a retried task waits ----------

  /** While the task is pending, it has used `count` attempts on a queue configured as `q`, and is not
    scheduled before `until`. */
  ghost predicate Resting(st: State, queue: string, task: string, q: Queue, count: Int32, until: int) {
    Has(st, queue, task) ==>
      && queue in st.queues && st.queues[queue] == q
      && st.tasks[queue][task].state == Pending && st.tasks[queue][task].dispatchCount == count
      && st.tasks[queue][task].scheduleTime >= until
  }

  /** The clock readings of the operations are not before `from`. */
  predicate NotBefore(op: Op, from: int) {
    (op.OpDueTasks? || op.OpRetryTask?) ==> op.now >= from
  }

  lemma StaysResting(st: State, op: Op, queue: string, task: string, q: Queue, count: Int32, from: int)
    requires WellFormed(st) && Resting(st, queue, task, q, count, from + Backoff(q, count))
    requires !Renews(st, op, queue, task) && NotBefore(op, from) && !Tries(st, op, queue, task)
    ensures Resting(Exec(st, op), queue, task, q, count, from + Backoff(q, count))
  {
    hide WellFormed, Backoff, Exec;
    SameKeys(st);
    if At(st, queue, task).None? {
      StaysAbsent(st, op, queue, task);
    } else if Removes(op, queue, task) {
      RemovedIsGone(st, op, queue, task);
    } else if op.OpRetryTask? && op.queue == queue && op.task == task {
      RetryMeans(st, queue, task, op.now);
      ExecRetry(st, queue, task, op.now);
    } else {
      StaysAsItIs(st, op, queue, task);
    }
  }

  lemma ExecRetry(st: State, queue: string, task: string, now: int)
    ensures Exec(st, OpRetryTask(queue, task, now)) == RetryTask(st, queue, task, now)
  {
    hide RetryTask;
  }

  ghost predicate Undisturbed(st: State, ops: seq<Op>, queue: string, task: string, from: int)
    decreases ops
  {
    ops != [] ==>
      && !Renews(st, ops[0], queue, task) && NotBefore(ops[0], from) && !Tries(st, ops[0], queue, task)
      && Undisturbed(Exec(st, ops[0]), ops[1..], queue, task, from)
  }

  lemma {:induction false} KeepsResting(st: State, ops: seq<Op>, queue: string, task: string, q: Queue, count: Int32,
                                        from: int)
    requires WellFormed(st) && Resting(st, queue, task, q, count, from + Backoff(q, count))
    requires Undisturbed(st, ops, queue, task, from)
    ensures WellFormed(Run(st, ops)) && Resting(Run(st, ops), queue, task, q, count, from + Backoff(q, count))
    decreases ops
  {
    if ops != [] {
      ExecOk(st, ops[0]);
      StaysResting(st, ops[0], queue, task, q, count, from);
      hide WellFormed, Resting, Exec, Backoff;
      KeepsResting(Exec(st, ops[0]), ops[1..], queue, task, q, count, from);
    }
  }

  /** A retried task is not dispatched again before its backoff is over, whatever goes on in between - stale
    retries included - as long as the clock does not go back and the task is not created anew. */
  lemma {:induction false} RetriedTaskWaits(st: State, queue: string, task: string, retryTime: int, ops: seq<Op>, poll: Op)
    requires WellFormed(st) && At(st, queue, task).Some? && QueueAt(st, queue).Some?
    requires At(st, queue, task).value.dispatchCount < QueueAt(st, queue).value.maxAttempts
    requires Undisturbed(RetryTask(st, queue, task, retryTime), ops, queue, task, retryTime)
    requires Tries(Run(RetryTask(st, queue, task, retryTime), ops), poll, queue, task)
    ensures poll.now >= retryTime + Backoff(st.queues[queue], st.tasks[queue][task].dispatchCount)
  {
    var q, count := st.queues[queue], st.tasks[queue][task].dispatchCount;
    RetryMeans(st, queue, task, retryTime);
    ExecOk(st, OpRetryTask(queue, task, retryTime));
    hide WellFormed, Backoff;
    KeepsResting(RetryTask(st, queue, task, retryTime), ops, queue, task, q, count, retryTime);
  }
}
