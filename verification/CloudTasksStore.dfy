/** The Cloud Tasks store on the heap: task records that polls and retries edit in place, and copies of them
  that are handed out. Every method is proved to do what CloudTasksState says of its operation. */
module CloudTasksStore {
  import opened Wrappers
  import opened Text
  import opened GoTime
  import opened CloudTasksState
  import opened CloudTasksAttempts

  class TaskRecord {
    const name: string
    const queue: string
    const request: Request
    const createTime: int
    var scheduleTime: int
    var dispatchCount: Int32
    var lastAttempt: int
    var state: TaskState

    constructor (t: Task)
      ensures name == t.name && queue == t.queue && Value() == t
    {
      name, queue, request, createTime := t.name, t.queue, t.request, t.createTime;
      scheduleTime, dispatchCount, lastAttempt, state := t.scheduleTime, t.dispatchCount, t.lastAttempt, t.state;
    }

    /** A copy of the record. */
    function Value(): Task
      reads this
    {
      Task(name, queue, request, scheduleTime, createTime, dispatchCount, lastAttempt, state)
    }
  }

  type HeapTasks = map<string, TaskRecord>

  ghost function CellsOf(ts: HeapTasks): set<TaskRecord> {
    set n | n in ts :: ts[n]
  }

  ghost function OtherCells(cells: set<TaskRecord>, queue: string): set<TaskRecord> {
    set t | t in cells && t.queue != queue
  }

  /** The records of one queue are the tasks `v`. */
  ghost predicate QueueIs(queue: string, ts: HeapTasks, v: Tasks)
    reads CellsOf(ts)
  {
    ts.Keys == v.Keys && forall n :: n in ts ==> ts[n].queue == queue && ts[n].name == n && ts[n].Value() == v[n]
  }

  /** The records, which are among `cells`, are the tasks `v`. */
  ghost predicate TasksAre(tasks: map<string, HeapTasks>, cells: set<TaskRecord>, v: map<string, Tasks>)
    reads cells
  {
    && tasks.Keys == v.Keys
    && forall q :: q in tasks ==> CellsOf(tasks[q]) <= cells && QueueIs(q, tasks[q], v[q])
  }

  /** The records are the tasks `v`, but for those of `queue`. */
  ghost predicate OthersAre(tasks: map<string, HeapTasks>, cells: set<TaskRecord>, v: map<string, Tasks>, queue: string)
    reads OtherCells(cells, queue)
  {
    && tasks.Keys == v.Keys
    && forall q :: q in tasks && q != queue ==>
         CellsOf(tasks[q]) <= OtherCells(cells, queue) && QueueIs(q, tasks[q], v[q])
  }

  lemma Apart(tasks: map<string, HeapTasks>, cells: set<TaskRecord>, v: map<string, Tasks>, queue: string)
    requires TasksAre(tasks, cells, v) && queue in v
    ensures queue in tasks && QueueIs(queue, tasks[queue], v[queue]) && CellsOf(tasks[queue]) <= cells
    ensures OthersAre(tasks, cells, v, queue) && CellsOf(tasks[queue]) !! OtherCells(cells, queue)
  {}

  lemma Together(tasks: map<string, HeapTasks>, cells: set<TaskRecord>, v: map<string, Tasks>, queue: string, ts: Tasks)
    requires OthersAre(tasks, cells, v, queue) && queue in tasks
    requires QueueIs(queue, tasks[queue], ts) && CellsOf(tasks[queue]) <= cells
    ensures TasksAre(tasks, cells, v[queue := ts])
  {}

  lemma TasksAreWith(tasks: map<string, HeapTasks>, cells: set<TaskRecord>, v: map<string, Tasks>, queue: string)
    requires TasksAre(tasks, cells, v)
    ensures TasksAre(tasks[queue := map[]], cells, v[queue := map[]])
    ensures TasksAre(tasks - {queue}, cells, v - {queue})
  {
    assert QueueIs(queue, map[], map[]);
    hide QueueIs;
  }

  lemma TasksAreWithTask(tasks: map<string, HeapTasks>, cells: set<TaskRecord>, v: map<string, Tasks>, t: TaskRecord)
    requires TasksAre(tasks, cells, v) && t.queue in v
    ensures t.queue in tasks
    ensures TasksAre(tasks[t.queue := tasks[t.queue][t.name := t]], cells + {t},
                     v[t.queue := v[t.queue][t.name := t.Value()]])
  {
    assert QueueIs(t.queue, tasks[t.queue][t.name := t], v[t.queue][t.name := t.Value()]);
    hide QueueIs;
  }

  lemma TasksAreWithout(tasks: map<string, HeapTasks>, cells: set<TaskRecord>, v: map<string, Tasks>, queue: string,
                        n: string)
    requires TasksAre(tasks, cells, v) && queue in v
    ensures queue in tasks
    ensures TasksAre(tasks[queue := tasks[queue] - {n}], cells, v[queue := v[queue] - {n}])
  {
    assert QueueIs(queue, tasks[queue] - {n}, v[queue] - {n});
    assert CellsOf(tasks[queue] - {n}) <= CellsOf(tasks[queue]);
    hide QueueIs;
  }

  // ---------- what a poll hands out ----------

  /** `due` holds copies, as a poll leaves them, of the due tasks of the queues outside `todo`, each of them
    once. */
  ghost predicate Copies(due: seq<Task>, before: map<string, Tasks>, todo: set<string>, now: int) {
    && (forall t :: t in due ==>
          && t.queue in before && t.queue !in todo && t.name in before[t.queue]
          && Due(before[t.queue][t.name], now) && t == Dispatched(before[t.queue][t.name], now))
    && (forall q, n :: q in before && q !in todo && n in before[q] && Due(before[q][n], now) ==>
          Dispatched(before[q][n], now) in due)
    && forall i, j :: 0 <= i < j < |due| ==> (due[i].queue, due[i].name) != (due[j].queue, due[j].name)
  }

  /** The same for the tasks of one queue outside `todo`. */
  ghost predicate CopiesOf(queue: string, due: seq<Task>, before: Tasks, todo: set<string>, now: int) {
    && (forall t :: t in due ==>
          && t.queue == queue && t.name in before && t.name !in todo
          && Due(before[t.name], now) && t == Dispatched(before[t.name], now))
    && (forall n :: n in before && n !in todo && Due(before[n], now) ==> Dispatched(before[n], now) in due)
    && forall i, j :: 0 <= i < j < |due| ==> due[i].name != due[j].name
  }

  lemma CopiesAppend(due: seq<Task>, before: map<string, Tasks>, todo: set<string>, queue: string, copies: seq<Task>,
                     now: int)
    requires Copies(due, before, todo, now) && queue in todo && queue in before
    requires CopiesOf(queue, copies, before[queue], {}, now)
    ensures Copies(due + copies, before, todo - {queue}, now)
  {
    hide Due, Dispatched;
    var all := due + copies;
    forall i, j | 0 <= i < j < |all| ensures (all[i].queue, all[i].name) != (all[j].queue, all[j].name) {
      if i < |due| { assert all[i] in due; }
      if j >= |due| { assert all[j] in copies; }
    }
  }

  function PolledBut(v: map<string, Tasks>, todo: set<string>, now: int): map<string, Tasks> {
    map q | q in v :: if q in todo then v[q] else Polled(v[q], now)
  }

  lemma PolledQueue(v: map<string, Tasks>, todo: set<string>, queue: string, now: int)
    requires queue in v && queue in todo
    ensures PolledBut(v, todo, now)[queue := Polled(v[queue], now)] == PolledBut(v, todo - {queue}, now)
    ensures queue in PolledBut(v, todo, now) && PolledBut(v, todo, now)[queue] == v[queue]
  {
    hide Polled;
  }

  lemma PolledEnds(v: map<string, Tasks>, now: int)
    ensures PolledBut(v, v.Keys, now) == v
    ensures PolledBut(v, {}, now) == map q | q in v :: Polled(v[q], now)
  {
    hide Polled;
  }

  function PolledTasksBut(v: Tasks, todo: set<string>, now: int): Tasks {
    map n | n in v :: if n !in todo && Due(v[n], now) then Dispatched(v[n], now) else v[n]
  }

  lemma PolledTask(v: Tasks, todo: set<string>, n: string, now: int)
    requires n in v && n in todo
    ensures PolledTasksBut(v, todo, now)[n := if Due(v[n], now) then Dispatched(v[n], now) else v[n]] ==
            PolledTasksBut(v, todo - {n}, now)
    ensures n in PolledTasksBut(v, todo, now) && PolledTasksBut(v, todo, now)[n] == v[n]
  {
    hide Due, Dispatched;
  }

  lemma PolledTasksEnd(v: Tasks, now: int)
    ensures PolledTasksBut(v, v.Keys, now) == v
    ensures PolledTasksBut(v, {}, now) == Polled(v, now)
  {
    hide Due, Dispatched;
  }

  lemma CopyNext(queue: string, due: seq<Task>, before: Tasks, todo: set<string>, n: string, now: int)
    requires CopiesOf(queue, due, before, todo, now) && n in todo && n in before
    requires before[n].queue == queue && before[n].name == n
    ensures Due(before[n], now) ==> CopiesOf(queue, due + [Dispatched(before[n], now)], before, todo - {n}, now)
    ensures !Due(before[n], now) ==> CopiesOf(queue, due, before, todo - {n}, now)
  {
    hide Due;
    var all := due + [Dispatched(before[n], now)];
    forall i, j | 0 <= i < j < |all| ensures all[i].name != all[j].name {
      assert all[i] in due;
    }
  }

  class Store {
    var queues: map<string, Queue>
    var tasks: map<string, HeapTasks>
    var counter: nat

    ghost var st: State
    /** Every task record that ever was. */
    ghost var cells: set<TaskRecord>

    ghost predicate Holds(s: State)
      reads this, cells
    {
      queues == s.queues && counter == s.counter && TasksAre(tasks, cells, s.tasks)
    }

    ghost predicate Valid()
      reads this, cells
    {
      WellFormed(st) && Holds(st)
    }

    /** A store without persistence. */
    constructor ()
      ensures st == Empty && cells == {}
      ensures Valid()
    {
      queues, tasks, counter := map[], map[], 0;
      st, cells := Empty, {};
    }

    /** Ends an operation that has brought the heap to where it leads. */
    ghost method Conclude(op: Op)
      requires WellFormed(st) && Holds(Exec(st, op))
      modifies this`st
      ensures st == Exec(old(st), op)
      ensures Valid()
    {
      hide WellFormed, Exec, TasksAre;
      ExecOk(st, op);
      st := Exec(st, op);
    }

    lemma Facts()
      requires Valid()
      ensures WellFormed(st) && Holds(st) && queues == st.queues && counter == st.counter
      ensures queues.Keys == tasks.Keys == st.tasks.Keys
      ensures TasksAre(tasks, cells, st.tasks)
      ensures forall q :: q in tasks ==> tasks[q].Keys == st.tasks[q].Keys
    {}

    // ----- queues -----

    method CreateQueue(name: string, maxAttempts: Int32, minBackoff: Int32, maxBackoff: Int32, maxDoublings: Int32)
      returns (r: Result<Queue>)
      requires Valid()
      modifies this`queues, this`tasks, this`st
      ensures r == if name in old(queues) then AlreadyExists
                   else Ok(WithDefaults(Queue(name, maxAttempts, minBackoff, maxBackoff, maxDoublings)))
      ensures st == Exec(old(st), OpCreateQueue(Queue(name, maxAttempts, minBackoff, maxBackoff, maxDoublings)))
      ensures Valid()
    {
      hide WellFormed, TasksAre;
      if name in queues { return AlreadyExists; }
      var attempts, least, most := maxAttempts, minBackoff, maxBackoff;
      if attempts <= 0 { attempts := 3; }
      if least <= 0 { least := 1; }
      if most <= 0 { most := 10; }
      var q := Queue(name, attempts, least, most, maxDoublings);
      TasksAreWith(tasks, cells, st.tasks, name);
      queues := queues[name := q];
      tasks := tasks[name := map[]];
      Conclude(OpCreateQueue(Queue(name, maxAttempts, minBackoff, maxBackoff, maxDoublings)));
      r := Ok(q);
    }

    method DeleteQueue(name: string) returns (r: Result<()>)
      requires Valid()
      modifies this`queues, this`tasks, this`st
      ensures r == if name in old(queues) then Ok(()) else NotFound
      ensures st == Exec(old(st), OpDeleteQueue(name))
      ensures Valid()
    {
      hide WellFormed, TasksAre;
      if name !in queues { return NotFound; }
      TasksAreWith(tasks, cells, st.tasks, name);
      queues := queues - {name};
      tasks := tasks - {name};
      Conclude(OpDeleteQueue(name));
      r := Ok(());
    }

    method PurgeQueue(name: string) returns (r: Result<()>)
      requires Valid()
      modifies this`tasks, this`st
      ensures r == if name in queues then Ok(()) else NotFound
      ensures st == Exec(old(st), OpPurgeQueue(name))
      ensures Valid()
    {
      hide WellFormed, TasksAre;
      if name !in queues { return NotFound; }
      TasksAreWith(tasks, cells, st.tasks, name);
      tasks := tasks[name := map[]];
      Conclude(OpPurgeQueue(name));
      r := Ok(());
    }

    // ----- tasks -----

    method CreateTask(queue: string, name: string, request: Request, scheduleTime: int, now: int)
      returns (r: Result<TaskRecord>)
      requires Valid()
      modifies this`tasks, this`counter, this`cells, this`st
      ensures queue !in queues ==> r == NotFound
      ensures queue in queues && Has(old(st), queue, NameFor(old(st), queue, name)) ==> r == AlreadyExists
      ensures queue in queues && !Has(old(st), queue, NameFor(old(st), queue, name)) ==>
                var n := NameFor(old(st), queue, name);
                queue in tasks && n in tasks[queue] && r == Ok(tasks[queue][n])
      ensures forall t :: t in cells ==> t in old(cells) || fresh(t)
      ensures st == Exec(old(st), OpCreateTask(queue, name, request, scheduleTime, now))
      ensures Valid()
    {
      hide WellFormed, TasksAre, NewTask, Decimal;
      Facts();
      ghost var op := OpCreateTask(queue, name, request, scheduleTime, now);
      if queue !in queues { return NotFound; }
      var taskName := name;
      if taskName == "" {
        counter := counter + 1;
        taskName := queue + "/tasks/" + Decimal(counter);
      }
      if taskName in tasks[queue] {
        Conclude(op);
        return AlreadyExists;
      }
      var t := Insert(queue, taskName, request, scheduleTime, now, st.tasks);
      Conclude(op);
      r := Ok(t);
    }

    method Insert(queue: string, name: string, request: Request, scheduleTime: int, now: int,
                  ghost v: map<string, Tasks>)
      returns (t: TaskRecord)
      requires TasksAre(tasks, cells, v) && queue in v
      modifies this`tasks, this`cells
      ensures queue in tasks && name in tasks[queue] && tasks[queue][name] == t
      ensures forall c :: c in cells ==> c in old(cells) || fresh(c)
      ensures TasksAre(tasks, cells, v[queue := v[queue][name := NewTask(queue, name, request, scheduleTime, now)]])
    {
      hide TasksAre;
      var time, httpMethod := scheduleTime, request.httpMethod;
      if time == ZERO_TIME { time := now; }
      if httpMethod == "" { httpMethod := "POST"; }
      t := new TaskRecord(Task(name, queue, request.(httpMethod := httpMethod), time, now, 0, ZERO_TIME, Pending));
      TasksAreWithTask(tasks, cells, v, t);
      tasks := tasks[queue := tasks[queue][name := t]];
      cells := cells + {t};
    }

    /** A copy of the task, which later changes to the store leave alone. */
    method GetTask(queue: string, name: string) returns (t: Option<Task>)
      requires Valid()
      ensures t == if Has(st, queue, name) then Some(st.tasks[queue][name]) else None
    {
      if queue !in tasks || name !in tasks[queue] { return None; }
      assert QueueIs(queue, tasks[queue], st.tasks[queue]);
      t := Some(tasks[queue][name].Value());
    }

    method DeleteTask(queue: string, name: string) returns (r: Result<()>)
      requires Valid()
      modifies this`tasks, this`st
      ensures r == if Has(old(st), queue, name) then Ok(()) else NotFound
      ensures st == Exec(old(st), OpDeleteTask(queue, name))
      ensures Valid()
    {
      hide WellFormed, TasksAre;
      Facts();
      if queue !in tasks { return NotFound; }
      if name !in tasks[queue] { return NotFound; }
      TasksAreWithout(tasks, cells, st.tasks, queue, name);
      tasks := tasks[queue := tasks[queue] - {name}];
      Conclude(OpDeleteTask(queue, name));
      r := Ok(());
    }

    method CompleteTask(queue: string, name: string)
      requires Valid()
      modifies this`tasks, this`st
      ensures st == Exec(old(st), OpCompleteTask(queue, name))
      ensures Valid()
    {
      hide WellFormed, TasksAre;
      Facts();
      if queue in tasks {
        TasksAreWithout(tasks, cells, st.tasks, queue, name);
        RemovedOrAbsent(st, queue, name);
        tasks := tasks[queue := tasks[queue] - {name}];
      }
      Conclude(OpCompleteTask(queue, name));
    }

    // ----- polling and retrying -----

    /** Marks every due task as dispatching and hands out copies of them, in an arbitrary order. */
    method DueTasks(now: int) returns (due: seq<Task>)
      requires Valid()
      modifies cells, this`st
      ensures Copies(due, old(st.tasks), {}, now)
      ensures st == Exec(old(st), OpDueTasks(now))
      ensures Valid()
    {
      hide WellFormed, TasksAre, Copies, PolledBut, Polled;
      Facts();
      ghost var before := st.tasks;
      due := [];
      var todo := tasks.Keys;
      NoCopies(before, now);
      PolledEnds(before, now);
      while todo != {}
        invariant todo <= before.Keys && st == old(st)
        invariant Copies(due, before, todo, now)
        invariant TasksAre(tasks, cells, PolledBut(before, todo, now))
        decreases |todo|
      {
        var q := AnyOf(todo);
        PolledQueue(before, todo, q, now);
        var copies := PollQueue(q, now, PolledBut(before, todo, now));
        CopiesAppend(due, before, todo, q, copies, now);
        due, todo := due + copies, todo - {q};
      }
      Conclude(OpDueTasks(now));
    }

    method PollQueue(queue: string, now: int, ghost v: map<string, Tasks>) returns (due: seq<Task>)
      requires TasksAre(tasks, cells, v) && queue in v
      modifies cells
      ensures CopiesOf(queue, due, v[queue], {}, now)
      ensures TasksAre(tasks, cells, v[queue := Polled(v[queue], now)])
    {
      hide TasksAre, QueueIs, CopiesOf, Polled, PolledTasksBut, OthersAre, Due, Dispatched;
      Apart(tasks, cells, v, queue);
      var ts := tasks[queue];
      ghost var before := v[queue];
      SameNames(queue, ts, before);
      due := [];
      var todo := ts.Keys;
      NoCopiesOf(queue, before, now);
      PolledTasksEnd(before, now);
      while todo != {}
        invariant todo <= before.Keys
        invariant CopiesOf(queue, due, before, todo, now)
        invariant QueueIs(queue, ts, PolledTasksBut(before, todo, now)) && OthersAre(tasks, cells, v, queue)
        decreases |todo|
      {
        var n := AnyOf(todo);
        PolledTask(before, todo, n, now);
        CopyNext(queue, due, before, todo, n, now);
        var copy := PollTask(queue, ts, n, now, PolledTasksBut(before, todo, now));
        if copy.Some? { due := due + [copy.value]; }
        todo := todo - {n};
      }
      Together(tasks, cells, v, queue, Polled(before, now));
    }

    /** Dispatches a task if it is due, and returns a copy of it. */
    method PollTask(queue: string, ts: HeapTasks, n: string, now: int, ghost v: Tasks) returns (copy: Option<Task>)
      requires QueueIs(queue, ts, v) && n in ts && n in v
      modifies ts[n]
      ensures copy == if Due(v[n], now) then Some(Dispatched(v[n], now)) else None
      ensures QueueIs(queue, ts, v[n := if Due(v[n], now) then Dispatched(v[n], now) else v[n]])
    {
      var t := ts[n];
      if t.state == Pending && t.scheduleTime <= now {
        t.state := Dispatching;
        t.dispatchCount := Wrap32(t.dispatchCount + 1);
        t.lastAttempt := now;
        return Some(t.Value());
      }
      copy := None;
    }

    /** Puts a task back after a failed dispatch, or drops it when it has used up its attempts. */
    method RetryTask(queue: string, name: string, now: int) returns (retried: bool)
      requires Valid()
      modifies this`tasks, cells, this`st
      ensures retried <==> CanRetry(old(st), queue, name)
      ensures retried <==>
                && At(old(st), queue, name).Some? && QueueAt(old(st), queue).Some?
                && At(old(st), queue, name).value.dispatchCount < QueueAt(old(st), queue).value.maxAttempts
      ensures st == Exec(old(st), OpRetryTask(queue, name, now))
      ensures Valid()
    {
      hide WellFormed, TasksAre, QueueIs, Backoff;
      Facts();
      RetriedExactly(st, queue, name);
      ghost var op := OpRetryTask(queue, name, now);
      if queue !in tasks || name !in tasks[queue] { return false; }
      var t, q := tasks[queue][name], queues[queue];
      Apart(tasks, cells, st.tasks, queue);
      RecordIs(queue, tasks[queue], st.tasks[queue], name);
      if q.maxAttempts > 0 && t.dispatchCount >= q.maxAttempts {
        TasksAreWithout(tasks, cells, st.tasks, queue, name);
        tasks := tasks[queue := tasks[queue] - {name}];
        Conclude(op);
        return false;
      }
      Reschedule(queue, name, q, now, st.tasks);
      Conclude(op);
      retried := true;
    }

    method Reschedule(queue: string, name: string, q: Queue, now: int, ghost v: map<string, Tasks>)
      requires TasksAre(tasks, cells, v) && queue in v && name in v[queue]
      modifies cells
      ensures TasksAre(tasks, cells, v[queue := v[queue][name := Retried(q, v[queue][name], now)]])
    {
      hide TasksAre, OthersAre, QueueIs, Backoff;
      Apart(tasks, cells, v, queue);
      RecordIs(queue, tasks[queue], v[queue], name);
      var t := tasks[queue][name];
      var backoff := ComputeBackoff(q, t.dispatchCount);
      Wait(queue, tasks[queue], name, now + backoff, v[queue]);
      Together(tasks, cells, v, queue, v[queue][name := Retried(q, v[queue][name], now)]);
    }

    method Wait(ghost queue: string, ts: HeapTasks, name: string, until: int, ghost v: Tasks)
      requires QueueIs(queue, ts, v) && name in ts && name in v
      modifies ts[name]
      ensures QueueIs(queue, ts, v[name := v[name].(scheduleTime := until, state := Pending)])
    {
      var t := ts[name];
      t.scheduleTime := until;
      t.state := Pending;
    }
  }

  lemma NoCopies(before: map<string, Tasks>, now: int)
    ensures Copies([], before, before.Keys, now)
  {}

  lemma NoCopiesOf(queue: string, before: Tasks, now: int)
    ensures CopiesOf(queue, [], before, before.Keys, now)
  {}

  lemma SameNames(queue: string, ts: HeapTasks, v: Tasks)
    requires QueueIs(queue, ts, v)
    ensures ts.Keys == v.Keys
    ensures forall n :: n in v ==> v[n].queue == queue && v[n].name == n
  {
    forall n | n in v ensures v[n].queue == queue && v[n].name == n {
      assert ts[n].Value() == v[n];
    }
  }

  lemma RecordIs(queue: string, ts: HeapTasks, v: Tasks, n: string)
    requires QueueIs(queue, ts, v) && n in v
    ensures n in ts && ts[n].Value() == v[n]
  {}

  lemma RemovedOrAbsent(st: State, queue: string, name: string)
    requires queue in st.tasks
    ensures RemoveTask(st, queue, name) == WithTasks(st, queue, st.tasks[queue] - {name})
  {
    if !Has(st, queue, name) { assert st.tasks[queue] - {name} == st.tasks[queue]; }
  }
}
