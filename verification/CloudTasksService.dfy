/** The Cloud Tasks service: what becomes of a dispatched task, and how a task name leads to its queue. */
module CloudTasksService {
  import opened Wrappers
  import opened Text
  import opened CloudTasksState
  import S = CloudTasksStore
  import D = Dispatch

  /** Retries are made by the task queue, not by the dispatcher. */
  const DISPATCH_CONFIG: D.Config := D.Config(0, 0, 1.0, 0)

  class Service {
    const store: S.Store

    constructor (store: S.Store)
      ensures this.store == store
    {
      this.store := store;
    }

    /** Posts a due task once. An accepted task is completed, any other is retried, or dropped. */
    method DispatchTask(t: Task, net: D.Script, now: int) returns (ghost posts: nat, ghost accepted: bool)
      requires store.Valid()
      modifies store`tasks, store.cells, store`st
      ensures posts == if net(0).outcome.BadRequest? then 0 else 1
      ensures accepted <==> D.AcceptedAt(net, 0)
      ensures store.st == Exec(old(store.st), if accepted then OpCompleteTask(t.queue, t.name)
                                              else OpRetryTask(t.queue, t.name, now))
      ensures store.Valid()
    {
      hide Exec, WellFormed, D.Concludes, D.AcceptedAt;
      D.PostsOnce(DISPATCH_CONFIG, net);
      var report, p, waits := D.Dispatch(DISPATCH_CONFIG, net);
      D.SucceedsExactly(DISPATCH_CONFIG, net, report);
      posts, accepted := p, report.err.None?;
      if report.err.None? {
        store.CompleteTask(t.queue, t.name);
      } else {
        var retried := store.RetryTask(t.queue, t.name, now);
      }
    }
  }

  // ---------- task names ----------

  const TASKS: string := "/tasks/"

  function QueueFromTaskName(name: string): string {
    var i := Index(name, TASKS);
    if i < 0 then "" else name[..i]
  }

  /** A task named after its queue is found in that queue exactly when the separator does not start earlier,
    in or across the end of the queue's own name. */
  lemma {:induction false} NameLeadsToQueue(queue: string, id: string)
    ensures QueueFromTaskName(queue + TASKS + id) == queue <==>
            forall i :: 0 <= i < |queue| ==> !OccursAt(queue + TASKS, TASKS, i)
  {
    var name := queue + TASKS + id;
    assert OccursAt(name, TASKS, |queue|);
    forall i | 0 <= i < |queue| ensures OccursAt(name, TASKS, i) <==> OccursAt(queue + TASKS, TASKS, i) {
      assert name[i..i + |TASKS|] == (queue + TASKS)[i..i + |TASKS|];
    }
    assert Index(name, TASKS) <= |queue|;
    assert name[..|queue|] == queue;
    if Index(name, TASKS) < |queue| {
      assert OccursAt(queue + TASKS, TASKS, Index(name, TASKS));
      assert |name[..Index(name, TASKS)]| < |queue|;
    }
  }

  /** A queue whose name contains the separator hides its automatically named tasks. */
  lemma {:induction false} NestedNameIsLost(id: string)
    ensures QueueFromTaskName("q/tasks/r" + TASKS + id) == "q"
  {
    var name := "q/tasks/r" + TASKS + id;
    assert name[1..8] == TASKS;
    assert OccursAt(name, TASKS, 1);
    assert name[0] == 'q';
    assert !OccursAt(name, TASKS, 0) by { assert name[0..7][0] == 'q'; }
    assert name[..1] == "q";
  }
}
