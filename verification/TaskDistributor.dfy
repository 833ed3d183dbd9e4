/** The task distributor's own code: the choice of a worker and one turn of a worker's loop. */
module TaskDistributor {
  import opened Runs
  import opened TaskRuntime
  import MutexQueue

  datatype TaskType = ScheduleTask | IoTask | FutureTask

  /** The worker for a task type; `msec` is the clock reading used as a random source.  I/O tasks go
      to the first worker and schedule tasks to the second; the last of several workers never gets a
      future task. */
  function IndexForType(kind: TaskType, size: nat, msec: nat): (index: nat)
    requires size > 0
    ensures index < size
    ensures kind.IoTask? ==> index == 0
    ensures kind.ScheduleTask? && size > 1 ==> index == 1
    ensures kind.FutureTask? && size > 1 ==> index < size - 1 && msec == msec / (size - 1) * (size - 1) + index
  {
    match kind
    case IoTask => 0
    case ScheduleTask => if size > 1 then 1 else 0
    case FutureTask => if size > 1 then msec % (size - 1) else 0
  }

  /** One worker's queue with the histories of what was accepted into it and begun from it. */
  class WorkerThread {
    const queue: MutexQueue.MutexQue<Task>
    ghost var accepted: seq<Task>
    ghost var executed: seq<Task>

    /** Between turns nothing is half done. */
    ghost predicate Valid()
      reads this, queue
    {
      accepted == executed + queue.Logical() && queue.front == []
    }

    constructor ()
      ensures Valid() && fresh(queue) && accepted == [] && executed == []
    {
      queue := new MutexQueue.MutexQue<Task>();
      accepted, executed := [], [];
    }

    /** `addTask`, after the worker has been chosen.  An empty task, and any task before the threads
        are started, is refused. */
    method AddTask(task: Option<Task>, running: bool) returns (ok: bool)
      requires Valid()
      modifies this, queue
      ensures Valid() && (ok <==> running && task.Some?) && executed == old(executed)
      ensures accepted == if ok then old(accepted) + [task.value] else old(accepted)
    {
      if !running || task.None? {
        return false;
      }
      queue.PushBack(task.value);
      accepted := accepted + [task.value];
      return true;
    }

    /** `work`: takes everything queued into a fresh batch and begins each task of it once, in order;
        `adds` gives the tasks that a task puts on this queue while it runs. */
    method Work(adds: Task -> seq<Task>) returns (ran: nat)
      requires Valid()
      modifies this, queue
      ensures Valid() && old(accepted) <= accepted
      ensures executed == old(accepted) && ran == |old(queue.Logical())|
    {
      var result: seq<Task> := [];
      result := queue.TakeMulti(result);
      ran := |result|;
      if result == [] {
        return;
      }
      assert queue.Logical() == [] && accepted == executed + result;
      for i := 0 to |result|
        invariant executed == old(executed) + result[..i] && queue.front == []
        invariant old(accepted) <= accepted
        invariant accepted == executed + result[i..] + queue.Logical()
      {
        executed := executed + [result[i]];
        assert result[i..] == [result[i]] + result[i + 1..];
        RunBody(adds(result[i]), result[i + 1..]);
      }
      assert result[..|result|] == result;
    }

    /** The pushes a running task makes, while `rest` of the batch waits. */
    method RunBody(pushes: seq<Task>, ghost rest: seq<Task>)
      requires accepted == executed + rest + queue.Logical()
      modifies this`accepted, queue
      ensures accepted == old(accepted) + pushes && accepted == executed + rest + queue.Logical()
      ensures queue.front == old(queue.front)
    {
      for k := 0 to |pushes|
        invariant accepted == old(accepted) + pushes[..k] && queue.front == old(queue.front)
        invariant accepted == executed + rest + queue.Logical()
      {
        queue.PushBack(pushes[k]);
        accepted := accepted + [pushes[k]];
      }
    }
  }
}
