/** ThreadPool's own code: each method is the corresponding steps of the machine in a row. */
module ThreadPools {
  import opened Bytes
  import opened ThreadPoolSpec

  class ThreadPool {
    var tasks: seq<Task>
    var stop: bool

    /** The workers, the notifications still owed and the history. */
    ghost var rest: Pool

    ghost function Model(): Pool
      reads this
    {
      rest.(tasks := tasks, stop := stop)
    }

    constructor (ghost size: nat)
      requires size > 0
      ensures Model() == Init(size) && Inv(Model())
    {
      tasks, stop := [], false;
      rest := Init(size);
      new;
      InitInv(size);
    }

    /** add: refused after stop; otherwise queued, and `woken` is the sleeper notify_one picks, if any. */
    method Enqueue(task: Task, ghost woken: Option<nat>) returns (accepted: bool)
      requires Inv(Model())
      requires !stop ==> Enabled(Next(Model(), Add(task)), NotifyOne(woken))
      modifies this
      ensures accepted == !old(stop) && Inv(Model())
      ensures tasks == if accepted then old(tasks) + [task] else old(tasks)
      ensures !accepted ==> Model() == old(Model())
      ensures accepted ==> Model() == Next(Next(old(Model()), Add(task)), NotifyOne(woken))
    {
      if stop {
        return false;
      }
      StepKeeps(Model(), Add(task));
      StepKeeps(Next(Model(), Add(task)), NotifyOne(woken));
      tasks := tasks + [task];
      rest := rest.(accepted := rest.accepted + [task],
                    workers := if woken.Some? then rest.workers[woken.value := Ready] else rest.workers);
      return true;
    }

    /** A worker's critical section: sleep, return, or take the front task. */
    method TakeTask(ghost i: nat) returns (task: Option<Task>)
      requires Inv(Model()) && Enabled(Model(), Evaluate(i))
      modifies this
      ensures Inv(Model()) && Model() == Next(old(Model()), Evaluate(i))
      ensures task == if old(tasks) == [] then None else Some(old(tasks)[0])
      ensures tasks == if old(tasks) == [] then [] else old(tasks)[1..]
    {
      StepKeeps(Model(), Evaluate(i));
      if !stop && tasks == [] {
        rest := rest.(workers := rest.workers[i := Asleep]);
        return None;
      }
      if stop && tasks == [] {
        rest := rest.(workers := rest.workers[i := Gone]);
        return None;
      }
      task := Some(tasks[0]);
      tasks := tasks[1..];
      rest := rest.(workers := rest.workers[i := Busy(task.value)], taken := rest.taken + [task.value]);
    }

    /** The destructor up to its join: set stop, notify_all. */
    method Shutdown()
      requires Inv(Model()) && !stop
      modifies this
      ensures Inv(Model()) && Model() == Next(Next(old(Model()), Stop), NotifyAll) && Joining(Model())
    {
      StepKeeps(Model(), Stop);
      StepKeeps(Next(Model(), Stop), NotifyAll);
      stop := true;
      rest := rest.(notifyAllOwed := false, workers := WakeAll(rest.workers));
    }
  }
}
