/** The task queue of task.c: a chain of tasks through child[0], whose head keeps the tail in
    child[1]; and the pending tree, an ordered map by submission time. */
module TaskQueue {
  import opened Common

  /** The tree node embedded in a task, with the submission time. */
  class Task {
    var next: Task?   // child[0]
    var tail: Task?   // child[1]
    var itime: nat

    constructor ()
      ensures next == null && tail == null && itime == 0
    {
      next, tail, itime := null, null, 0;
    }
  }

  /** The chain that starts at `head` runs through `tasks` and ends. */
  ghost predicate Chain(head: Task?, tasks: seq<Task>)
    reads set t | t in tasks
  {
    && (if tasks == [] then head == null else head == tasks[0])
    && (forall i, j | 0 <= i < j == i + 1 < |tasks| :: tasks[i].next == tasks[j])
    && (tasks != [] ==> tasks[|tasks| - 1].next == null)
    && (forall i, j | 0 <= i < j < |tasks| :: tasks[i] != tasks[j])
  }

  class Queue {
    var head: Task?
    ghost var tasks: seq<Task>

    constructor ()
      ensures Valid() && tasks == []
    {
      head, tasks := null, [];
    }

    ghost predicate Valid()
      reads this, set t | t in tasks
    {
      && Chain(head, tasks)
      && (tasks != [] ==> head.tail == tasks[|tasks| - 1])
    }

    /** z_task_queue_push: at the end. */
    method Push(task: Task?)
      requires Valid() && (task != null ==> task !in tasks)
      modifies this, task, set t | t in tasks
      ensures Valid() && tasks == if task == null then old(tasks) else old(tasks) + [task]
      ensures forall t: Task | t in old(tasks) || t == task :: t.itime == old(t.itime)
    {
      if task != null {
        if head != null {
          var last := head.tail;
          last.next := task;
          head.tail := task;
          task.next := null;
          task.tail := null;
        } else {
          task.next := null;
          task.tail := task;
          head := task;
        }
        tasks := tasks + [task];
      }
    }

    /** z_task_queue_pop: the oldest task, unlinked. */
    method Pop() returns (task: Task?)
      requires Valid()
      modifies this, set t | t in tasks
      ensures Valid()
      ensures if old(tasks) == [] then task == null && tasks == []
              else task == old(tasks[0]) && tasks == old(tasks[1..])
      ensures task != null ==> task.next == null && task.tail == null
      ensures forall t | t in old(tasks) :: t.itime == old(t.itime)
    {
      if head != null {
        task := head;
        var next, tail := head.next, head.tail;
        assert |tasks| > 1 ==> next == tasks[1];
        head := next;
        if head != null {
          next.tail := tail;
        }
        task.next := null;
        task.tail := null;
        tasks := tasks[1..];
        return;
      }
      return null;
    }

    /** z_task_queue_drain: the whole chain. */
    method Drain() returns (chain: Task?, ghost drained: seq<Task>)
      requires Valid()
      modifies this
      ensures Valid() && tasks == [] && drained == old(tasks) && Chain(chain, drained)
    {
      chain, drained := head, tasks;
      head, tasks := null, [];
    }
  }

  /** The pending tree, taken as an ordered map. Attaching and detaching overwrite the links. */
  class Tree {
    var nodes: map<nat, Task>

    constructor ()
      ensures nodes == map[]
    {
      nodes := map[];
    }

    /** Every task is filed under its submission time. */
    predicate Valid()
      reads this, set k | k in nodes :: nodes[k]
    {
      forall k | k in nodes :: nodes[k].itime == k
    }

    /** z_task_tree_push: every task of a chain, each read on before it is attached. */
    method Push(chain: Task?, ghost tasks: seq<Task>)
      requires Valid() && Chain(chain, tasks)
      requires forall i | 0 <= i < |tasks| :: tasks[i].itime !in nodes
      requires forall i, j | 0 <= i < j < |tasks| :: tasks[i].itime != tasks[j].itime
      modifies this, (set t | t in tasks)`next, (set t | t in tasks)`tail
      ensures Valid()
      ensures forall k | k in old(nodes) :: k in nodes && nodes[k] == old(nodes[k])
      ensures forall k | k in nodes && k !in old(nodes) :: nodes[k] in tasks && nodes[k].itime == k
      ensures forall t | t in tasks :: t.itime in nodes && nodes[t.itime] == t
    {
      var task := chain;
      ghost var i := 0;
      while task != null
        invariant 0 <= i <= |tasks|
        invariant task == if i < |tasks| then tasks[i] else null
        invariant forall j | i <= j < |tasks| :: tasks[j].next == old(tasks[j].next)
        invariant forall k | k in nodes && k !in old(nodes) :: nodes[k] in tasks[..i] && nodes[k].itime == k
        invariant forall k | k in old(nodes) :: k in nodes && nodes[k] == old(nodes[k])
        invariant forall j | 0 <= j < i :: tasks[j].itime in nodes && nodes[tasks[j].itime] == tasks[j]
        decreases |tasks| - i
      {
        var next := task.next;
        assert i + 1 < |tasks| ==> old(tasks[i].next) == tasks[i + 1];
        task.next, task.tail := null, null;
        nodes := nodes[task.itime := task];
        task := next;
        i := i + 1;
      }
    }

    /** z_task_tree_pop: the task submitted first. */
    method Pop() returns (task: Task?)
      requires Valid()
      modifies this, set k | k in nodes :: nodes[k]
      ensures Valid()
      ensures task == null <==> old(nodes) == map[]
      ensures task != null ==>
                && task.next == null && task.tail == null
                && task.itime in old(nodes) && old(nodes)[task.itime] == task
                && (forall k | k in old(nodes) :: task.itime <= k)
                && nodes == old(nodes) - {task.itime}
    {
      if nodes == map[] {
        return null;
      }
      Least(nodes.Keys);
      var least :| IsLeast(nodes.Keys, least);
      task := nodes[least];
      nodes := nodes - {least};
      task.next, task.tail := null, null;
    }
  }

  lemma {:induction false} Least(keys: set<nat>)
    requires keys != {}
    ensures exists least :: IsLeast(keys, least)
  {
    var k :| k in keys;
    var rest := keys - {k};
    assert forall k' | k' in keys :: k' == k || k' in rest;
    if rest != {} {
      Least(rest);
      var least :| IsLeast(rest, least);
      assert IsLeast(keys, if k < least then k else least);
    } else {
      assert IsLeast(keys, k);
    }
  }
}
