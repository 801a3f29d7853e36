/** The bounded FIFO queue of src/scheduler.c on its linked list. Each method is one critical
    section, from taking the queue lock to releasing it, be it by unlock or inside
    pthread_cond_wait; a caller that is told to wait sleeps and calls again. Which sleepers the
    signals wake is part of the step system, not of this class. */
module TaskQueues {
  import opened Collections
  import opened PoolModel

  class TaskNode {
    const t: Task
    var next: TaskNode?

    constructor (t: Task)
      ensures this.t == t && next == null
    {
      this.t := t;
      next := null;
    }
  }

  /** A node that is neither linked nor freed can be linked last, or freed. */
  lemma NewNodeDistinct(freed: seq<TaskNode>, nodes: seq<TaskNode>, node: TaskNode)
    requires Distinct(freed + nodes) && node !in freed + nodes
    ensures Distinct(freed + (nodes + [node]))
    ensures Distinct(freed + [node] + nodes)
  {
    DistinctInsert(freed, nodes, node);
    DistinctInsert(freed + nodes, [], node);
    assert freed + nodes + [] == freed + nodes;
    assert freed + nodes + [node] + [] == freed + (nodes + [node]);
  }

  datatype PushOutcome = Accepted | PushMustWait | Rejected

  datatype PopOutcome = Got(t: Task) | PopMustWait | Finished

  class TaskQueue {
    var head: TaskNode?
    var tail: TaskNode?
    var count: nat
    const capacity: nat
    var shutdown: bool
    /** The chain from head to tail. */
    ghost var nodes: seq<TaskNode>
    /** The nodes handed to free, in order. */
    ghost var freed: seq<TaskNode>
    /** The queue and its nodes, linked in or freed. */
    ghost var Repr: set<object>
    /** Every task ever linked in, and every task ever taken out. */
    ghost var pushed: seq<Task>
    ghost var popped: seq<Task>

    ghost function Contents(): seq<Task>
      reads this
    {
      seq(|nodes|, i requires 0 <= i < |nodes| reads this => nodes[i].t)
    }

    /** The list is one chain without cycles, count is its length, tail is null exactly when head is,
        nothing in the chain has been freed and nothing has been freed twice, and what was pushed is
        what was popped, then what is in the chain. */
    ghost predicate Valid()
      reads this, Repr
      ensures Valid() ==> this in Repr && forall n :: n in nodes ==> n in Repr
    {
      && this in Repr && (forall n :: n in nodes ==> n in Repr)
      && count == |nodes|
      && (capacity > 0 ==> count <= capacity)
      && (if nodes == [] then head == null && tail == null
          else head == nodes[0] && tail == nodes[|nodes| - 1] && tail.next == null)
      && (forall i :: 0 <= i < |nodes| - 1 ==> nodes[i].next == nodes[i + 1])
      && Distinct(freed + nodes)
      && pushed == popped + Contents()
    }

    constructor (capacity: nat)
      ensures Valid() && Contents() == [] && !shutdown && this.capacity == capacity
      ensures nodes == [] && freed == [] && pushed == [] && popped == [] && fresh(Repr)
    {
      head, tail, count := null, null, 0;
      this.capacity := capacity;
      shutdown := false;
      nodes, freed, pushed, popped := [], [], [], [];
      Repr := {this};
    }

    /** Links a node in behind the last one. */
    method Append(node: TaskNode)
      requires Valid() && (capacity > 0 ==> count < capacity) && node !in freed + nodes && node.next == null
      modifies this, nodes
      ensures Valid() && shutdown == old(shutdown) && popped == old(popped) && freed == old(freed)
      ensures nodes == old(nodes) + [node] && Contents() == old(Contents()) + [node.t]
      ensures pushed == old(pushed) + [node.t] && Repr == old(Repr) + {node}
    {
      NewNodeDistinct(freed, nodes, node);
      if tail != null {
        tail.next := node;
      } else {
        head := node;
      }
      tail := node;
      count := count + 1;
      nodes := nodes + [node];
      pushed := pushed + [node.t];
      Repr := Repr + {node};
    }

    /** task_queue_push with the node already filled in. */
    method Push(node: TaskNode) returns (outcome: PushOutcome)
      requires Valid() && node !in freed + nodes && node.next == null
      modifies this, nodes
      ensures Valid() && shutdown == old(shutdown) && popped == old(popped) && Repr == old(Repr) + {node}
      ensures outcome == if old(shutdown) then Rejected
                         else if capacity > 0 && old(count) >= capacity then PushMustWait
                         else Accepted
      ensures Contents() == old(Contents()) + (if outcome.Accepted? then [node.t] else [])
      ensures nodes == old(nodes) + (if outcome.Accepted? then [node] else [])
      ensures freed == old(freed) + (if outcome.Rejected? then [node] else [])
    {
      Repr := Repr + {node};
      if shutdown {
        NewNodeDistinct(freed, nodes, node);
        freed := freed + [node];
        return Rejected;
      }
      if capacity > 0 && count >= capacity {
        return PushMustWait;
      }
      Append(node);
      outcome := Accepted;
    }

    /** task_queue_push of a task, with a node of its own. */
    method PushTask(t: Task) returns (outcome: PushOutcome)
      requires Valid()
      modifies Repr
      ensures Valid() && fresh(Repr - old(Repr)) && shutdown == old(shutdown) && popped == old(popped)
      ensures outcome == if old(shutdown) then Rejected
                         else if capacity > 0 && |old(Contents())| >= capacity then PushMustWait
                         else Accepted
      ensures Contents() == old(Contents()) + (if outcome.Accepted? then [t] else [])
      ensures pushed == old(pushed) + (if outcome.Accepted? then [t] else [])
    {
      var node := new TaskNode(t);
      outcome := Push(node);
    }

    /** Unlinks the first node and frees it. */
    method TakeFirst() returns (t: Task)
      requires Valid() && count > 0
      modifies this
      ensures Valid() && shutdown == old(shutdown) && pushed == old(pushed) && Repr == old(Repr)
      ensures [t] + Contents() == old(Contents()) && popped == old(popped) + [t]
      ensures [old(nodes)[0]] + nodes == old(nodes) && freed == old(freed) + [old(nodes)[0]]
    {
      ghost var was := Contents();
      var node := head;
      head := node.next;
      if head == null {
        tail := null;
      }
      count := count - 1;
      t := node.t;
      assert freed + nodes == (freed + [nodes[0]]) + nodes[1..];
      freed := freed + [nodes[0]];
      nodes := nodes[1..];
      popped := popped + [t];
      assert [t] + Contents() == was;
      assert popped + Contents() == old(popped) + was;
    }

    /** task_queue_pop. */
    method Pop() returns (outcome: PopOutcome)
      requires Valid()
      modifies this
      ensures Valid() && shutdown == old(shutdown) && pushed == old(pushed) && Repr == old(Repr)
      ensures outcome.Got? <==> old(Contents()) != []
      ensures outcome.Got? ==> [outcome.t] + Contents() == old(Contents()) && popped == old(popped) + [outcome.t]
      ensures outcome.Got? ==> [old(nodes)[0]] + nodes == old(nodes) && freed == old(freed) + [old(nodes)[0]]
      ensures !outcome.Got? ==> outcome == (if shutdown then Finished else PopMustWait) && Contents() == []
      ensures !outcome.Got? ==> nodes == old(nodes) && freed == old(freed) && popped == old(popped)
    {
      if count == 0 && !shutdown {
        return PopMustWait;
      }
      if count == 0 && shutdown {
        return Finished;
      }
      var t := TakeFirst();
      outcome := Got(t);
    }

    /** task_queue_try_pop, which never waits and does not look at the shutdown flag. */
    method TryPop() returns (got: Option<Task>)
      requires Valid()
      modifies this
      ensures Valid() && shutdown == old(shutdown) && pushed == old(pushed) && Repr == old(Repr)
      ensures got.None? <==> old(Contents()) == []
      ensures got.Some? ==> [got.value] + Contents() == old(Contents()) && popped == old(popped) + [got.value]
      ensures got.Some? ==> [old(nodes)[0]] + nodes == old(nodes) && freed == old(freed) + [old(nodes)[0]]
      ensures got.None? ==> Contents() == [] && nodes == old(nodes) && freed == old(freed) && popped == old(popped)
    {
      if count == 0 {
        return None;
      }
      var t := TakeFirst();
      got := Some(t);
    }

    /** task_queue_size. */
    method Size() returns (n: nat)
      requires Valid()
      ensures n == |Contents()|
    {
      n := count;
    }

    /** task_queue_shutdown. */
    method Shutdown()
      requires Valid()
      modifies this`shutdown
      ensures Valid() && shutdown && Contents() == old(Contents())
    {
      shutdown := true;
    }

    /** task_queue_destroy: walks the chain and frees every node that is left, each once. */
    method Destroy()
      requires Valid()
      modifies this
      ensures Contents() == [] && nodes == [] && head == null && tail == null && count == 0
      ensures freed == old(freed) + old(nodes) && Distinct(freed)
      ensures shutdown == old(shutdown) && pushed == old(pushed) && popped == old(popped)
      ensures Repr == old(Repr) && (old(Contents()) == [] ==> Valid())
    {
      ghost var all := freed + nodes;
      var node := head;
      ghost var i := 0;
      while node != null
        invariant 0 <= i <= |nodes| && unchanged(this`nodes) && unchanged(this`shutdown)
        invariant unchanged(this`pushed) && unchanged(this`popped) && unchanged(this`Repr)
        invariant node == if i < |nodes| then nodes[i] else null
        invariant freed == old(freed) + nodes[..i]
        decreases |nodes| - i
      {
        var next := node.next;
        freed := freed + [node];
        node := next;
        i := i + 1;
      }
      assert freed == all;
      assert |Contents()| == |nodes|;
      nodes := [];
      head, tail, count := null, null, 0;
      assert freed + nodes == all;
    }
  }
}
