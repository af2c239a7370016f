/**
  src/factory/Workflow.cc: the tasks of a series wait in a ring buffer that grows, followed by
  the last task.
 */
module SeriesQueue {

  class SubTask {
    var pointer: SeriesWork?

    constructor ()
      ensures pointer == null
    {
      pointer := null;
    }
  }

  // k places after position i in a ring of n
  function Spot(i: nat, k: nat, n: nat): nat {
    if i + k < n then i + k else i + k - n
  }

  // The n elements from position i on, around the end of the buffer
  ghost function Ring<T>(a: seq<T>, i: nat, n: nat): (r: seq<T>)
    requires i < |a| && n <= |a|
    ensures |r| == n
  {
    seq(n, k requires 0 <= k < n => a[Spot(i, k, |a|)])
  }

  lemma RingWhole<T>(a: seq<T>, n: nat, full: seq<T>)
    requires n < |a| && a[..n] == full
    ensures Ring(a, 0, n) == full
  {
    forall k | 0 <= k < n ensures Ring(a, 0, n)[k] == full[k] {
      assert a[..n][k] == a[k];
    }
  }

  class SeriesWork {
    var queue: array<SubTask?>
    var queueSize: nat
    var front: int
    var back: int
    var last: SubTask?
    var canceled: bool
    var finished: bool
    var callbacks: nat        // how often the series' callback has run

    ghost predicate Valid()
      reads this, queue
    {
      && queueSize == queue.Length >= 4 && 0 <= front < queueSize && 0 <= back < queueSize
      && forall k :: 0 <= k < Count() ==> Ring(queue[..], front, Count())[k] != null
    }

    ghost function Count(): nat
      requires queueSize == queue.Length >= 4 && 0 <= front < queueSize && 0 <= back < queueSize
      reads this`front, this`back, this`queueSize, this`queue
    {
      if front <= back then back - front else back + queueSize - front
    }

    // The waiting tasks, first to last, without the one set as last
    ghost function Tasks(): seq<SubTask?>
      requires Valid()
      reads this, queue
    {
      Ring(queue[..], front, Count())
    }

    // Workflow.cc:9-24
    constructor ()
      ensures Valid() && Tasks() == [] && last == null && !canceled && !finished && callbacks == 0 && fresh(queue)
    {
      queue := new SubTask?[4](i => null);
      queueSize, front, back := 4, 0, 0;
      last, canceled, finished, callbacks := null, false, false, 0;
    }

    // expand_queue (Workflow.cc:44-66), called when the ring has become full: front == back
    method ExpandQueue()
      requires queueSize == queue.Length >= 4 && 0 <= front == back < queueSize
      requires forall k :: 0 <= k < queueSize ==> queue[k] != null
      modifies this`queue, this`queueSize, this`front, this`back
      ensures Valid() && fresh(queue) && Tasks() == Ring(old(queue[..]), old(front), old(queueSize))
    {
      ghost var full := Ring(queue[..], front, queueSize);
      var size := 2 * queueSize;
      var bigger := new SubTask?[size](i => null);
      var i, j := 0, front;
      while true
        modifies bigger
        invariant 0 <= i < queueSize && j == Spot(front, i, queueSize)
        invariant bigger[..i] == full[..i]
        decreases queueSize - i
      {
        bigger[i] := queue[j];
        assert full[i] == queue[j];
        i := i + 1;
        j := j + 1;
        if j == queueSize {
          j := 0;
        }
        if j == back {
          break;
        }
      }
      assert bigger[..i] == full;
      queue := bigger;
      queueSize := size;
      front := 0;
      back := i;
      RingWhole(queue[..], i, full);
    }

    // push_front (Workflow.cc:68-80)
    method PushFront(task: SubTask)
      requires Valid()
      modifies this`queue, this`queueSize, this`front, this`back, queue, task
      ensures Valid() && Tasks() == [task] + old(Tasks()) && task.pointer == this
      ensures queue == old(queue) || fresh(queue)
    {
      ghost var tasks, a, n := Tasks(), queue[..], Count();
      front := front - 1;
      if front == -1 {
        front := queueSize - 1;
      }
      task.pointer := this;
      queue[front] := task;
      ghost var longer := Ring(queue[..], front, n + 1);
      assert longer == [task] + tasks;
      if front == back {
        FullIsNotNull(queue[..], front, longer);
        ExpandQueue();
      }
    }

    // push_back (Workflow.cc:82-94)
    method PushBack(task: SubTask)
      requires Valid()
      modifies this`queue, this`queueSize, this`front, this`back, queue, task
      ensures Valid() && Tasks() == old(Tasks()) + [task] && task.pointer == this
      ensures queue == old(queue) || fresh(queue)
    {
      ghost var tasks, n := Tasks(), Count();
      task.pointer := this;
      queue[back] := task;
      back := back + 1;
      if back == queueSize {
        back := 0;
      }
      ghost var longer := Ring(queue[..], front, n + 1);
      assert longer == tasks + [task];
      if front == back {
        FullIsNotNull(queue[..], front, longer);
        ExpandQueue();
      }
    }

    // pop_task (Workflow.cc:113-143)
    method PopTask() returns (task: SubTask?)
      requires Valid()
      modifies this`front, this`last, this`finished, this`callbacks
      ensures Valid()
      ensures var tasks := old(Tasks());
        if tasks != [] then task == tasks[0] && Tasks() == tasks[1..] && last == old(last)
        else task == old(last) && Tasks() == [] && last == null
      ensures task == null <==> old(Tasks()) == [] && old(last) == null
      ensures if task == null then finished && callbacks == old(callbacks) + 1
              else finished == old(finished) && callbacks == old(callbacks)
    {
      ghost var tasks, n := Tasks(), Count();
      if front != back {
        task := queue[front];
        assert task == tasks[0];
        front := front + 1;
        if front == queueSize {
          front := 0;
        }
        assert Ring(queue[..], front, n - 1) == tasks[1..];
      } else {
        task := last;
        last := null;
      }
      if task == null {
        finished := true;
        callbacks := callbacks + 1;
      }
    }

    // pop (Workflow.cc:96-111): a canceled series gives up all the tasks it still has, the last
    // one included, and its callback runs nevertheless.
    method Pop() returns (task: SubTask?, deleted: seq<SubTask?>)
      requires Valid()
      modifies this`front, this`last, this`finished, this`callbacks
      ensures Valid()
      ensures !canceled ==> deleted == [] && task == Next(old(Tasks()), old(last))
      ensures !canceled && old(Tasks()) != [] ==> Tasks() == old(Tasks())[1..] && last == old(last)
      ensures !canceled && old(Tasks()) == [] ==> Tasks() == [] && last == null
      ensures canceled ==> task == null && Tasks() == [] && last == null
      ensures canceled ==> deleted == old(Tasks()) + if old(last) == null then [] else [old(last)]
      ensures if task == null then finished && callbacks == old(callbacks) + 1
              else finished == old(finished) && callbacks == old(callbacks)
    {
      hide Ring, Valid, Tasks;
      var wasCanceled := canceled;
      task := PopTask();
      deleted := [];
      if !wasCanceled {
        return;
      }
      ghost var all := old(Tasks()) + if old(last) == null then [] else [old(last)];
      while task != null
        invariant Valid() && all == deleted + (if task == null then [] else [task]) + Tasks() + if last == null then [] else [last]
        invariant task == null ==> Tasks() == [] && last == null && finished && callbacks == old(callbacks) + 1
        invariant task != null ==> finished == old(finished) && callbacks == old(callbacks)
        decreases task != null, |Tasks()|, last != null
      {
        deleted := deleted + [task];
        task := PopTask();
      }
    }
  }

  ghost function Next(tasks: seq<SubTask?>, last: SubTask?): SubTask? {
    if tasks != [] then tasks[0] else last
  }

  // A full ring shows every slot.
  lemma FullIsNotNull<T>(a: seq<T>, front: nat, ring: seq<T>)
    requires front < |a| && ring == Ring(a, front, |a|)
    ensures forall k :: 0 <= k < |a| ==> a[k] in ring
  {
    forall k | 0 <= k < |a| ensures a[k] in ring {
      assert a[k] == ring[if front <= k then k - front else k + |a| - front];
    }
  }
}
