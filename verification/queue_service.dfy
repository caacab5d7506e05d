/**
 * The module-level FIFO of pending tasks (src/services/queueService.js).
 * `addTask` pushes whatever it is given, so a slot may hold JavaScript `null`.
 */
module QueueService {
  import opened Wrappers
  import opened Tasks

  /** One queue slot; `None` is a `null` that `addTask` accepted. */
  type Entry = Option<Task>

  /** What `findTask` does: returns a task, returns `null`, or throws on a `null` slot. */
  datatype Lookup = Found(task: Task) | NotFound | Threw

  /** No slot holds `null`. */
  predicate NoNull(q: seq<Entry>) {
    forall i :: 0 <= i < |q| ==> q[i].Some?
  }

  /** Every slot before `i` holds a task whose URL differs from `url`. */
  predicate ClearBefore(q: seq<Entry>, url: string, i: int)
    requires 0 <= i <= |q|
  {
    forall j :: 0 <= j < i ==> q[j].Some? && q[j].value.url != url
  }

  /** The URLs of the tasks in the queue. */
  function QueueUrls(q: seq<Entry>): set<string> {
    set i | 0 <= i < |q| && q[i].Some? :: q[i].value.url
  }

  /**
   * The linear scan of `findTask`: the first slot whose task has the URL, or a throw
   * when a `null` slot (whose `getUrl` does not exist) is reached first.
   */
  function Find(q: seq<Entry>, url: string): (r: Lookup)
    ensures r.Found? ==> r.task.url == url && Some(r.task) in q
    ensures r == NotFound ==> forall i :: 0 <= i < |q| ==> q[i].Some? && q[i].value.url != url
    ensures r == Threw ==> None in q
  {
    if q == [] then NotFound
    else match q[0]
      case None => Threw
      case Some(t) => if t.url == url then Found(t) else Find(q[1..], url)
  }

  /** `Find` returns the FIRST task with the URL, reports absence only after a clean scan, and throws only on a `null` met first. */
  lemma {:induction false} FindCharacterized(q: seq<Entry>, url: string)
    ensures Find(q, url) == NotFound <==> ClearBefore(q, url, |q|)
    ensures Find(q, url).Found? ==>
      exists i :: 0 <= i < |q| && q[i] == Some(Find(q, url).task) && Find(q, url).task.url == url && ClearBefore(q, url, i)
    ensures Find(q, url) == Threw <==> exists i :: 0 <= i < |q| && q[i].None? && ClearBefore(q, url, i)
  {
    if q != [] && q[0].Some? && q[0].value.url != url {
      var r := q[1..];
      FindCharacterized(r, url);
      assert ClearBefore(q, url, |q|) <==> ClearBefore(r, url, |r|) by {
        if ClearBefore(r, url, |r|) {
          forall j | 0 <= j < |q| ensures q[j].Some? && q[j].value.url != url {
            if j > 0 { assert q[j] == r[j - 1]; }
          }
        }
      }
      if Find(q, url).Found? {
        var i :| 0 <= i < |r| && r[i] == Some(Find(r, url).task) && Find(r, url).task.url == url && ClearBefore(r, url, i);
        assert q[i + 1] == r[i];
        assert ClearBefore(q, url, i + 1) by {
          forall j | 0 <= j < i + 1 ensures q[j].Some? && q[j].value.url != url {
            if j > 0 { assert q[j] == r[j - 1]; }
          }
        }
      }
      if exists i :: 0 <= i < |q| && q[i].None? && ClearBefore(q, url, i) {
        var i :| 0 <= i < |q| && q[i].None? && ClearBefore(q, url, i);
        assert i > 0;
        assert r[i - 1].None? && ClearBefore(r, url, i - 1) by {
          forall j | 0 <= j < i - 1 ensures r[j].Some? && r[j].value.url != url {
            assert r[j] == q[j + 1];
          }
        }
      }
      if Find(q, url) == Threw {
        var i :| 0 <= i < |r| && r[i].None? && ClearBefore(r, url, i);
        assert q[i + 1] == r[i];
        assert ClearBefore(q, url, i + 1) by {
          forall j | 0 <= j < i + 1 ensures q[j].Some? && q[j].value.url != url {
            if j > 0 { assert q[j] == r[j - 1]; }
          }
        }
      }
    } else if q != [] && q[0].Some? {
      assert q[0] == Some(Find(q, url).task) && ClearBefore(q, url, 0);
    } else if q != [] {
      assert ClearBefore(q, url, 0);
    }
  }

  /** On a queue without `null` slots, `findTask` reports absence exactly when no queued task has the URL. */
  lemma FindWithoutNull(q: seq<Entry>, url: string)
    requires NoNull(q)
    ensures Find(q, url) != Threw
    ensures Find(q, url) == NotFound <==> url !in QueueUrls(q)
  {
    FindCharacterized(q, url);
    if url in QueueUrls(q) {
      var i :| 0 <= i < |q| && q[i].Some? && q[i].value.url == url;
      assert !ClearBefore(q, url, |q|);
    }
  }

  /**
   * The number of tasks `getTasks(amount)` removes: `min(amount, length)`,
   * where a negative amount removes nothing (`splice` clamps its count at 0).
   */
  function TakeCount(amount: int, len: nat): (k: nat)
    ensures k <= len
    ensures amount >= 0 ==> k == (if amount < len then amount else len)
    ensures amount < 0 ==> k == 0
  {
    if len > 0 then
      var a := if len > amount then amount else len;
      if a < 0 then 0 else a
    else 0
  }

  /** The single shared task queue. */
  class TaskQueue {
    var tasks: seq<Entry>

    constructor ()
      ensures tasks == []
    {
      tasks := [];
    }

    /** `addTask`: appends at the back, with no duplicate check. */
    method AddTask(task: Entry)
      modifies this
      ensures tasks == old(tasks) + [task]
      ensures |tasks| == |old(tasks)| + 1
    {
      tasks := tasks + [task];
    }

    /** `getTasks(amount = 1)`: removes and returns the first `min(amount, length)` tasks. */
    method GetTasks(amountOfTasks: int := 1) returns (batch: seq<Entry>)
      modifies this
      ensures batch == old(tasks)[..TakeCount(amountOfTasks, |old(tasks)|)]
      ensures tasks == old(tasks)[TakeCount(amountOfTasks, |old(tasks)|)..]
      ensures batch + tasks == old(tasks)
      ensures old(tasks) == [] ==> batch == [] && tasks == []
    {
      if |tasks| > 0 {
        var amount := if |tasks| > amountOfTasks then amountOfTasks else |tasks|;
        var k := if amount < 0 then 0 else amount;
        batch := tasks[..k];
        tasks := tasks[k..];
      } else {
        batch := [];
      }
    }

    /** `getQueueLength`: the number of pending slots. */
    function GetQueueLength(): (n: nat)
      reads this
      ensures n == |tasks|
    {
      |tasks|
    }

    /** `findTask`: a linear search by URL that changes nothing. */
    method FindTask(task: Task) returns (r: Lookup)
      ensures r == Find(tasks, task.url)
    {
      var i := 0;
      while i < |tasks|
        invariant 0 <= i <= |tasks|
        invariant Find(tasks[i..], task.url) == Find(tasks, task.url)
      {
        assert tasks[i..][1..] == tasks[i + 1..];
        match tasks[i]
        case None =>
          return Threw;
        case Some(t) =>
          if t.url == task.url {
            return Found(t);
          }
        i := i + 1;
      }
      return NotFound;
    }
  }
}
