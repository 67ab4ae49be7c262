/**
 The shared job list of header/actors-framework/executor/policy/work_sharing.hpp as an object updated in
 place, and its agreement with the list inside the executor's machine.
 */
module WorkSharing {
  import opened Executor
  import opened Common

  class JobList {
    var queue: seq<Job>

    constructor ()
      ensures queue == []
    {
      queue := [];
    }

    /** enqueue, and so central_enqueue, external_enqueue, internal_enqueue and resume_job_later: splice a
        one-element list onto the end. */
    method Enqueue(job: Job)
      modifies this
      ensures queue == old(queue) + [job]
    {
      var l := [job];
      queue, l := queue + l, [];
    }

    /** dequeue, once its wait is over. */
    method Dequeue() returns (job: Job)
      requires queue != []
      modifies this
      ensures old(queue) == [job] + queue
    {
      job := queue[0];
      queue := queue[1..];
    }

    /** The local function `next` of foreach_central_resumable. */
    method Next() returns (front: Option<Job>)
      modifies this
      ensures front == if old(queue) == [] then None else Some(old(queue)[0])
      ensures queue == if old(queue) == [] then [] else old(queue)[1..]
    {
      if queue == [] {
        return None;
      }
      front := Some(queue[0]);
      queue := queue[1..];
    }

    /** foreach_central_resumable: f is applied to every job of the list, once and in order, and the list ends
        empty. */
    method ForeachCentral() returns (applied: seq<Job>)
      modifies this
      ensures queue == [] && applied == old(queue)
    {
      applied := [];
      var job := Next();
      while job.Some?
        invariant old(queue) == applied + (if job.Some? then [job.value] + queue else [])
        invariant job.None? ==> queue == []
        decreases |queue|, job.Some?
      {
        applied := applied + [job.value];
        job := Next();
      }
    }
  }

  /** Every step of the executor's machine does to the job list what the operation the source calls in that step
      does to the object: what comes out is what is dispatched or released. */
  method PerformOnList(list: JobList, s: State, a: Action) returns (out: seq<Job>)
    requires Enabled(s, a) && list.queue == s.list
    modifies list
    ensures list.queue == Apply(s, a).list
    ensures out == if a == Join then Releases(s, a) else Dispatches(s, a)
  {
    out := [];
    match a {
      case Execute => list.Enqueue(User(s.next));
      case Dequeue(w) =>
        var job := list.Dequeue();
        out := [job];
      case Finish(w, Resume) => list.Enqueue(s.workers[w].job);
      case Post => list.Enqueue(Shutdown);
      case Join => out := list.ForeachCentral();
      case _ =>
    }
  }
}
