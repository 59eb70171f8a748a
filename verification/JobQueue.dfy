/** A closable job queue. Whether a try-lock succeeds is decided outside, so it is a parameter. */
module JobQueue {
  import opened Downloads

  /** A submitted std::function: its identity, and whether it holds a callable at all. */
  datatype Job = Job(id: nat, callable: bool)

  class JobQueue {
    var jobQueue: seq<Job>
    var done: bool

    constructor ()
      ensures jobQueue == [] && !done
    {
      jobQueue, done := [], false;
    }

    method TryPop(locked: bool) returns (job: Option<Job>)
      modifies this`jobQueue
      ensures !locked || old(jobQueue) == [] ==> job == None && jobQueue == old(jobQueue)
      ensures locked && old(jobQueue) != [] ==> job.Some? && [job.value] + jobQueue == old(jobQueue)
    {
      if !locked || jobQueue == [] {
        return None;
      }
      job := Some(jobQueue[0]);
      jobQueue := jobQueue[1..];
    }

    method TryPush(locked: bool, job: Job) returns (pushed: bool)
      modifies this`jobQueue
      ensures pushed == locked
      ensures jobQueue == if locked then old(jobQueue) + [job] else old(jobQueue)
    {
      if locked {
        jobQueue := jobQueue + [job];
      }
      pushed := locked;
    }

    method Done()
      modifies this`done
      ensures done
    {
      done := true;
    }

    /** The part of pop after its wait, which ends only with a job or with the queue closed. */
    method Pop() returns (job: Option<Job>)
      requires jobQueue != [] || done
      modifies this`jobQueue
      ensures job.None? <==> old(jobQueue) == []
      ensures job.None? ==> jobQueue == [] && done
      ensures job.Some? ==> [job.value] + jobQueue == old(jobQueue)
    {
      if jobQueue == [] {
        return None;
      }
      job := Some(jobQueue[0]);
      jobQueue := jobQueue[1..];
    }

    method Push(job: Job)
      modifies this`jobQueue
      ensures jobQueue == old(jobQueue) + [job]
    {
      jobQueue := jobQueue + [job];
    }
  }
}
