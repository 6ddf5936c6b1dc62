/**
 The coordinator and the workers fit together: what the coordinator does on a call is a step
 of the cluster, and what it replies is what the worker then runs.
 */
module Requests {
  import opened History
  import opened Tasks
  import opened Coordinator
  import C = Cluster

  /** What a worker does with a reply: run the task it names on the data it carries, or nothing. */
  function StartOn(reply: Reply): (x: C.Activity)
  {
    match reply
    case MapReply(id, file, content, buckets) => C.MapRun(id, file, content, buckets, 0)
    case ReduceReply(id, bucket, outputs) => C.ReduceRun(id, bucket, outputs.Keys, outputs, [], [])
    case WaitReply => C.Idle
    case ErrorReply => C.Idle
  }

  /** A file is read as the job has it, or it cannot be read. */
  ghost predicate ReadsJob(p: C.Job, read: string -> Option<string>)
  {
    forall file :: read(file) == None || read(file) == Some(p.content(file))
  }

  /**
   A request is a step of the cluster: the tables become those of the step, and the worker
   starts on exactly what the reply says. A reply for a reduce task that is encoded at once
   is the one the cluster encodes.
   */
  method Request(c: Coordinator, now: int, mark: int, read: string -> Option<string>,
                 ghost p: C.Job, ghost s: C.State, ghost w: C.WorkerID)
    returns (reply: Reply, ghost step: C.Step)
    requires now <= mark && p.n > 0 && ReadsJob(p, read)
    requires c.View() == s.tables && C.ActivityOf(s, w).Idle?
    modifies c
    ensures step.Request? && step.w == w && C.Enabled(p, s, step)
    ensures c.View() == C.Apply(p, s, step).tables
    ensures !reply.ReduceReply? ==> C.ActivityOf(C.Apply(p, s, step), w) == StartOn(reply)
    ensures reply.ReduceReply? ==>
      && C.Enabled(p, C.Apply(p, s, step), C.Encode(w))
      && C.ActivityOf(C.Apply(p, C.Apply(p, s, step), C.Encode(w)), w) == StartOn(reply)
  {
    ghost var e;
    reply, e := c.RequestTask(now, mark, read);
    step := C.Request(w, e, !reply.ErrorReply?);
    hide NoMapToAssign; hide NoReduceToAssign; hide MapsDone; hide BooksKept;
    if reply.MapReply? {
      assert read(reply.file) == Some(p.content(reply.file));
    }
  }

  /** A report that arrives is a step of the cluster. */
  method Report(c: Coordinator, e: Event, ghost p: C.Job, ghost s: C.State)
    requires p.n > 0 && (e.Complete? || e.Missing?) && e in s.net && c.View() == s.tables
    modifies c
    ensures C.Enabled(p, s, C.Deliver(e)) && c.View() == C.Apply(p, s, C.Deliver(e)).tables
  {
    hide BooksKept;
    if e.Complete? {
      c.ReportTaskCompletion(e.kind, e.id, e.address);
    } else {
      c.ReportMissingMapOutputs(e.id);
    }
  }
}
