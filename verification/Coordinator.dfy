/** The coordinator as the code has it: tables updated in place under a lock. */
module Coordinator {
  import opened History
  import opened Tasks

  datatype Reply =
    | MapReply(id: TaskID, file: string, content: string, buckets: nat)
    | ReduceReply(id: TaskID, bucket: nat, outputs: map<TaskID, Address>)
    | WaitReply
    | ErrorReply

  method MakeMapTasks(files: seq<string>, nReduceTasks: nat) returns (maps: map<TaskID, MapTask>)
    ensures maps == Initial(files, nReduceTasks).maps
  {
    maps := map[];
    var globalID := 0;
    for i := 0 to |files|
      invariant globalID == i
      invariant forall id: TaskID :: id in maps <==> 0 < id <= i
      invariant forall id | id in maps :: maps[id] == MapTask(IDLE, files[id - 1], nReduceTasks)
    {
      globalID := globalID + 1;
      maps := maps[globalID := MapTask(IDLE, files[i], nReduceTasks)];
    }
    hide IdsAfter;
    assert maps.Keys == IdsAfter(0, |files|);
  }

  method MakeReduceTasks(ghost files: seq<string>, nReduceTasks: nat, firstID: nat) returns (reduces: map<TaskID, ReduceTask>)
    requires firstID == |files|
    ensures reduces == Initial(files, nReduceTasks).reduces
  {
    reduces := map[];
    var globalID := firstID;
    for bucket := 0 to nReduceTasks
      invariant globalID == firstID + bucket
      invariant forall id: TaskID :: id in reduces <==> firstID < id <= firstID + bucket
      invariant forall id | id in reduces :: reduces[id] == ReduceTask(IDLE, id - firstID - 1, map[])
    {
      globalID := globalID + 1;
      reduces := reduces[globalID := ReduceTask(IDLE, bucket, map[])];
    }
    hide IdsAfter;
    assert reduces.Keys == IdsAfter(firstID, nReduceTasks);
  }

  class Coordinator {
    var mapTasks: map<TaskID, MapTask>
    var reduceTasks: map<TaskID, ReduceTask>

    function View(): (s: Tables)
      reads this
    {
      Tables(mapTasks, reduceTasks)
    }

    constructor (files: seq<string>, nReduceTasks: nat)
      ensures View() == Initial(files, nReduceTasks)
    {
      var maps := MakeMapTasks(files, nReduceTasks);
      var reduces := MakeReduceTasks(files, nReduceTasks, |files|);
      mapTasks, reduceTasks := maps, reduces;
    }

    method AllMapTasksDone() returns (r: bool)
      ensures r <==> MapsDone(View())
    {
      var rest := mapTasks.Keys;
      while rest != {}
        invariant rest <= mapTasks.Keys
        invariant forall id | id in mapTasks.Keys - rest :: mapTasks[id].task.state == Finished
        decreases rest
      {
        var id :| id in rest;
        if mapTasks[id].task.state != Finished {
          return false;
        }
        rest := rest - {id};
      }
      return true;
    }

    method AllReduceTasksDone() returns (r: bool)
      ensures r <==> ReducesDone(View())
    {
      var rest := reduceTasks.Keys;
      while rest != {}
        invariant rest <= reduceTasks.Keys
        invariant forall id | id in reduceTasks.Keys - rest :: reduceTasks[id].task.state == Finished
        decreases rest
      {
        var id :| id in rest;
        if reduceTasks[id].task.state != Finished {
          return false;
        }
        rest := rest - {id};
      }
      return true;
    }

    method Done() returns (r: bool)
      ensures r <==> JobDone(View())
    {
      r := AllMapTasksDone();
      if r {
        r := AllReduceTasksDone();
      }
    }

    /** Any map task that should be assigned, in whatever order the table is walked. */
    method PickMapTask(now: int) returns (r: Option<TaskID>)
      ensures r.Some? ==> r.value in mapTasks && ShouldAssign(mapTasks[r.value].task, now)
      ensures r.None? ==> NoMapToAssign(View(), now)
    {
      var rest := mapTasks.Keys;
      while rest != {}
        invariant rest <= mapTasks.Keys
        invariant forall id | id in mapTasks.Keys - rest :: !ShouldAssign(mapTasks[id].task, now)
        decreases rest
      {
        var id :| id in rest;
        if ShouldAssign(mapTasks[id].task, now) {
          return Some(id);
        }
        rest := rest - {id};
      }
      return None;
    }

    method PickReduceTask(now: int) returns (r: Option<TaskID>)
      ensures r.Some? ==> r.value in reduceTasks && ShouldAssign(reduceTasks[r.value].task, now)
      ensures r.None? ==> NoReduceToAssign(View(), now)
    {
      var rest := reduceTasks.Keys;
      while rest != {}
        invariant rest <= reduceTasks.Keys
        invariant forall id | id in reduceTasks.Keys - rest :: !ShouldAssign(reduceTasks[id].task, now)
        decreases rest
      {
        var id :| id in rest;
        if ShouldAssign(reduceTasks[id].task, now) {
          return Some(id);
        }
        rest := rest - {id};
      }
      return None;
    }

    /**
     Hands out a task. The task is stamped before its file is read, so a file that cannot
     be read leaves the task running until its lease expires.
     */
    method HandOut(now: int, mark: int, read: string -> Option<string>) returns (reply: Reply, ghost e: Event)
      requires now <= mark
      modifies this
      ensures e.GiveMap? || e.GiveReduce? || e.GiveWait?
      ensures e.now == now && e.mark == mark
      ensures Enabled(old(View()), e) && View() == Apply(old(View()), e)
      ensures reply.MapReply? ==>
        && e.GiveMap? && reply.id == e.id && reply.id in old(mapTasks)
        && reply.file == old(mapTasks)[reply.id].file && read(reply.file) == Some(reply.content)
        && reply.buckets == old(mapTasks)[reply.id].buckets
      ensures reply.ReduceReply? ==>
        && e.GiveReduce? && reply.id == e.id && reply.id in old(reduceTasks)
        && reply.bucket == old(reduceTasks)[reply.id].bucket && reply.outputs == old(reduceTasks)[reply.id].outputs
      ensures reply.ErrorReply? <==> e.GiveMap? && e.id in old(mapTasks) && read(old(mapTasks)[e.id].file).None?
      ensures reply.WaitReply? <==> e.GiveWait?
    {
      var picked := PickMapTask(now);
      if picked.Some? {
        var id := picked.value;
        e := GiveMap(id, now, mark);
        var t := mapTasks[id];
        mapTasks := mapTasks[id := t.(task := MarkRunning(t.task, mark))];
        match read(t.file)
        case None =>
          return ErrorReply, e;
        case Some(content) =>
          return MapReply(id, t.file, content, t.buckets), e;
      }
      var mapsDone := AllMapTasksDone();
      if !mapsDone {
        return WaitReply, GiveWait(now, mark);
      }
      picked := PickReduceTask(now);
      if picked.Some? {
        var id := picked.value;
        var t := reduceTasks[id];
        reduceTasks := reduceTasks[id := t.(task := MarkRunning(t.task, mark))];
        return ReduceReply(id, t.bucket, t.outputs), GiveReduce(id, now, mark);
      }
      return WaitReply, GiveWait(now, mark);
    }

    /**
     A map reply carries the name, the contents and the number of buckets of a map task that
     was unassigned or timed out; a reduce reply the bucket of such a reduce task, when all
     map tasks are finished, and its addresses, one for each map task; an error says that the
     file of such a map task cannot be read; wait says that there is no such task.
     */
    method RequestTask(now: int, mark: int, read: string -> Option<string>) returns (reply: Reply, ghost e: Event)
      requires now <= mark
      modifies this
      ensures e.GiveMap? || e.GiveReduce? || e.GiveWait?
      ensures e.now == now && e.mark == mark
      ensures Enabled(old(View()), e) && View() == Apply(old(View()), e)
      ensures reply.MapReply? ==>
        && e.GiveMap? && reply.id == e.id && reply.id in old(mapTasks)
        && reply.file == old(mapTasks)[reply.id].file && read(reply.file) == Some(reply.content)
        && reply.buckets == old(mapTasks)[reply.id].buckets
      ensures reply.ReduceReply? ==>
        && e.GiveReduce? && reply.id == e.id && reply.id in old(reduceTasks)
        && reply.bucket == old(reduceTasks)[reply.id].bucket && reply.outputs == old(reduceTasks)[reply.id].outputs
      ensures reply.ErrorReply? <==> e.GiveMap? && e.id in old(mapTasks) && read(old(mapTasks)[e.id].file).None?
      ensures reply.WaitReply? <==> e.GiveWait?
      ensures reply.MapReply? ==> ShouldAssign(old(mapTasks)[reply.id].task, now)
      ensures reply.ReduceReply? ==> MapsDone(old(View())) && ShouldAssign(old(reduceTasks)[reply.id].task, now)
      ensures reply.WaitReply? <==> NoMapToAssign(old(View()), now) && (MapsDone(old(View())) ==> NoReduceToAssign(old(View()), now))
      ensures old(BooksKept(View())) ==> BooksKept(View()) && (reply.ReduceReply? ==> reply.outputs.Keys == mapTasks.Keys)
    {
      reply, e := HandOut(now, mark, read);
      ghost var before := old(View());
      if BooksKept(before) {
        BooksStay(before, e);
        if e.GiveReduce? { HandOutComplete(before, e); }
      }
    }

    /** Tells the reduce tasks, one after the other, where the outputs of a map task are. */
    method RecordOutput(id: TaskID, workerAddress: Address)
      modifies this`reduceTasks
      ensures reduceTasks == AddOutput(old(reduceTasks), id, workerAddress)
    {
      var rest := reduceTasks.Keys;
      while rest != {}
        invariant rest <= reduceTasks.Keys == old(reduceTasks).Keys
        invariant forall k | k in reduceTasks ::
          reduceTasks[k] == if k in rest then old(reduceTasks)[k] else AddOutput(old(reduceTasks), id, workerAddress)[k]
        decreases rest
      {
        var k :| k in rest;
        var t := reduceTasks[k];
        reduceTasks := reduceTasks[k := t.(outputs := t.outputs[id := workerAddress])];
        rest := rest - {k};
      }
    }

    /** Takes the address of a map task's outputs from the reduce tasks, one after the other. */
    method ForgetOutput(id: TaskID)
      modifies this`reduceTasks
      ensures reduceTasks == DropOutput(old(reduceTasks), id)
    {
      var rest := reduceTasks.Keys;
      while rest != {}
        invariant rest <= reduceTasks.Keys == old(reduceTasks).Keys
        invariant forall k | k in reduceTasks ::
          reduceTasks[k] == if k in rest then old(reduceTasks)[k] else DropOutput(old(reduceTasks), id)[k]
        decreases rest
      {
        var k :| k in rest;
        var t := reduceTasks[k];
        reduceTasks := reduceTasks[k := t.(outputs := t.outputs - {id})];
        rest := rest - {k};
      }
    }

    method ReportTaskCompletion(kind: Kind, id: TaskID, workerAddress: Address)
      modifies this
      ensures View() == Apply(old(View()), Complete(kind, id, workerAddress))
      ensures old(BooksKept(View())) ==> BooksKept(View())
    {
      if BooksKept(View()) { BooksStay(View(), Complete(kind, id, workerAddress)); }
      hide BooksKept;
      match kind
      case Mapping =>
        if id in mapTasks && mapTasks[id].task.state != Finished {
          var t := mapTasks[id];
          mapTasks := mapTasks[id := t.(task := t.task.(state := Finished))];
          RecordOutput(id, workerAddress);
        }
      case Reducing =>
        if id in reduceTasks {
          var t := reduceTasks[id];
          reduceTasks := reduceTasks[id := t.(task := t.task.(state := Finished))];
        }
    }

    method ReportMissingMapOutputs(id: TaskID)
      modifies this
      ensures View() == Apply(old(View()), Missing(id))
      ensures old(BooksKept(View())) ==> BooksKept(View())
    {
      if BooksKept(View()) { BooksStay(View(), Missing(id)); }
      hide BooksKept;
      if id !in mapTasks {
        return;
      }
      if mapTasks[id].task.state == Finished {
        var t := mapTasks[id];
        mapTasks := mapTasks[id := t.(task := Task(Unassigned, ZERO_TIME))];
        ForgetOutput(id);
      }
    }
  }
}
