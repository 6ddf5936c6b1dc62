/**
 A whole MapReduce job: a coordinator, workers that ask for tasks, run them, fetch each
 other's map outputs and report, and everything that can go wrong in between: expired
 leases, tasks run twice, reports that arrive late or never or again, lost outputs and
 crashed workers. Runs are interleavings of the steps below.
 */
module Cluster {
  import opened History
  import opened Sorting
  import opened Grouping
  import S = Sequential
  import T = Tasks

  type TaskID = T.TaskID
  type Address = T.Address
  type WorkerID = nat   // one worker process
  type Directory = nat  // where a worker runs and keeps its bucket files

  /**
   The job: input file names and contents, number of buckets, application and hash, and
   where the workers run. Workers may share an address, a directory or both.
   */
  datatype Job = Job(
    names: seq<string>,
    content: string -> string,
    n: nat,
    mapf: S.Mapper,
    reducef: Reducer,
    ihash: Hash,
    address: WorkerID -> Address,
    home: WorkerID -> Directory)

  ghost predicate ValidJob(p: Job)
  {
    p.n > 0 && OrderInsensitive(p.reducef)
  }

  /** What a worker is doing. */
  datatype Activity =
    | Idle
    | Awaiting(id: TaskID)  // handed a reduce task, the reply not encoded yet
    | MapRun(id: TaskID, key: string, content: string, buckets: nat, next: nat)
    | ReduceRun(id: TaskID, bucket: nat, given: set<TaskID>,  // the map tasks that the reply has an address for
                left: map<TaskID, Address>, fetched: seq<TaskID>, pairs: seq<KeyValue>)

  /** The bucket files of a directory: absent, or complete. */
  type Store = map<(TaskID, nat), seq<KeyValue>>

  datatype State = State(
    tables: T.Tables,
    running: map<WorkerID, Activity>,
    stores: map<Directory, Store>,
    net: set<T.Event>,
    outputs: map<nat, seq<KeyValue>>)

  function ActivityOf(s: State, w: WorkerID): (r: Activity)
  {
    if w in s.running then s.running[w] else Idle
  }

  function StoreOf(s: State, d: Directory): (r: Store)
  {
    if d in s.stores then s.stores[d] else map[]
  }

  ghost function Start(p: Job): (s: State)
  {
    State(T.Initial(p.names, p.n), map[], map[], {}, map[])
  }

  datatype Step =
    | Request(w: WorkerID, e: T.Event, readable: bool)  // ask for a task; an unreadable file gives an error
    | Encode(w: WorkerID)                               // the reply takes the address map as it is now
    | WriteBucket(w: WorkerID)
    | ReportMap(w: WorkerID)
    | Fetch(w: WorkerID, id: TaskID, server: WorkerID)
    | FetchFails(w: WorkerID, id: TaskID)               // report the outputs missing and give up
    | ReportReduce(w: WorkerID, out: seq<KeyValue>)     // reduce, write the result, report
    | Deliver(e: T.Event)                               // a report arrives, perhaps not for the first time
    | Crash(w: WorkerID, kept: set<(TaskID, nat)>)      // the worker stops; some files may survive

  /** Worker w asks address a: itself if that is its own address, else any worker that has it. */
  predicate Serves(p: Job, server: WorkerID, a: Address, w: WorkerID)
  {
    p.address(server) == a && (p.address(w) == a ==> server == w)
  }

  ghost predicate Enabled(p: Job, s: State, step: Step)
  {
    match step
    case Request(w, e, _) => ActivityOf(s, w).Idle? && T.ReadsClock(e) && T.Enabled(s.tables, e)
    case Encode(w) => ActivityOf(s, w).Awaiting? && ActivityOf(s, w).id in s.tables.reduces
    case WriteBucket(w) => ActivityOf(s, w).MapRun? && ActivityOf(s, w).next < ActivityOf(s, w).buckets
    case ReportMap(w) => ActivityOf(s, w).MapRun? && ActivityOf(s, w).next >= ActivityOf(s, w).buckets
    case Fetch(w, id, server) =>
      var x := ActivityOf(s, w);
      x.ReduceRun? && id in x.left && Serves(p, server, x.left[id], w) && (id, x.bucket) in StoreOf(s, p.home(server))
    case FetchFails(w, id) => ActivityOf(s, w).ReduceRun? && id in ActivityOf(s, w).left
    case ReportReduce(w, out) =>
      var x := ActivityOf(s, w);
      x.ReduceRun? && x.left == map[] && IsTable(out, Reduced(p.reducef, x.pairs))
    case Deliver(e) => e in s.net && T.Enabled(s.tables, e)
    case Crash(_, _) => true
  }

  /** What a worker starts on after a request. */
  function Accept(p: Job, s: State, e: T.Event, readable: bool): (r: Activity)
    requires T.Enabled(s.tables, e)
  {
    match e
    case GiveMap(id, _, _) =>
      var t := s.tables.maps[id];
      if readable then MapRun(id, t.file, p.content(t.file), t.buckets, 0) else Idle
    case GiveReduce(id, _, _) => Awaiting(id)
    case _ => Idle
  }

  /** The reduce task of an encoded reply. */
  function Encoded(s: State, id: TaskID): (r: Activity)
    requires id in s.tables.reduces
  {
    var t := s.tables.reduces[id];
    ReduceRun(id, t.bucket, t.outputs.Keys, t.outputs, [], [])
  }

  ghost function Apply(p: Job, s: State, step: Step): (s': State)
    requires p.n > 0 && Enabled(p, s, step)
  {
    match step
    case Request(w, e, readable) =>
      s.(tables := T.Apply(s.tables, e), running := s.running[w := Accept(p, s, e, readable)])
    case Encode(w) => s.(running := s.running[w := Encoded(s, ActivityOf(s, w).id)])
    case WriteBucket(w) =>
      var x := ActivityOf(s, w);
      var file := InBucket(p.ihash, x.buckets, p.mapf(x.key, x.content), x.next);
      s.(running := s.running[w := x.(next := x.next + 1)],
         stores := s.stores[p.home(w) := StoreOf(s, p.home(w))[(x.id, x.next) := file]])
    case ReportMap(w) =>
      s.(running := s.running[w := Idle], net := s.net + {T.Complete(T.Mapping, ActivityOf(s, w).id, p.address(w))})
    case Fetch(w, id, server) =>
      var x := ActivityOf(s, w);
      var more := StoreOf(s, p.home(server))[(id, x.bucket)];
      s.(running := s.running[w := x.(left := x.left - {id}, fetched := x.fetched + [id], pairs := x.pairs + more)])
    case FetchFails(w, id) =>
      s.(running := s.running[w := Idle], net := s.net + {T.Missing(id)})
    case ReportReduce(w, out) =>
      var x := ActivityOf(s, w);
      s.(running := s.running[w := Idle],
         outputs := s.outputs[x.bucket := out],
         net := s.net + {T.Complete(T.Reducing, x.id, p.address(w))})
    case Deliver(e) => s.(tables := T.Apply(s.tables, e))
    case Crash(w, kept) =>
      var store := StoreOf(s, p.home(w));
      s.(running := s.running[w := Idle],
         stores := s.stores[p.home(w) := map k | k in store && k in kept :: store[k]])
  }

  // ---- what the pieces should hold ----------------------------------------------------

  ghost predicate IsMapId(p: Job, id: TaskID)
  {
    0 < id <= |p.names|
  }

  ghost predicate IsReduceId(p: Job, id: TaskID)
  {
    |p.names| < id <= |p.names| + p.n
  }

  function MapOutput(p: Job, id: TaskID): (kvs: seq<KeyValue>)
    requires 0 < id <= |p.names|
  {
    p.mapf(p.names[id - 1], p.content(p.names[id - 1]))
  }

  /** The pairs of bucket b that map task id produces, whoever runs it. */
  function Piece(p: Job, id: TaskID, b: nat): (kvs: seq<KeyValue>)
    requires p.n > 0 && 0 < id <= |p.names|
  {
    InBucket(p.ihash, p.n, MapOutput(p, id), b)
  }

  function Files(p: Job): (files: seq<S.File>)
  {
    seq(|p.names|, i requires 0 <= i < |p.names| => S.File(p.names[i], p.content(p.names[i])))
  }

  /** All intermediate pairs, as the sequential program gathers them. */
  function AllPairs(p: Job): (kvs: seq<KeyValue>)
  {
    S.Gather(p.mapf, Files(p))
  }

  /** The sequential result restricted to the keys of bucket b. */
  ghost function BucketResult(p: Job, b: nat): (m: map<string, string>)
    requires p.n > 0
  {
    Reduced(p.reducef, InBucket(p.ihash, p.n, AllPairs(p), b))
  }

  // ---- the pieces of all map tasks, fetched in any order, are the bucket's pairs ---------

  ghost predicate MapIds(p: Job, ids: seq<TaskID>)
  {
    forall i | 0 <= i < |ids| :: IsMapId(p, ids[i])
  }

  function Pieces(p: Job, ids: seq<TaskID>, b: nat): (kvs: seq<KeyValue>)
    requires p.n > 0 && forall i | 0 <= i < |ids| :: 0 < ids[i] <= |p.names|
  {
    if ids == [] then [] else Pieces(p, ids[..|ids| - 1], b) + Piece(p, ids[|ids| - 1], b)
  }

  /** The map tasks among the first m that are in given, in order. */
  function InOrder(given: set<TaskID>, m: nat): (ids: seq<TaskID>)
    ensures forall id: TaskID :: id in ids <==> 0 < id <= m && id in given
    ensures Distinct(ids)
  {
    if m == 0 then [] else InOrder(given, m - 1) + (if m in given then [m] else [])
  }

  /** What the first m input files give, leaving out those whose map task is not in given. */
  function PairsOf(p: Job, given: set<TaskID>, m: nat): (kvs: seq<KeyValue>)
    requires m <= |p.names|
  {
    if m == 0 then [] else PairsOf(p, given, m - 1) + (if m in given then MapOutput(p, m) else [])
  }

  /** The sequential result of bucket b over those input files alone. */
  ghost function ResultOf(p: Job, given: set<TaskID>, b: nat): (m: map<string, string>)
    requires p.n > 0
  {
    Reduced(p.reducef, InBucket(p.ihash, p.n, PairsOf(p, given, |p.names|), b))
  }

  lemma {:induction false} PairsOfAll(p: Job, given: set<TaskID>, m: nat)
    requires m <= |p.names| && forall id: TaskID | IsMapId(p, id) :: id in given
    ensures PairsOf(p, given, m) == S.Gather(p.mapf, Files(p)[..m])
  {
    if m > 0 {
      PairsOfAll(p, given, m - 1);
      var files := Files(p)[..m];
      assert files[..m - 1] == Files(p)[..m - 1];
      assert IsMapId(p, m);
    }
  }

  /** With all map tasks it is the bucket's part of the sequential result. */
  lemma ResultOfAll(p: Job, given: set<TaskID>, b: nat)
    requires p.n > 0 && forall id: TaskID | IsMapId(p, id) :: id in given
    ensures ResultOf(p, given, b) == BucketResult(p, b)
  {
    hide Reduced; hide InBucket;
    PairsOfAll(p, given, |p.names|);
    assert Files(p)[..|p.names|] == Files(p);
  }

  lemma {:induction false} PiecesAppend(p: Job, x: seq<TaskID>, y: seq<TaskID>, b: nat)
    requires p.n > 0 && MapIds(p, x) && MapIds(p, y)
    ensures MapIds(p, x + y)
    ensures Pieces(p, x + y, b) == Pieces(p, x, b) + Pieces(p, y, b)
    decreases |y|
  {
    if y == [] {
      assert x + y == x;
    } else {
      var k := |y| - 1;
      PiecesAppend(p, x, y[..k], b);
      assert (x + y)[..|x + y| - 1] == x + y[..k];
    }
  }

  lemma OnePiece(p: Job, id: TaskID, b: nat)
    requires p.n > 0 && IsMapId(p, id)
    ensures Pieces(p, [id], b) == InBucket(p.ihash, p.n, MapOutput(p, id), b)
  {
    hide InBucket;
    assert [id][..0] == [];
  }

  lemma NoneInBucket(ihash: Hash, n: nat, b: nat)
    requires n > 0
    ensures InBucket(ihash, n, [], b) == []
  {
  }

  lemma {:induction false} PiecesInOrder(p: Job, given: set<TaskID>, m: nat, b: nat)
    requires p.n > 0 && m <= |p.names|
    ensures MapIds(p, InOrder(given, m))
    ensures Pieces(p, InOrder(given, m), b) == InBucket(p.ihash, p.n, PairsOf(p, given, m), b)
  {
    hide InBucket; hide MapOutput; hide Piece; hide Distinct;
    if m == 0 {
      NoneInBucket(p.ihash, p.n, b);
    } else {
      PiecesInOrder(p, given, m - 1, b);
      var ids := InOrder(given, m - 1);
      if m in given {
        assert IsMapId(p, m) && MapIds(p, [m]);
        PiecesAppend(p, ids, [m], b);
        OnePiece(p, m, b);
        InBucketAppend(p.ihash, p.n, PairsOf(p, given, m - 1), MapOutput(p, m), b);
      } else {
        assert InOrder(given, m) == ids && PairsOf(p, given, m) == PairsOf(p, given, m - 1);
      }
    }
  }

  lemma PiecesWithout(p: Job, ids: seq<TaskID>, j: nat, b: nat)
    requires p.n > 0 && MapIds(p, ids) && j < |ids|
    ensures MapIds(p, Without(ids, j))
    ensures multiset(Pieces(p, ids, b)) == multiset(Pieces(p, Without(ids, j), b)) + multiset(Piece(p, ids[j], b))
  {
    hide Pieces; hide InBucket; hide MapOutput;
    var (x, y) := (ids[..j], ids[j + 1..]);
    assert ids == x + ([ids[j]] + y);
    assert IsMapId(p, ids[j]) && MapIds(p, [ids[j]]) && MapIds(p, x) && MapIds(p, y);
    PiecesAppend(p, [ids[j]], y, b);
    PiecesAppend(p, x, [ids[j]] + y, b);
    PiecesAppend(p, x, y, b);
    OnePiece(p, ids[j], b);
    assert multiset(Pieces(p, [ids[j]] + y, b)) == multiset(Piece(p, ids[j], b)) + multiset(Pieces(p, y, b));
  }

  /** The order in which map tasks are fetched only rearranges the pairs. */
  lemma {:induction false} PiecesRearranged(p: Job, x: seq<TaskID>, y: seq<TaskID>, b: nat)
    requires p.n > 0 && MapIds(p, x) && MapIds(p, y) && multiset(x) == multiset(y)
    ensures multiset(Pieces(p, x, b)) == multiset(Pieces(p, y, b))
    decreases |x|
  {
    assert |multiset(x)| == |multiset(y)|;
    if x != [] {
      hide Pieces;
      hide Piece;
      var k := |x| - 1;
      assert x[k] in multiset(y);
      var j :| 0 <= j < |y| && y[j] == x[k];
      WithoutCounts(x, k);
      WithoutCounts(y, j);
      PiecesWithout(p, x, k, b);
      PiecesWithout(p, y, j, b);
      PiecesRearranged(p, Without(x, k), Without(y, j), b);
    }
  }

  /** The pieces of the given map tasks, fetched in any order, are the bucket's pairs of their files. */
  lemma AllFetched(p: Job, given: set<TaskID>, fetched: seq<TaskID>, b: nat)
    requires p.n > 0 && Distinct(fetched) && MapIds(p, fetched)
    requires forall id: TaskID :: id in fetched <==> id in given
    ensures multiset(Pieces(p, fetched, b)) == multiset(InBucket(p.ihash, p.n, PairsOf(p, given, |p.names|), b))
  {
    hide Pieces; hide InBucket; hide InOrder;
    var order := InOrder(given, |p.names|);
    forall id: TaskID ensures id in order <==> id in fetched {
      if id in fetched { assert IsMapId(p, id); }
    }
    SameElements(fetched, order);
    PiecesInOrder(p, given, |p.names|, b);
    PiecesRearranged(p, fetched, order, b);
  }

  // ---- the invariant of every run -------------------------------------------------------

  /** The tables describe the job's tasks and keep their books. */
  ghost predicate TablesOk(p: Job, t: T.Tables)
  {
    && (forall id: TaskID :: id in t.maps <==> IsMapId(p, id))
    && (forall id: TaskID :: id in t.reduces <==> IsReduceId(p, id))
    && (forall id | id in t.maps && IsMapId(p, id) :: t.maps[id].file == p.names[id - 1] && t.maps[id].buckets == p.n)
    && (forall id | id in t.reduces :: t.reduces[id].bucket == id - |p.names| - 1)
    && T.BooksKept(t)
  }

  /** Every bucket file holds what its map task produces for that bucket. */
  ghost predicate StoreOk(p: Job, store: Store)
    requires p.n > 0
  {
    forall k | k in store :: IsMapId(p, k.0) && k.1 < p.n && store[k] == Piece(p, k.0, k.1)
  }

  /** A worker runs what it was handed; a reduce has fetched some of the map tasks and has the rest left. */
  ghost predicate ActivityOk(p: Job, x: Activity)
    requires p.n > 0
  {
    match x
    case Idle => true
    case Awaiting(id) => IsReduceId(p, id)
    case MapRun(id, key, content, buckets, next) =>
      IsMapId(p, id) && key == p.names[id - 1] && content == p.content(key) && buckets == p.n && next <= buckets
    case ReduceRun(id, bucket, given, left, fetched, pairs) =>
      && IsReduceId(p, id) && bucket == id - |p.names| - 1
      && Distinct(fetched) && (forall m | m in given :: IsMapId(p, m)) && MapIds(p, fetched)
      && (forall m: TaskID :: m in given <==> m in fetched || m in left)
      && (forall m | m in left :: m !in fetched)
      && pairs == Pieces(p, fetched, bucket)
  }

  ghost predicate OutputOk(p: Job, b: nat, out: seq<KeyValue>)
    requires p.n > 0
  {
    b < p.n && IsTable(out, BucketResult(p, b))
  }

  /** Only reports are under way, and a reduce task is reported only after its output is written. */
  ghost predicate ReportOk(p: Job, outputs: map<nat, seq<KeyValue>>, e: T.Event)
  {
    && (e.Complete? || e.Missing?)
    && (e.Complete? && e.kind == T.Reducing && IsReduceId(p, e.id) ==> e.id - |p.names| - 1 in outputs)
  }

  ghost predicate ActivitiesOk(p: Job, running: map<WorkerID, Activity>)
    requires p.n > 0
  {
    forall a | a in running :: ActivityOk(p, running[a])
  }

  ghost predicate StoresOk(p: Job, stores: map<Directory, Store>)
    requires p.n > 0
  {
    forall a | a in stores :: StoreOk(p, stores[a])
  }

  ghost predicate OutputsOk(p: Job, outputs: map<nat, seq<KeyValue>>)
    requires p.n > 0
  {
    forall b | b in outputs :: OutputOk(p, b, outputs[b])
  }

  ghost predicate ReportsOk(p: Job, outputs: map<nat, seq<KeyValue>>, net: set<T.Event>)
  {
    forall e | e in net :: ReportOk(p, outputs, e)
  }

  /** A finished reduce task has its output written. */
  ghost predicate FinishedOk(p: Job, t: T.Tables, outputs: map<nat, seq<KeyValue>>)
  {
    forall id | id in t.reduces && t.reduces[id].task.state == T.Finished ::
      IsReduceId(p, id) && id - |p.names| - 1 in outputs
  }

  ghost predicate Inv(p: Job, s: State)
    requires p.n > 0
  {
    && TablesOk(p, s.tables)
    && ActivitiesOk(p, s.running)
    && StoresOk(p, s.stores)
    && ReportsOk(p, s.outputs, s.net)
    && FinishedOk(p, s.tables, s.outputs)
  }

  /** A reduce runs with an address for every map task. */
  ghost predicate Complete(p: Job, x: Activity)
  {
    x.ReduceRun? ==> forall m: TaskID | IsMapId(p, m) :: m in x.given
  }

  /** What holds besides if replies are encoded in time: reduces are complete and outputs right. */
  ghost predicate Right(p: Job, s: State)
    requires p.n > 0
  {
    (forall w | w in s.running :: Complete(p, s.running[w])) && OutputsOk(p, s.outputs)
  }

  lemma ActivitiesUpdate(p: Job, running: map<WorkerID, Activity>, w: WorkerID, x: Activity)
    requires p.n > 0 && ActivitiesOk(p, running) && ActivityOk(p, x)
    ensures ActivitiesOk(p, running[w := x])
  {
    hide ActivityOk;
  }

  lemma StoresUpdate(p: Job, stores: map<Directory, Store>, d: Directory, store: Store)
    requires p.n > 0 && StoresOk(p, stores) && StoreOk(p, store)
    ensures StoresOk(p, stores[d := store])
  {
    hide StoreOk;
  }

  lemma TheActivity(p: Job, s: State, w: WorkerID)
    requires p.n > 0 && ActivitiesOk(p, s.running)
    ensures ActivityOk(p, ActivityOf(s, w))
  {
  }

  lemma TheStore(p: Job, s: State, d: Directory)
    requires p.n > 0 && StoresOk(p, s.stores)
    ensures StoreOk(p, StoreOf(s, d))
  {
  }

  lemma StartInv(p: Job)
    requires p.n > 0
    ensures Inv(p, Start(p))
  {
    T.InitialBooks(p.names, p.n);
  }

  lemma TablesStay(p: Job, t: T.Tables, e: T.Event)
    requires TablesOk(p, t) && T.Enabled(t, e)
    ensures TablesOk(p, T.Apply(t, e))
  {
    T.BooksStay(t, e);
    hide T.BooksKept;
  }

  /** Only the report of a reduce task finishes one. */
  lemma FinishedStay(p: Job, t: T.Tables, e: T.Event, outputs: map<nat, seq<KeyValue>>)
    requires FinishedOk(p, t, outputs) && TablesOk(p, t) && T.Enabled(t, e)
    requires T.ReadsClock(e) || ReportOk(p, outputs, e)
    ensures FinishedOk(p, T.Apply(t, e), outputs)
  {
    hide T.BooksKept;
    hide T.NoMapToAssign;
    hide T.MapsDone;
  }

  lemma AcceptOk(p: Job, s: State, e: T.Event, readable: bool)
    requires p.n > 0 && TablesOk(p, s.tables) && T.Enabled(s.tables, e)
    ensures ActivityOk(p, Accept(p, s, e, readable))
  {
    hide T.BooksKept;
    hide T.NoMapToAssign;
    hide T.MapsDone;
  }

  /** A request, whatever is handed out. */
  lemma RequestKeeps(p: Job, s: State, step: Step)
    requires p.n > 0 && Inv(p, s) && Enabled(p, s, step) && step.Request?
    ensures Inv(p, Apply(p, s, step))
  {
    hide TablesOk; hide ActivitiesOk; hide StoresOk; hide ReportsOk; hide FinishedOk;
    hide ActivityOk; hide T.Enabled; hide T.Apply; hide Accept;
    TablesStay(p, s.tables, step.e);
    FinishedStay(p, s.tables, step.e, s.outputs);
    AcceptOk(p, s, step.e, step.readable);
    ActivitiesUpdate(p, s.running, step.w, Accept(p, s, step.e, step.readable));
  }

  lemma EncodedOk(p: Job, s: State, id: TaskID)
    requires p.n > 0 && TablesOk(p, s.tables) && id in s.tables.reduces
    ensures ActivityOk(p, Encoded(s, id))
  {
    assert s.tables.reduces[id].outputs.Keys == T.DoneMaps(s.tables);
    assert forall m | m in T.DoneMaps(s.tables) :: IsMapId(p, m);
    hide T.BooksKept; hide T.DoneMaps;
  }

  lemma EncodeKeeps(p: Job, s: State, step: Step)
    requires p.n > 0 && Inv(p, s) && Enabled(p, s, step) && step.Encode?
    ensures Inv(p, Apply(p, s, step))
  {
    hide TablesOk; hide ActivitiesOk; hide StoresOk; hide ReportsOk; hide FinishedOk;
    hide ActivityOk; hide ActivityOf; hide Encoded;
    EncodedOk(p, s, ActivityOf(s, step.w).id);
    ActivitiesUpdate(p, s.running, step.w, Encoded(s, ActivityOf(s, step.w).id));
  }

  lemma WriteOk(p: Job, x: Activity, store: Store)
    requires p.n > 0 && ActivityOk(p, x) && StoreOk(p, store) && x.MapRun? && x.next < x.buckets
    ensures ActivityOk(p, x.(next := x.next + 1))
    ensures StoreOk(p, store[(x.id, x.next) := InBucket(p.ihash, x.buckets, p.mapf(x.key, x.content), x.next)])
  {
    hide InBucket;
  }

  lemma WriteKeeps(p: Job, s: State, step: Step)
    requires p.n > 0 && Inv(p, s) && Enabled(p, s, step) && step.WriteBucket?
    ensures Inv(p, Apply(p, s, step))
  {
    hide TablesOk; hide ActivitiesOk; hide StoresOk; hide ReportsOk; hide FinishedOk;
    hide ActivityOk; hide StoreOk; hide InBucket; hide ActivityOf; hide StoreOf;
    var x := ActivityOf(s, step.w);
    var d := p.home(step.w);
    var file := InBucket(p.ihash, x.buckets, p.mapf(x.key, x.content), x.next);
    TheActivity(p, s, step.w);
    TheStore(p, s, d);
    WriteOk(p, x, StoreOf(s, d));
    ActivitiesUpdate(p, s.running, step.w, x.(next := x.next + 1));
    StoresUpdate(p, s.stores, d, StoreOf(s, d)[(x.id, x.next) := file]);
  }

  lemma FetchOk(p: Job, x: Activity, id: TaskID, store: Store)
    requires p.n > 0 && ActivityOk(p, x) && x.ReduceRun? && id in x.left
    requires StoreOk(p, store) && (id, x.bucket) in store
    ensures ActivityOk(p, x.(left := x.left - {id}, fetched := x.fetched + [id], pairs := x.pairs + store[(id, x.bucket)]))
  {
    hide Piece;
    var after := x.fetched + [id];
    assert store[(id, x.bucket)] == Piece(p, id, x.bucket);
    assert after[..|after| - 1] == x.fetched && after[|after| - 1] == id;
    assert Distinct(after) && MapIds(p, after);
    assert Pieces(p, after, x.bucket) == Pieces(p, x.fetched, x.bucket) + Piece(p, id, x.bucket);
    hide Pieces;
    hide Distinct;
    forall m: TaskID ensures m in x.given <==> m in after || m in x.left - {id} {
    }
  }

  lemma FetchKeeps(p: Job, s: State, step: Step)
    requires p.n > 0 && Inv(p, s) && Enabled(p, s, step) && step.Fetch?
    ensures Inv(p, Apply(p, s, step))
  {
    hide TablesOk; hide ActivitiesOk; hide StoresOk; hide ReportsOk; hide FinishedOk;
    hide ActivityOk; hide StoreOk; hide ActivityOf; hide StoreOf; hide Serves;
    var x := ActivityOf(s, step.w);
    var store := StoreOf(s, p.home(step.server));
    TheActivity(p, s, step.w);
    TheStore(p, s, p.home(step.server));
    FetchOk(p, x, step.id, store);
    ActivitiesUpdate(p, s.running, step.w,
      x.(left := x.left - {step.id}, fetched := x.fetched + [step.id], pairs := x.pairs + store[(step.id, x.bucket)]));
  }

  /** A reduce that fetched all it was given computes the sequential result over just those map tasks. */
  lemma ReduceExact(p: Job, x: Activity, out: seq<KeyValue>)
    requires ValidJob(p) && ActivityOk(p, x) && x.ReduceRun? && x.left == map[]
    requires IsTable(out, Reduced(p.reducef, x.pairs))
    ensures IsTable(out, ResultOf(p, x.given, x.bucket))
    ensures IsReduceId(p, x.id) && x.bucket == x.id - |p.names| - 1
  {
    hide IsTable; hide Reduced; hide InBucket; hide PairsOf; hide Pieces; hide Distinct; hide OrderInsensitive;
    AllFetched(p, x.given, x.fetched, x.bucket);
    ReducedRearranged(p.reducef, x.pairs, InBucket(p.ihash, p.n, PairsOf(p, x.given, |p.names|), x.bucket));
  }

  lemma ReportReduceKeeps(p: Job, s: State, step: Step)
    requires p.n > 0 && Inv(p, s) && Enabled(p, s, step) && step.ReportReduce?
    ensures Inv(p, Apply(p, s, step))
  {
    hide TablesOk; hide ActivitiesOk; hide StoresOk; hide IsTable; hide Reduced; hide Distinct; hide Pieces; hide MapIds;
    hide ActivityOf;
    TheActivity(p, s, step.w);
    IdleOk(p);
    ActivitiesUpdate(p, s.running, step.w, Idle);
  }

  lemma IdleOk(p: Job)
    requires p.n > 0
    ensures ActivityOk(p, Idle)
  {
  }

  lemma DeliverKeeps(p: Job, s: State, step: Step)
    requires p.n > 0 && Inv(p, s) && Enabled(p, s, step) && step.Deliver?
    ensures Inv(p, Apply(p, s, step))
  {
    assert ReportOk(p, s.outputs, step.e);
    hide TablesOk; hide ActivitiesOk; hide StoresOk; hide ReportsOk; hide FinishedOk;
    hide ReportOk; hide T.Enabled; hide T.Apply;
    TablesStay(p, s.tables, step.e);
    FinishedStay(p, s.tables, step.e, s.outputs);
  }

  lemma GiveUpKeeps(p: Job, s: State, step: Step)
    requires p.n > 0 && Inv(p, s) && Enabled(p, s, step)
    requires step.ReportMap? || step.FetchFails? || step.Crash?
    ensures Inv(p, Apply(p, s, step))
  {
    hide TablesOk; hide ActivitiesOk; hide StoresOk; hide FinishedOk; hide ActivityOk;
    hide ActivityOf; hide StoreOf;
    IdleOk(p);
    ActivitiesUpdate(p, s.running, step.w, Idle);
    if step.Crash? {
      var store := StoreOf(s, p.home(step.w));
      TheStore(p, s, p.home(step.w));
      StoresUpdate(p, s.stores, p.home(step.w), map k | k in store && k in step.kept :: store[k]);
    }
  }

  /** A reply is encoded only while all map tasks are finished. */
  predicate InTime(s: State, step: Step)
  {
    step.Encode? ==> T.MapsDone(s.tables)
  }

  lemma ValidJobHasBuckets(p: Job)
    requires ValidJob(p)
    ensures p.n > 0
  {
    hide OrderInsensitive;
  }

  /** Every step keeps the invariant, also a reply that is encoded late. */
  lemma StepKeeps(p: Job, s: State, step: Step)
    requires p.n > 0 && Inv(p, s) && Enabled(p, s, step)
    ensures Inv(p, Apply(p, s, step))
  {
    hide *;
    match step
    case Request(_, _, _) => RequestKeeps(p, s, step);
    case Encode(_) => EncodeKeeps(p, s, step);
    case WriteBucket(_) => WriteKeeps(p, s, step);
    case ReportMap(_) => GiveUpKeeps(p, s, step);
    case Fetch(_, _, _) => FetchKeeps(p, s, step);
    case FetchFails(_, _) => GiveUpKeeps(p, s, step);
    case ReportReduce(_, _) => ReportReduceKeeps(p, s, step);
    case Deliver(_) => DeliverKeeps(p, s, step);
    case Crash(_, _) => GiveUpKeeps(p, s, step);
  }

  // ---- replies encoded in time ------------------------------------------------------------------

  lemma EncodedFacts(p: Job, s: State, id: TaskID)
    requires TablesOk(p, s.tables) && id in s.tables.reduces
    ensures Encoded(s, id).given == T.DoneMaps(s.tables)
    ensures Complete(p, Encoded(s, id)) <==> T.MapsDone(s.tables)
  {
    T.BooksComplete(s.tables, id);
    assert s.tables.reduces[id].outputs.Keys == T.DoneMaps(s.tables);
    hide T.BooksKept; hide T.MapsDone;
    assert T.DoneMaps(s.tables) <= s.tables.maps.Keys;
    assert Complete(p, Encoded(s, id)) <==> T.DoneMaps(s.tables) == s.tables.maps.Keys;
  }

  /** A worker that starts on something else than a reduce, or goes on with its reduce, stays complete. */
  lemma CompleteStays(p: Job, s: State, step: Step)
    requires p.n > 0 && Right(p, s) && Enabled(p, s, step) && !step.Encode?
    ensures forall w | w in Apply(p, s, step).running :: Complete(p, Apply(p, s, step).running[w])
  {
    hide OutputsOk; hide IsTable; hide Reduced; hide T.Apply; hide T.Enabled; hide StoreOf; hide InBucket; hide Serves;
    assert forall w :: Complete(p, ActivityOf(s, w));
  }

  lemma EncodeCompletes(p: Job, s: State, step: Step)
    requires p.n > 0 && TablesOk(p, s.tables) && Right(p, s) && Enabled(p, s, step) && step.Encode? && InTime(s, step)
    ensures Right(p, Apply(p, s, step))
  {
    hide TablesOk; hide OutputsOk; hide T.MapsDone; hide Encoded; hide Complete; hide ActivityOf;
    EncodedFacts(p, s, ActivityOf(s, step.w).id);
  }

  lemma ReportIsRight(p: Job, s: State, step: Step)
    requires ValidJob(p) && Inv(p, s) && Enabled(p, s, step) && step.ReportReduce?
    ensures ActivityOf(s, step.w).ReduceRun?
    ensures IsTable(step.out, ResultOf(p, ActivityOf(s, step.w).given, ActivityOf(s, step.w).bucket))
    ensures ActivityOf(s, step.w).bucket < p.n
    ensures Complete(p, ActivityOf(s, step.w)) ==>
      ResultOf(p, ActivityOf(s, step.w).given, ActivityOf(s, step.w).bucket) == BucketResult(p, ActivityOf(s, step.w).bucket)
  {
    hide IsTable; hide Reduced; hide BucketResult; hide ResultOf; hide ActivityOk; hide ActivityOf; hide OrderInsensitive;
    hide TablesOk; hide ActivitiesOk; hide StoresOk; hide ReportsOk; hide FinishedOk;
    var x := ActivityOf(s, step.w);
    TheActivity(p, s, step.w);
    ReduceExact(p, x, step.out);
    if Complete(p, x) { ResultOfAll(p, x.given, x.bucket); }
  }

  lemma TheComplete(p: Job, s: State, w: WorkerID)
    requires p.n > 0 && Right(p, s)
    ensures Complete(p, ActivityOf(s, w)) && OutputsOk(p, s.outputs)
  {
    hide OutputsOk;
  }

  lemma RightIntro(p: Job, s: State)
    requires p.n > 0 && (forall w | w in s.running :: Complete(p, s.running[w])) && OutputsOk(p, s.outputs)
    ensures Right(p, s)
  {
    hide OutputsOk; hide Complete;
  }

  lemma OutputsStay(p: Job, s: State, step: Step)
    requires ValidJob(p) && Inv(p, s) && Right(p, s) && Enabled(p, s, step)
    ensures OutputsOk(p, Apply(p, s, step).outputs)
  {
    hide Inv; hide IsTable; hide Reduced; hide BucketResult; hide ResultOf; hide OrderInsensitive; hide Complete; hide Right;
    hide T.Apply; hide T.Enabled; hide ActivityOf; hide StoreOf; hide InBucket;
    TheComplete(p, s, if step.ReportReduce? then step.w else 0);
    if step.ReportReduce? {
      ReportIsRight(p, s, step);
    }
  }

  lemma StepRight(p: Job, s: State, step: Step)
    requires ValidJob(p) && Inv(p, s) && Right(p, s) && Enabled(p, s, step) && InTime(s, step)
    ensures Right(p, Apply(p, s, step))
  {
    hide *;
    ValidJobHasBuckets(p);
    InvTables(p, s);
    if step.Encode? {
      EncodeCompletes(p, s, step);
    } else {
      CompleteStays(p, s, step);
      OutputsStay(p, s, step);
      RightIntro(p, Apply(p, s, step));
    }
  }

  lemma InvTables(p: Job, s: State)
    requires p.n > 0 && Inv(p, s)
    ensures TablesOk(p, s.tables)
  {
    hide TablesOk; hide ActivitiesOk; hide StoresOk; hide ReportsOk; hide FinishedOk;
  }

  // ---- every run -----------------------------------------------------------------------------

  ghost predicate Taken(p: Job, run: seq<State>, steps: seq<Step>, t: int)
    requires p.n > 0 && 0 <= t < |steps| < |run|
  {
    Enabled(p, run[t], steps[t]) && run[t + 1] == Apply(p, run[t], steps[t])
  }

  ghost predicate IsRun(p: Job, run: seq<State>, steps: seq<Step>)
    requires p.n > 0
  {
    && |run| == |steps| + 1
    && run[0] == Start(p)
    && forall t | 0 <= t < |steps| :: Taken(p, run, steps, t)
  }

  ghost predicate AllInTime(run: seq<State>, steps: seq<Step>)
    requires |run| == |steps| + 1
  {
    forall t | 0 <= t < |steps| :: InTime(run[t], steps[t])
  }

  lemma RunShape(p: Job, run: seq<State>, steps: seq<Step>)
    requires p.n > 0 && IsRun(p, run, steps)
    ensures |run| == |steps| + 1 && run[0] == Start(p)
  {
    hide Taken; hide Start;
  }

  lemma TakenInTime(run: seq<State>, steps: seq<Step>, t: nat)
    requires |run| == |steps| + 1 && AllInTime(run, steps) && t < |steps|
    ensures InTime(run[t], steps[t])
  {
    hide InTime;
  }

  lemma TakesStep(p: Job, run: seq<State>, steps: seq<Step>, t: nat)
    requires p.n > 0 && IsRun(p, run, steps) && t < |steps|
    ensures t + 1 < |run| && Enabled(p, run[t], steps[t]) && run[t + 1] == Apply(p, run[t], steps[t])
  {
    hide Enabled; hide Apply; hide Start;
    assert Taken(p, run, steps, t);
  }

  lemma {:induction false} RunInv(p: Job, run: seq<State>, steps: seq<Step>, t: nat)
    requires p.n > 0 && IsRun(p, run, steps) && t < |run|
    ensures Inv(p, run[t])
  {
    hide *;
    RunShape(p, run, steps);
    if t == 0 {
      StartInv(p);
    } else {
      RunInv(p, run, steps, t - 1);
      TakesStep(p, run, steps, t - 1);
      StepKeeps(p, run[t - 1], steps[t - 1]);
    }
  }

  lemma StartRight(p: Job)
    requires p.n > 0
    ensures Right(p, Start(p))
  {
  }

  lemma {:induction false} RunRight(p: Job, run: seq<State>, steps: seq<Step>, t: nat)
    requires ValidJob(p) && IsRun(p, run, steps) && AllInTime(run, steps) && t < |run|
    ensures Right(p, run[t])
  {
    hide *;
    ValidJobHasBuckets(p);
    RunShape(p, run, steps);
    if t == 0 {
      StartRight(p);
    } else {
      RunRight(p, run, steps, t - 1);
      RunInv(p, run, steps, t - 1);
      TakesStep(p, run, steps, t - 1);
      TakenInTime(run, steps, t - 1);
      StepRight(p, run[t - 1], steps[t - 1]);
    }
  }

  lemma EncodeGives(p: Job, s: State, step: Step)
    requires p.n > 0 && TablesOk(p, s.tables) && Enabled(p, s, step) && step.Encode?
    ensures var x := ActivityOf(Apply(p, s, step), step.w);
      && x.ReduceRun? && x.given == T.DoneMaps(s.tables)
      && (Complete(p, x) <==> InTime(s, step))
  {
    hide TablesOk; hide T.MapsDone; hide T.DoneMaps; hide Complete;
    EncodedFacts(p, s, ActivityOf(s, step.w).id);
  }

  /**
   The reply to a worker is encoded after the lock is released, and takes the address map
   as it is then. In every run it has the addresses of exactly the map tasks that are
   finished at that moment; these are all exactly if the reply is encoded in time.
   */
  lemma EncodedExactly(p: Job, run: seq<State>, steps: seq<Step>, t: nat)
    requires p.n > 0 && IsRun(p, run, steps) && t < |steps| && steps[t].Encode?
    ensures t + 1 < |run|
    ensures var x := ActivityOf(run[t + 1], steps[t].w);
      && x.ReduceRun? && x.given == T.DoneMaps(run[t].tables)
      && (Complete(p, x) <==> InTime(run[t], steps[t]))
  {
    hide *;
    RunShape(p, run, steps);
    RunInv(p, run, steps, t);
    InvTables(p, run[t]);
    TakesStep(p, run, steps, t);
    EncodeGives(p, run[t], steps[t]);
  }

  /** A reply that is encoded before anything else happens is in time. */
  lemma AtOnceIsInTime(p: Job, run: seq<State>, steps: seq<Step>, t: nat)
    requires p.n > 0 && IsRun(p, run, steps) && t + 1 < |steps|
    requires steps[t].Request? && steps[t].e.GiveReduce? && steps[t + 1].Encode?
    ensures InTime(run[t + 1], steps[t + 1])
  {
    TakesStep(p, run, steps, t);
    hide IsRun;
    assert T.MapsDone(run[t].tables) && run[t + 1].tables.maps == run[t].tables.maps;
  }

  /**
   Whenever a worker reports a reduce task, in any run, its result is the sequential result
   of its bucket over exactly the map tasks that its reply had an address for.
   */
  lemma ReportedReduceExactly(p: Job, run: seq<State>, steps: seq<Step>, t: nat)
    requires ValidJob(p) && IsRun(p, run, steps) && t < |steps| && steps[t].ReportReduce?
    ensures t < |run| && ActivityOf(run[t], steps[t].w).ReduceRun?
    ensures IsTable(steps[t].out, ResultOf(p, ActivityOf(run[t], steps[t].w).given, ActivityOf(run[t], steps[t].w).bucket))
  {
    hide *;
    ValidJobHasBuckets(p);
    RunShape(p, run, steps);
    RunInv(p, run, steps, t);
    TakesStep(p, run, steps, t);
    ReportIsRight(p, run[t], steps[t]);
  }

  /** If replies are encoded in time, it is the bucket's part of the sequential result. */
  lemma ReportedReduceIsRight(p: Job, run: seq<State>, steps: seq<Step>, t: nat)
    requires ValidJob(p) && IsRun(p, run, steps) && AllInTime(run, steps) && t < |steps| && steps[t].ReportReduce?
    ensures t < |run| && ActivityOf(run[t], steps[t].w).ReduceRun?
    ensures IsTable(steps[t].out, BucketResult(p, ActivityOf(run[t], steps[t].w).bucket))
  {
    hide *;
    ValidJobHasBuckets(p);
    RunShape(p, run, steps);
    RunInv(p, run, steps, t);
    RunRight(p, run, steps, t);
    TakesStep(p, run, steps, t);
    TheComplete(p, run[t], steps[t].w);
    ReportIsRight(p, run[t], steps[t]);
  }

  /** Running a reduce task twice, wherever and whenever, writes the same result. */
  lemma DuplicateReducesAgree(p: Job, run: seq<State>, steps: seq<Step>, t: nat, u: nat)
    requires ValidJob(p) && IsRun(p, run, steps) && AllInTime(run, steps) && t < |steps| && u < |steps|
    requires steps[t].ReportReduce? && steps[u].ReportReduce?
    requires ActivityOf(run[t], steps[t].w).ReduceRun? && ActivityOf(run[u], steps[u].w).ReduceRun?
    requires ActivityOf(run[t], steps[t].w).bucket == ActivityOf(run[u], steps[u].w).bucket
    ensures steps[t].out == steps[u].out
  {
    hide *;
    ValidJobHasBuckets(p);
    RunShape(p, run, steps);
    ReportedReduceIsRight(p, run, steps, t);
    ReportedReduceIsRight(p, run, steps, u);
    TableUnique(steps[t].out, steps[u].out, BucketResult(p, ActivityOf(run[t], steps[t].w).bucket));
  }

  /** The lines of all output files together. */
  ghost function AllLines(outputs: map<nat, seq<KeyValue>>, upto: nat): (m: multiset<KeyValue>)
    requires forall b: nat | b < upto :: b in outputs
  {
    if upto == 0 then multiset{} else AllLines(outputs, upto - 1) + multiset(outputs[upto - 1])
  }

  lemma TableCount(out: seq<KeyValue>, m: map<string, string>, x: KeyValue)
    requires IsTable(out, m)
    ensures multiset(out)[x] == if x.key in m && m[x.key] == x.value then 1 else 0
  {
    forall i, j | 0 <= i < j < |out| ensures out[i] != out[j] {
      StringLessTotal(out[i].key, out[i].key);
    }
    OneOfEach(out, x);
    assert x in multiset(out) <==> x in out;
    if x.key in m && m[x.key] == x.value {
      var i := KeyFrom(out, x.key);
      assert out[i] == x;
    }
  }

  /** x is a line of the sequential output. */
  ghost predicate InResult(p: Job, x: KeyValue)
  {
    var m := Reduced(p.reducef, AllPairs(p));
    x.key in m && m[x.key] == x.value
  }

  lemma BucketLines(p: Job, out: seq<KeyValue>, b: nat, x: KeyValue)
    requires p.n > 0 && IsTable(out, BucketResult(p, b))
    ensures multiset(out)[x] == if InResult(p, x) && BucketOf(p.ihash, p.n, x.key) == b then 1 else 0
  {
    TableCount(out, BucketResult(p, b), x);
    ReducedBucket(p.reducef, p.ihash, p.n, AllPairs(p), b);
  }

  lemma {:induction false} LinesCount(p: Job, outputs: map<nat, seq<KeyValue>>, upto: nat, x: KeyValue)
    requires p.n > 0 && upto <= p.n
    requires forall b: nat | b < p.n :: b in outputs && IsTable(outputs[b], BucketResult(p, b))
    ensures AllLines(outputs, upto)[x] == if InResult(p, x) && BucketOf(p.ihash, p.n, x.key) < upto then 1 else 0
  {
    hide InResult; hide IsTable; hide BucketOf; hide BucketResult;
    if upto > 0 {
      var b := upto - 1;
      LinesCount(p, outputs, b, x);
      BucketLines(p, outputs[b], b, x);
      assert (AllLines(outputs, b) + multiset(outputs[b]))[x] == AllLines(outputs, b)[x] + multiset(outputs[b])[x];
    }
  }

  /**
   In every run, once all reduce tasks are done, the output files together have exactly
   the lines of the sequential program's output.
   */
  lemma DistributedEqualsSequential(p: Job, run: seq<State>, steps: seq<Step>, t: nat, sequential: seq<KeyValue>)
    requires ValidJob(p) && IsRun(p, run, steps) && AllInTime(run, steps) && t < |run| && T.ReducesDone(run[t].tables)
    requires IsTable(sequential, Reduced(p.reducef, S.Gather(p.mapf, Files(p))))
    ensures forall b: nat | b < p.n :: b in run[t].outputs && IsTable(run[t].outputs[b], BucketResult(p, b))
    ensures AllLines(run[t].outputs, p.n) == multiset(sequential)
  {
    hide *;
    ValidJobHasBuckets(p);
    RunShape(p, run, steps);
    RunInv(p, run, steps, t);
    RunRight(p, run, steps, t);
    forall b: nat | b < p.n ensures b in run[t].outputs && IsTable(run[t].outputs[b], BucketResult(p, b)) {
      OutputThere(p, run[t], b);
    }
    SameLines(p, run[t].outputs, sequential);
  }

  /** Right outputs for all buckets have together the lines of the sequential output. */
  lemma SameLines(p: Job, outputs: map<nat, seq<KeyValue>>, sequential: seq<KeyValue>)
    requires p.n > 0 && forall b: nat | b < p.n :: b in outputs && IsTable(outputs[b], BucketResult(p, b))
    requires IsTable(sequential, Reduced(p.reducef, S.Gather(p.mapf, Files(p))))
    ensures AllLines(outputs, p.n) == multiset(sequential)
  {
    hide IsTable; hide Reduced; hide BucketResult; hide AllLines;
    forall x ensures AllLines(outputs, p.n)[x] == multiset(sequential)[x] {
      LinesCount(p, outputs, p.n, x);
      TableCount(sequential, Reduced(p.reducef, AllPairs(p)), x);
    }
  }

  lemma OutputThere(p: Job, s: State, b: nat)
    requires p.n > 0 && Inv(p, s) && Right(p, s) && T.ReducesDone(s.tables) && b < p.n
    ensures b in s.outputs && IsTable(s.outputs[b], BucketResult(p, b))
  {
    hide IsTable; hide BucketResult; hide ActivitiesOk; hide StoresOk; hide ReportsOk; hide T.BooksKept;
    var id: TaskID := |p.names| + b + 1;
    assert IsReduceId(p, id) && id in s.tables.reduces;
    assert s.tables.reduces[id].task.state == T.Finished;
    assert OutputOk(p, b, s.outputs[b]);
  }
}
