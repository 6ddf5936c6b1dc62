/**
 Histories of concurrent operations and what it means to linearize them.
 The search works on entries (call and return events in time order, matched by a
 dense operation id); this module gives the reference meaning it is compared with.
 */
module History {

  datatype Option<+T> = None | Some(value: T)

  /** A sequential specification: initial state, step function and state equality. */
  datatype Model<!S, !I, !O> = Model(
    init: S,
    step: (S, I, O) -> (bool, S),
    equal: (S, S) -> bool)

  datatype Entry<+I, +O> =
    | CallEntry(id: nat, time: int, clientId: int, input: I)
    | ReturnEntry(id: nat, time: int, clientId: int, output: O)

  /** A completed operation: what went in and what came out. */
  datatype Op<+I, +O> = Op(input: I, output: O)

  // ---- well-formed histories -----------------------------------------------

  function Size<I, O>(h: seq<Entry<I, O>>): (n: nat)
  {
    |h| / 2
  }

  ghost predicate IsCall<I, O>(h: seq<Entry<I, O>>, i: nat, id: nat)
  {
    i < |h| && h[i].CallEntry? && h[i].id == id
  }

  ghost predicate IsReturn<I, O>(h: seq<Entry<I, O>>, i: nat, id: nat)
  {
    i < |h| && h[i].ReturnEntry? && h[i].id == id
  }

  ghost predicate Complete<I, O>(h: seq<Entry<I, O>>, id: nat)
  {
    && (exists i: nat :: IsCall(h, i, id))
    && (exists i: nat :: IsReturn(h, i, id))
  }

  /** Every id below |h|/2 has exactly one call, followed by exactly one return. */
  ghost predicate WellFormed<I, O>(h: seq<Entry<I, O>>)
  {
    && |h| % 2 == 0
    && (forall i | 0 <= i < |h| :: h[i].id < Size(h))
    && (forall i, j | 0 <= i < j < |h| :: h[i].id == h[j].id ==> h[i].CallEntry? && h[j].ReturnEntry?)
    && (forall id: nat | id < Size(h) :: Complete(h, id))
  }

  /** Position of the call of operation id. */
  ghost function CallAt<I, O>(h: seq<Entry<I, O>>, id: nat): (i: nat)
    requires WellFormed(h) && id < Size(h)
    ensures IsCall(h, i, id)
  {
    assert Complete(h, id);
    var i: nat :| IsCall(h, i, id);
    i
  }

  /** Position of the return of operation id. */
  ghost function ReturnAt<I, O>(h: seq<Entry<I, O>>, id: nat): (i: nat)
    requires WellFormed(h) && id < Size(h)
    ensures IsReturn(h, i, id) && CallAt(h, id) < i
  {
    assert Complete(h, id);
    var i: nat :| IsReturn(h, i, id);
    assert IsCall(h, CallAt(h, id), id);
    i
  }

  /** An entry sits exactly where CallAt or ReturnAt of its id says. */
  lemma EntryPosition<I, O>(h: seq<Entry<I, O>>, i: nat)
    requires WellFormed(h) && i < |h|
    ensures h[i].CallEntry? ==> CallAt(h, h[i].id) == i
    ensures h[i].ReturnEntry? ==> ReturnAt(h, h[i].id) == i
  {
    assert IsCall(h, CallAt(h, h[i].id), h[i].id);
    assert IsReturn(h, ReturnAt(h, h[i].id), h[i].id);
  }

  ghost function OpOf<I, O>(h: seq<Entry<I, O>>, id: nat): (op: Op<I, O>)
    requires WellFormed(h) && id < Size(h)
  {
    Op(h[CallAt(h, id)].input, h[ReturnAt(h, id)].output)
  }

  /** Real-time order: a returned before b was called. */
  ghost predicate Before<I, O>(h: seq<Entry<I, O>>, a: nat, b: nat)
    requires WellFormed(h) && a < Size(h) && b < Size(h)
  {
    ReturnAt(h, a) < CallAt(h, b)
  }

  // ---- acceptance by a model -----------------------------------------------

  /** The model takes every operation of ops in turn, starting in state s. */
  predicate Accepts<S, I, O>(m: Model<S, I, O>, s: S, ops: seq<Op<I, O>>)
  {
    ops == [] ||
    (m.step(s, ops[0].input, ops[0].output).0 &&
     Accepts(m, m.step(s, ops[0].input, ops[0].output).1, ops[1..]))
  }

  /** States that the model calls equal accept the same futures. */
  ghost predicate SameFutures<S(!new), I(!new), O(!new)>(m: Model<S, I, O>)
  {
    forall s, t, ops :: m.equal(s, t) ==> (Accepts(m, s, ops) <==> Accepts(m, t, ops))
  }

  // ---- linearizations --------------------------------------------------------

  ghost predicate Ids<I, O>(h: seq<Entry<I, O>>, p: seq<nat>)
  {
    forall i | 0 <= i < |p| :: p[i] < Size(h)
  }

  ghost predicate Distinct<T>(p: seq<T>)
  {
    forall i, j | 0 <= i < j < |p| :: p[i] != p[j]
  }

  ghost function OpsOf<I, O>(h: seq<Entry<I, O>>, p: seq<nat>): (ops: seq<Op<I, O>>)
    requires WellFormed(h) && Ids(h, p)
  {
    seq(|p|, i requires 0 <= i < |p| => OpOf(h, p[i]))
  }

  /**
   p is a partial linearization: distinct operations that the model accepts in that
   order, where everything that returned before a chosen operation was called is
   chosen too, and earlier.
   */
  ghost predicate IsPartial<S, I, O>(m: Model<S, I, O>, h: seq<Entry<I, O>>, p: seq<nat>)
    requires WellFormed(h)
  {
    && Ids(h, p)
    && Distinct(p)
    && (forall j, b: nat | 0 <= j < |p| && b < Size(h) && Before(h, b, p[j]) :: b in p[..j])
    && Accepts(m, m.init, OpsOf(h, p))
  }

  /**
   p is a linearization: an ordering of all operations that never puts an operation
   before one that had already returned when it was called, and that the model accepts.
   */
  ghost predicate IsLinearization<S, I, O>(m: Model<S, I, O>, h: seq<Entry<I, O>>, p: seq<nat>)
    requires WellFormed(h)
  {
    && |p| == Size(h)
    && Ids(h, p)
    && Distinct(p)
    && (forall i, j | 0 <= i < j < |p| :: !Before(h, p[j], p[i]))
    && Accepts(m, m.init, OpsOf(h, p))
  }

  ghost predicate Linearizable<S, I, O>(m: Model<S, I, O>, h: seq<Entry<I, O>>)
    requires WellFormed(h)
  {
    exists p :: IsLinearization(m, h, p)
  }
}
