/**
 From recorded operations and events to the entries the search works on, and why
 nothing about linearizability is lost on the way.
 */
module Operations {
  import opened History
  import opened Search
  import opened Sorting

  /** An operation with its invocation and response times. */
  datatype Operation<+I, +O> = Operation(clientId: int, input: I, call: int, output: O, ret: int)

  function Bare<I, O>(l: seq<Operation<I, O>>): (ops: seq<Op<I, O>>)
    ensures |ops| == |l|
    ensures forall i | 0 <= i < |l| :: ops[i] == Op(l[i].input, l[i].output)
  {
    if l == [] then [] else [Op(l[0].input, l[0].output)] + Bare(l[1..])
  }

  /** No operation stands before one that had returned when it was called. */
  ghost predicate RespectsTime<I, O>(l: seq<Operation<I, O>>)
  {
    forall i, j | 0 <= i < j < |l| :: !(l[j].ret < l[i].call)
  }

  ghost predicate IsOrder<S, I, O>(m: Model<S, I, O>, ops: seq<Operation<I, O>>, l: seq<Operation<I, O>>)
  {
    && multiset(l) == multiset(ops)
    && RespectsTime(l)
    && Accepts(m, m.init, Bare(l))
  }

  /** Some reordering of the operations respects real time and is accepted by the model. */
  ghost predicate OpsLinearizable<S, I(!new), O(!new)>(m: Model<S, I, O>, ops: seq<Operation<I, O>>)
  {
    exists l :: IsOrder(m, ops, l)
  }

  /** Every operation returns no earlier than it is called. */
  ghost predicate Timely<I, O>(ops: seq<Operation<I, O>>)
  {
    forall i | 0 <= i < |ops| :: ops[i].call <= ops[i].ret
  }

  // ---- sorting by time -------------------------------------------------------

  /** The order of the sort: by time, calls before returns at the same time. */
  predicate Less<I, O>(a: Entry<I, O>, b: Entry<I, O>)
  {
    if a.time != b.time then a.time < b.time else a.CallEntry? && b.ReturnEntry?
  }

  ghost predicate Sorted<I, O>(es: seq<Entry<I, O>>)
  {
    SortedBy(Less, es)
  }

  function CallOf<I, O>(ops: seq<Operation<I, O>>, id: nat): (e: Entry<I, O>)
    requires id < |ops|
  {
    CallEntry(id, ops[id].call, ops[id].clientId, ops[id].input)
  }

  function ReturnOf<I, O>(ops: seq<Operation<I, O>>, id: nat): (e: Entry<I, O>)
    requires id < |ops|
  {
    ReturnEntry(id, ops[id].ret, ops[id].clientId, ops[id].output)
  }

  /** The call and the return of each operation, numbered in history order. */
  ghost function Raw<I, O>(ops: seq<Operation<I, O>>): (es: seq<Entry<I, O>>)
  {
    seq(2 * |ops|, i requires 0 <= i < 2 * |ops| =>
      if i % 2 == 0 then CallOf(ops, i / 2) else ReturnOf(ops, i / 2))
  }

  ghost predicate IsEntriesOf<I, O>(ops: seq<Operation<I, O>>, es: seq<Entry<I, O>>)
  {
    multiset(es) == multiset(Raw(ops)) && Sorted(es)
  }

  /** Any rearrangement of the raw entries has each of them exactly once. */
  lemma EntriesOnce<I, O>(ops: seq<Operation<I, O>>, es: seq<Entry<I, O>>)
    requires multiset(es) == multiset(Raw(ops))
    ensures |es| == 2 * |ops|
    ensures forall i | 0 <= i < |es| ::
      es[i].id < |ops| && (es[i] == CallOf(ops, es[i].id) || es[i] == ReturnOf(ops, es[i].id))
    ensures Distinct(es)
    ensures forall id: nat | id < |ops| :: CallOf(ops, id) in es && ReturnOf(ops, id) in es
  {
    var raw := Raw(ops);
    assert |multiset(es)| == |multiset(raw)|;
    forall i, j | 0 <= i < j < |es| ensures es[i] != es[j] {
      if es[i] == es[j] {
        TwoOfOne(es, i, j);
        OneOfEach(raw, es[i]);
      }
    }
    forall i | 0 <= i < |es|
      ensures es[i].id < |ops| && (es[i] == CallOf(ops, es[i].id) || es[i] == ReturnOf(ops, es[i].id))
    {
      assert es[i] in multiset(es);
      assert es[i] in raw;
    }
    forall id: nat | id < |ops| ensures CallOf(ops, id) in es && ReturnOf(ops, id) in es {
      assert raw[2 * id] == CallOf(ops, id) && raw[2 * id + 1] == ReturnOf(ops, id);
      assert CallOf(ops, id) in multiset(raw) && ReturnOf(ops, id) in multiset(raw);
    }
  }

  /** Sorted entries of timely operations form a well-formed history. */
  lemma EntriesWellFormed<I, O>(ops: seq<Operation<I, O>>, es: seq<Entry<I, O>>)
    requires Timely(ops) && IsEntriesOf(ops, es)
    ensures WellFormed(es) && Size(es) == |ops|
  {
    EntriesOnce(ops, es);
    forall id: nat | id < |ops| ensures Complete(es, id) {
      var i :| 0 <= i < |es| && es[i] == CallOf(ops, id);
      var j :| 0 <= j < |es| && es[j] == ReturnOf(ops, id);
      assert IsCall(es, i, id) && IsReturn(es, j, id);
    }
    forall i, j | 0 <= i < j < |es| && es[i].id == es[j].id
      ensures es[i].CallEntry? && es[j].ReturnEntry?
    {
      assert !Less(es[j], es[i]);
    }
  }

  /** The entries keep each operation's values, and its times order the history. */
  lemma EntriesMeaning<I, O>(ops: seq<Operation<I, O>>, es: seq<Entry<I, O>>, a: nat, b: nat)
    requires Timely(ops) && IsEntriesOf(ops, es) && WellFormed(es) && Size(es) == |ops|
    requires a < |ops| && b < |ops|
    ensures OpOf(es, a) == Op(ops[a].input, ops[a].output)
    ensures Before(es, a, b) <==> ops[a].ret < ops[b].call
    ensures es[CallAt(es, a)] == CallEntry(a, ops[a].call, ops[a].clientId, ops[a].input)
    ensures es[ReturnAt(es, a)] == ReturnEntry(a, ops[a].ret, ops[a].clientId, ops[a].output)
  {
    EntriesOnce(ops, es);
    var (r, c) := (ReturnAt(es, a), CallAt(es, b));
    assert es[r] == ReturnOf(ops, a) && es[c] == CallOf(ops, b);
    assert es[CallAt(es, a)] == CallOf(ops, a);
    if r < c {
      assert !Less(es[c], es[r]);
    } else {
      assert c < r;
      assert !Less(es[r], es[c]);
    }
  }

  // ---- orderings of ids and orderings of operations ---------------------------------

  ghost function Pick<T>(s: seq<T>, p: seq<nat>): (r: seq<T>)
    requires forall i | 0 <= i < |p| :: p[i] < |s|
    ensures |r| == |p| && forall i | 0 <= i < |p| :: r[i] == s[p[i]]
  {
    seq(|p|, i requires 0 <= i < |p| => s[p[i]])
  }

  /** Rearrangements of a sequence are given by orderings of its positions. */
  lemma {:induction false} Arrange<T>(l: seq<T>, s: seq<T>) returns (p: seq<nat>)
    requires multiset(l) == multiset(s)
    ensures |p| == |s| && Distinct(p)
    ensures forall i | 0 <= i < |p| :: p[i] < |s|
    ensures l == Pick(s, p)
    decreases |l|
  {
    assert |multiset(l)| == |multiset(s)|;
    if l == [] {
      p := [];
    } else {
      var k := |l| - 1;
      assert l == l[..k] + [l[k]];
      assert l[k] in multiset(s);
      var j :| 0 <= j < |s| && s[j] == l[k];
      WithoutCounts(s, j);
      assert multiset(l[..k]) == multiset(Without(s, j));
      var q := Arrange(l[..k], Without(s, j));
      p := Insert(s, q, j);
      assert l == Pick(s, p);
    }
  }

  /** An ordering of all positions but j, followed by j. */
  ghost function Insert<T>(s: seq<T>, q: seq<nat>, j: nat): (p: seq<nat>)
    requires j < |s| && |q| == |s| - 1 && Distinct(q) && forall i | 0 <= i < |q| :: q[i] < |s| - 1
    ensures |p| == |s| && Distinct(p) && forall i | 0 <= i < |p| :: p[i] < |s|
    ensures Pick(s, p) == Pick(Without(s, j), q) + [s[j]]
  {
    seq(|q|, i requires 0 <= i < |q| => if q[i] < j then q[i] else q[i] + 1) + [j]
  }

  /** Where the largest position stands in an ordering, and the ordering without it. */
  lemma Last(p: seq<nat>) returns (j: nat, q: seq<nat>)
    requires |p| > 0 && Distinct(p) && forall i | 0 <= i < |p| :: p[i] < |p|
    ensures j < |p| && p[j] == |p| - 1 && q == Without(p, j)
    ensures |q| == |p| - 1 && Distinct(q) && forall i | 0 <= i < |q| :: q[i] < |p| - 1
  {
    AllIds(|p|, p);
    assert |p| - 1 in p;
    j :| 0 <= j < |p| && p[j] == |p| - 1;
    q := Without(p, j);
  }

  lemma PickWithout<T>(s: seq<T>, p: seq<nat>, j: nat, q: seq<nat>)
    requires |p| == |s| > 0 && j < |p| && p[j] == |s| - 1 && q == Without(p, j)
    requires forall i | 0 <= i < |p| :: p[i] < |s|
    requires forall i | 0 <= i < |q| :: q[i] < |s| - 1
    ensures Pick(s, p)[j] == s[|s| - 1]
    ensures Without(Pick(s, p), j) == Pick(s[..|s| - 1], q)
  {
  }

  /** Picking all positions is picking all but the last, plus the last element. */
  lemma PickSplit<T>(s: seq<T>, p: seq<nat>) returns (q: seq<nat>)
    requires |p| == |s| > 0 && Distinct(p) && forall i | 0 <= i < |p| :: p[i] < |s|
    ensures |q| == |s| - 1 && Distinct(q) && forall i | 0 <= i < |q| :: q[i] < |s| - 1
    ensures multiset(Pick(s, p)) == multiset(Pick(s[..|s| - 1], q)) + multiset{s[|s| - 1]}
  {
    var j;
    j, q := Last(p);
    PickWithout(s, p, j, q);
    WithoutCounts(Pick(s, p), j);
    assert s[|s| - 1] in multiset(Pick(s, p));
  }

  lemma {:induction false} Arranged<T>(s: seq<T>, p: seq<nat>)
    requires |p| == |s| && Distinct(p) && forall i | 0 <= i < |p| :: p[i] < |s|
    ensures multiset(Pick(s, p)) == multiset(s)
    decreases |s|
  {
    if s != [] {
      var q := PickSplit(s, p);
      Arranged(s[..|s| - 1], q);
      assert s == s[..|s| - 1] + [s[|s| - 1]];
    }
  }

  lemma OrderedOps<I, O>(ops: seq<Operation<I, O>>, es: seq<Entry<I, O>>, p: seq<nat>)
    requires Timely(ops) && IsEntriesOf(ops, es) && WellFormed(es) && Size(es) == |ops| && Ids(es, p)
    ensures OpsOf(es, p) == Bare(Pick(ops, p))
    ensures RespectsTime(Pick(ops, p)) <==> forall i, j | 0 <= i < j < |p| :: !Before(es, p[j], p[i])
  {
    hide WellFormed; hide IsEntriesOf; hide Timely; hide Before; hide Size; hide OpOf;
    forall i | 0 <= i < |p| ensures OpOf(es, p[i]) == Op(ops[p[i]].input, ops[p[i]].output) {
      EntriesMeaning(ops, es, p[i], p[i]);
    }
    assert OpsOf(es, p) == Bare(Pick(ops, p));
    forall i, j | 0 <= i < j < |p| ensures Before(es, p[j], p[i]) <==> ops[p[j]].ret < ops[p[i]].call {
      EntriesMeaning(ops, es, p[j], p[i]);
    }
  }

  /** The entries are linearizable exactly when the operations they come from are. */
  lemma EntriesLinearizable<S, I(!new), O(!new)>(m: Model<S, I, O>, ops: seq<Operation<I, O>>, es: seq<Entry<I, O>>)
    requires Timely(ops) && IsEntriesOf(ops, es)
    ensures WellFormed(es)
    ensures Linearizable(m, es) <==> OpsLinearizable(m, ops)
  {
    EntriesWellFormed(ops, es);
    hide WellFormed;
    hide IsEntriesOf;
    if Linearizable(m, es) {
      var p :| IsLinearization(m, es, p);
      OrderedOps(ops, es, p);
      Arranged(ops, p);
      assert IsOrder(m, ops, Pick(ops, p));
    }
    if OpsLinearizable(m, ops) {
      var l :| IsOrder(m, ops, l);
      var p := Arrange(l, ops);
      OrderedOps(ops, es, p);
      assert IsLinearization(m, es, p);
    }
  }

  // ---- preparing operations ------------------------------------------------------------

  lemma LessIsOrder<I(!new), O(!new)>()
    ensures StrictOrder(Less<I, O>)
  {
  }

  method MakeEntries<I(!new), O(!new)>(history: seq<Operation<I, O>>) returns (entries: seq<Entry<I, O>>)
    ensures IsEntriesOf(history, entries)
    ensures forall i, j | 0 <= i < j < |entries| ::
      entries[i].time < entries[j].time || (entries[i].time == entries[j].time && (entries[i].ReturnEntry? ==> entries[j].ReturnEntry?))
  {
    entries := [];
    var id := 0;
    while id < |history|
      invariant id <= |history|
      invariant entries == Raw(history)[..2 * id]
    {
      var elem := history[id];
      entries := entries + [CallEntry(id, elem.call, elem.clientId, elem.input)];
      entries := entries + [ReturnEntry(id, elem.ret, elem.clientId, elem.output)];
      id := id + 1;
    }
    assert Raw(history)[..2 * |history|] == Raw(history);
    LessIsOrder<I, O>();
    entries := Sort(entries, Less);
    SortedByTime(entries);
  }

  /** Sorted entries stand in order of time, calls before returns of the same time. */
  lemma SortedByTime<I, O>(es: seq<Entry<I, O>>)
    requires Sorted(es)
    ensures forall i, j | 0 <= i < j < |es| ::
      es[i].time < es[j].time || (es[i].time == es[j].time && (es[i].ReturnEntry? ==> es[j].ReturnEntry?))
  {
    forall i, j | 0 <= i < j < |es| ensures !Less(es[j], es[i]) {
    }
  }

  // ---- preparing events ------------------------------------------------------------------

  datatype Event<+I, +O> =
    | CallEvent(clientId: int, id: int, input: I)
    | ReturnEvent(clientId: int, id: int, output: O)

  /** e is v under another id. */
  ghost predicate SameButId<I, O>(v: Event<I, O>, e: Event<I, O>)
  {
    match v
    case CallEvent(c, _, x) => e.CallEvent? && e.clientId == c && e.input == x
    case ReturnEvent(c, _, x) => e.ReturnEvent? && e.clientId == c && e.output == x
  }

  ghost predicate IdBefore<I, O>(e: seq<Event<I, O>>, i: nat, id: int)
  {
    exists j :: 0 <= j <= i && j < |e| && e[j].id == id
  }

  /** Every smaller id has occurred by the time an id occurs. */
  ghost predicate Dense<I, O>(e: seq<Event<I, O>>)
  {
    forall i: nat, id: nat | i < |e| && id <= e[i].id :: IdBefore(e, i, id)
  }

  method Renumber<I, O>(events: seq<Event<I, O>>) returns (e: seq<Event<I, O>>, ghost count: nat)
    ensures |e| == |events|
    ensures forall i | 0 <= i < |e| :: SameButId(events[i], e[i]) && e[i].id >= 0
    ensures forall i, j | 0 <= i < |e| && 0 <= j < |e| :: e[i].id == e[j].id <==> events[i].id == events[j].id
    ensures Dense(e)
    ensures forall id: int :: 0 <= id < count <==> IdBefore(e, |e|, id)
  {
    e := [];
    var m: map<int, nat> := map[];
    var id := 0;
    for k := 0 to |events|
      invariant |e| == k
      invariant forall i | 0 <= i < k :: SameButId(events[i], e[i])
      invariant forall i | 0 <= i < k :: events[i].id in m && m[events[i].id] == e[i].id < id
      invariant forall a, b | a in m && b in m && m[a] == m[b] :: a == b
      invariant forall a | a in m :: m[a] < id
      invariant forall n: nat | n < id :: IdBefore(e, |e|, n)
      invariant Dense(e)
    {
      var v := events[k];
      var r := if v.id in m then m[v.id] else id;
      ghost var before := e;
      e := e + [match v case CallEvent(c, _, x) => CallEvent(c, r, x) case ReturnEvent(c, _, x) => ReturnEvent(c, r, x)];
      if v.id !in m {
        m := m[v.id := id];
        id := id + 1;
      }
      assert e[k].id == r;
      forall n: nat | n < id ensures IdBefore(e, |e|, n) {
        if n != r { IdBeforeGrows(before, e, |before|, |e|, n); }
      }
      forall i: nat, n: nat | i < |e| && n <= e[i].id ensures IdBefore(e, i, n) {
        if i < k { IdBeforeGrows(before, e, i, i, n); } else { assert IdBefore(e, |e|, n); }
      }
    }
    count := id;
  }

  lemma IdBeforeGrows<I, O>(e: seq<Event<I, O>>, e': seq<Event<I, O>>, i: nat, i': nat, id: int)
    requires e <= e' && i <= i' && IdBefore(e, i, id)
    ensures IdBefore(e', i', id)
  {
    var j :| 0 <= j <= i && j < |e| && e[j].id == id;
    assert e'[j].id == id;
  }

  /** Uses the index as time. */
  method ConvertEntries<I, O>(events: seq<Event<I, O>>) returns (entries: seq<Entry<I, O>>)
    requires forall i | 0 <= i < |events| :: events[i].id >= 0
    ensures |entries| == |events|
    ensures forall i | 0 <= i < |entries| :: entries[i] == Converted(events[i], i)
    ensures forall i | 0 <= i < |entries| ::
      && entries[i].id == events[i].id && entries[i].time == i && entries[i].clientId == events[i].clientId
      && (events[i].CallEvent? ==> entries[i].CallEntry? && entries[i].input == events[i].input)
      && (events[i].ReturnEvent? ==> entries[i].ReturnEntry? && entries[i].output == events[i].output)
  {
    entries := [];
    for i := 0 to |events|
      invariant |entries| == i
      invariant forall k | 0 <= k < i :: entries[k] == Converted(events[k], k)
    {
      var elem := events[i];
      entries := entries + [
        match elem
        case CallEvent(c, id, x) => CallEntry(id, i, c, x)
        case ReturnEvent(c, id, x) => ReturnEntry(id, i, c, x)];
    }
  }

  ghost function Converted<I, O>(e: Event<I, O>, time: int): (r: Entry<I, O>)
    requires e.id >= 0
  {
    match e
    case CallEvent(c, id, x) => CallEntry(id, time, c, x)
    case ReturnEvent(c, id, x) => ReturnEntry(id, time, c, x)
  }

  /** Every id has exactly one call, followed by exactly one return. */
  ghost predicate Paired<I, O>(events: seq<Event<I, O>>)
  {
    && (forall i, j | 0 <= i < j < |events| && events[i].id == events[j].id ::
          events[i].CallEvent? && events[j].ReturnEvent?)
    && (forall i: nat | i < |events| :: HasPartner(events, i))
  }

  ghost predicate HasPartner<I, O>(events: seq<Event<I, O>>, i: nat)
    requires i < |events|
  {
    exists j :: 0 <= j < |events| && j != i && events[j].id == events[i].id
  }

  /** Paired events, renumbered and converted, form a well-formed history. */
  lemma RenumberedWellFormed<I, O>(events: seq<Event<I, O>>, e: seq<Event<I, O>>, count: nat, h: seq<Entry<I, O>>)
    requires Paired(events) && |e| == |events| == |h|
    requires forall i | 0 <= i < |e| :: SameButId(events[i], e[i]) && e[i].id >= 0 && h[i] == Converted(e[i], i)
    requires forall i, j | 0 <= i < |e| && 0 <= j < |e| :: e[i].id == e[j].id <==> events[i].id == events[j].id
    requires forall id: int :: 0 <= id < count <==> IdBefore(e, |e|, id)
    ensures WellFormed(h) && Size(h) == count
  {
    forall id: nat | id < count ensures Complete(h, id) {
      assert IdBefore(e, |e|, id);
      var i :| 0 <= i < |e| && e[i].id == id;
      assert HasPartner(events, i);
      var j :| 0 <= j < |events| && j != i && events[j].id == events[i].id;
      assert IsCall(h, if i < j then i else j, id);
      assert IsReturn(h, if i < j then j else i, id);
    }
    forall i: nat | i < |h| ensures h[i].id < count {
      assert IdBefore(e, |e|, e[i].id);
    }
    TwicePerId(h, count);
  }

  /** With one call and one return for each of n ids there are 2n entries. */
  lemma TwicePerId<I, O>(h: seq<Entry<I, O>>, n: nat)
    requires forall i: nat | i < |h| :: h[i].id < n
    requires forall i, j | 0 <= i < j < |h| && h[i].id == h[j].id :: h[i].CallEntry? && h[j].ReturnEntry?
    requires forall id: nat | id < n :: Complete(h, id)
    ensures |h| == 2 * n
  {
    var cs := CallsOf(h, n);
    var rs := ReturnsOf(h, n);
    var p := cs + rs;
    assert Distinct(p);
    DoneSize(p);
    forall i: nat | i < |h| ensures i in p {
      var id := h[i].id;
      assert cs[id] in p && rs[id] in p;
    }
    assert Done(p) == Range(|h|);
  }

  ghost function CallsOf<I, O>(h: seq<Entry<I, O>>, n: nat): (p: seq<nat>)
    requires forall id: nat | id < n :: Complete(h, id)
    ensures |p| == n && forall id: nat | id < n :: IsCall(h, p[id], id)
  {
    if n == 0 then [] else
      assert Complete(h, n - 1);
      var i: nat :| IsCall(h, i, n - 1); CallsOf(h, n - 1) + [i]
  }

  ghost function ReturnsOf<I, O>(h: seq<Entry<I, O>>, n: nat): (p: seq<nat>)
    requires forall id: nat | id < n :: Complete(h, id)
    ensures |p| == n && forall id: nat | id < n :: IsReturn(h, p[id], id)
  {
    if n == 0 then [] else
      assert Complete(h, n - 1);
      var i: nat :| IsReturn(h, i, n - 1); ReturnsOf(h, n - 1) + [i]
  }
}
