/**
 What it means that the key/value models accept a sequence of operations, said by position
 and without their step functions: every get answers what was written before it, namely the
 input of the last put followed by everything appended since.
 */
module KvMeaning {
  import opened History
  import opened Operations
  import opened KvModel

  type KvStep = Op<KvInput, KvOutput>

  /** Which operations are looked at: all of them, or those on one key. */
  type About = KvInput -> bool

  predicate IsGet(x: KvStep)
  {
    x.input.op == 0
  }

  predicate IsPut(about: About, x: KvStep)
  {
    about(x.input) && x.input.op == 1
  }

  predicate IsAppend(about: About, x: KvStep)
  {
    about(x.input) && x.input.op != 0 && x.input.op != 1
  }

  /** The position of the last put before position j, or -1. */
  function LastPut(about: About, ops: seq<KvStep>, j: nat): (p: int)
    requires j <= |ops|
    ensures -1 <= p < j
    ensures p >= 0 ==> IsPut(about, ops[p])
    ensures forall k | p < k < j :: !IsPut(about, ops[k])
  {
    if j == 0 then -1 else if IsPut(about, ops[j - 1]) then j - 1 else LastPut(about, ops, j - 1)
  }

  /** All appended values, one after the other. */
  function Appended(about: About, ops: seq<KvStep>): (v: string)
  {
    if ops == [] then ""
    else Appended(about, ops[..|ops| - 1]) + (if IsAppend(about, ops[|ops| - 1]) then ops[|ops| - 1].input.value else "")
  }

  /** What has been written before position j, if the value was s at the start. */
  function Written(about: About, s: string, ops: seq<KvStep>, j: nat): (v: string)
    requires j <= |ops|
  {
    var p := LastPut(about, ops, j);
    (if p < 0 then s else ops[p].input.value) + Appended(about, ops[p + 1..j])
  }

  lemma {:induction false} AppendedFront(about: About, x: KvStep, ops: seq<KvStep>)
    ensures Appended(about, [x] + ops) == (if IsAppend(about, x) then x.input.value else "") + Appended(about, ops)
    decreases |ops|
  {
    var all := [x] + ops;
    if ops == [] {
      assert all[..0] == [];
    } else {
      var k := |ops| - 1;
      assert all[..|all| - 1] == [x] + ops[..k] && all[|all| - 1] == ops[k];
      AppendedFront(about, x, ops[..k]);
    }
  }

  lemma {:induction false} LastPutTail(about: About, ops: seq<KvStep>, j: nat)
    requires 0 < j <= |ops|
    ensures LastPut(about, ops, j) >= 1 ==> LastPut(about, ops[1..], j - 1) == LastPut(about, ops, j) - 1
    ensures LastPut(about, ops, j) < 1 ==> LastPut(about, ops[1..], j - 1) == -1
  {
    if j > 1 {
      assert ops[1..][j - 2] == ops[j - 1];
      LastPutTail(about, ops, j - 1);
    }
  }

  /** The value after an operation, if it was s before. */
  function After(about: About, s: string, x: KvStep): (v: string)
  {
    if IsPut(about, x) then x.input.value else if IsAppend(about, x) then s + x.input.value else s
  }

  lemma WrittenTail(about: About, s: string, ops: seq<KvStep>, j: nat)
    requires 0 < j <= |ops|
    ensures Written(about, s, ops, j) == Written(about, After(about, s, ops[0]), ops[1..], j - 1)
  {
    hide LastPut; hide Appended;
    var (p, tail) := (LastPut(about, ops, j), ops[1..]);
    LastPutTail(about, ops, j);
    if p >= 1 {
      assert tail[p - 1] == ops[p] && tail[p..j - 1] == ops[p + 1..j];
    } else if p == 0 {
      assert tail[0..j - 1] == ops[1..j];
    } else {
      assert !IsPut(about, ops[0]);
      assert ops[0..j] == [ops[0]] + tail[0..j - 1];
      AppendedFront(about, ops[0], tail[0..j - 1]);
    }
  }

  lemma NothingWritten(about: About, s: string, ops: seq<KvStep>)
    ensures Written(about, s, ops, 0) == s
  {
  }

  // ---- one key ----------------------------------------------------------------------------

  predicate Any(x: KvInput)
  {
    true
  }

  /** The get at position j, if it is one, answers what was written before it. */
  predicate ReadsAt(s: string, ops: seq<KvStep>, j: int)
    requires 0 <= j < |ops|
  {
    IsGet(ops[j]) ==> ops[j].output.value == Written(Any, s, ops, j)
  }

  ghost predicate ReadsRight(s: string, ops: seq<KvStep>)
  {
    forall j | 0 <= j < |ops| :: ReadsAt(s, ops, j)
  }

  /** What a step of the single-key model requires, and the value it leaves. */
  lemma StepMeans(s: string, x: KvStep)
    ensures Step(s, x.input, x.output).1 == After(Any, s, x)
    ensures Step(s, x.input, x.output).0 <==> (IsGet(x) ==> x.output.value == s)
  {
  }

  lemma ReadsTail(s: string, ops: seq<KvStep>)
    requires ops != []
    ensures ReadsRight(s, ops) <==> (IsGet(ops[0]) ==> ops[0].output.value == s) && ReadsRight(After(Any, s, ops[0]), ops[1..])
  {
    hide Written; hide After;
    var (s', tail) := (After(Any, s, ops[0]), ops[1..]);
    NothingWritten(Any, s, ops);
    assert ReadsAt(s, ops, 0) <==> (IsGet(ops[0]) ==> ops[0].output.value == s);
    forall j | 0 < j < |ops| ensures ReadsAt(s, ops, j) <==> ReadsAt(s', tail, j - 1) {
      WrittenTail(Any, s, ops, j);
    }
    if ReadsRight(s, ops) {
      forall j | 0 <= j < |tail| ensures ReadsAt(s', tail, j) {
        assert ReadsAt(s, ops, j + 1);
      }
    }
    if ReadsRight(s', tail) {
      forall j | 0 < j < |ops| ensures ReadsAt(s, ops, j) {
        assert ReadsAt(s', tail, j - 1);
      }
      assert ReadsAt(s, ops, 0) ==> ReadsRight(s, ops);
    }
  }

  /** The single-key model accepts exactly the sequences in which every get answers the value written before it. */
  lemma {:induction false} KeyAccepts(s: string, ops: seq<KvStep>)
    ensures Accepts(Kv(), s, ops) <==> ReadsRight(s, ops)
    decreases |ops|
  {
    if ops != [] {
      StepMeans(s, ops[0]);
      hide Step; hide ReadsRight; hide After;
      KeyAccepts(After(Any, s, ops[0]), ops[1..]);
      ReadsTail(s, ops);
    }
  }

  // ---- the whole store ----------------------------------------------------------------------

  function OnKey(k: string): (about: About)
  {
    (x: KvInput) => x.key == k
  }

  /** The get at position j, if it is one, answers what was written to its key before it. */
  predicate StoreReadsAt(s: Store, ops: seq<KvStep>, j: int)
    requires 0 <= j < |ops|
  {
    IsGet(ops[j]) ==> ops[j].output.value == Written(OnKey(ops[j].input.key), Get(s, ops[j].input.key), ops, j)
  }

  ghost predicate StoreReadsRight(s: Store, ops: seq<KvStep>)
  {
    forall j | 0 <= j < |ops| :: StoreReadsAt(s, ops, j)
  }

  lemma StoreStepMeans(s: Store, x: KvStep, k: string)
    ensures Get(StoreStep(s, x.input, x.output).1, k) == After(OnKey(k), Get(s, k), x)
    ensures StoreStep(s, x.input, x.output).0 <==> (IsGet(x) ==> x.output.value == Get(s, x.input.key))
  {
  }

  lemma StoreReadsTail(s: Store, ops: seq<KvStep>, s': Store)
    requires ops != [] && s' == StoreStep(s, ops[0].input, ops[0].output).1
    ensures StoreReadsRight(s, ops) <==>
      (IsGet(ops[0]) ==> ops[0].output.value == Get(s, ops[0].input.key)) && StoreReadsRight(s', ops[1..])
  {
    hide Written; hide After; hide StoreStep; hide Get; hide OnKey;
    var tail := ops[1..];
    NothingWritten(OnKey(ops[0].input.key), Get(s, ops[0].input.key), ops);
    assert StoreReadsAt(s, ops, 0) <==> (IsGet(ops[0]) ==> ops[0].output.value == Get(s, ops[0].input.key));
    forall j | 0 < j < |ops| ensures StoreReadsAt(s, ops, j) <==> StoreReadsAt(s', tail, j - 1) {
      var k := ops[j].input.key;
      StoreStepMeans(s, ops[0], k);
      WrittenTail(OnKey(k), Get(s, k), ops, j);
    }
    if StoreReadsRight(s, ops) {
      forall j | 0 <= j < |tail| ensures StoreReadsAt(s', tail, j) {
        assert StoreReadsAt(s, ops, j + 1);
      }
    }
    if StoreReadsRight(s', tail) {
      forall j | 0 < j < |ops| ensures StoreReadsAt(s, ops, j) {
        assert StoreReadsAt(s', tail, j - 1);
      }
      assert StoreReadsAt(s, ops, 0) ==> StoreReadsRight(s, ops);
    }
  }

  /** The store accepts exactly the sequences in which every get answers the value written to its key before it. */
  lemma {:induction false} StoreMeans(s: Store, ops: seq<KvStep>)
    ensures Accepts(StoreModel(), s, ops) <==> StoreReadsRight(s, ops)
    decreases |ops|
  {
    if ops != [] {
      hide StoreStep; hide StoreReadsRight; hide Get;
      var s' := StoreStep(s, ops[0].input, ops[0].output).1;
      StoreStepMeans(s, ops[0], ops[0].input.key);
      StoreMeans(s', ops[1..]);
      StoreReadsTail(s, ops, s');
    }
  }

  /**
   A key/value history is linearizable: its operations can be put into an order that
   respects real time and in which every get answers what was written to its key before it.
   */
  ghost predicate KvLinearizable(history: seq<KvOp>)
  {
    exists l :: Explains(history, l)
  }

  ghost predicate Explains(history: seq<KvOp>, l: seq<KvOp>)
  {
    && multiset(l) == multiset(history) && RespectsTime(l)
    && forall j | 0 <= j < |l| && l[j].input.op == 0 ::
      l[j].output.value == Written(OnKey(l[j].input.key), "", Bare(l), j)
  }

  lemma StartsEmpty(l: seq<KvOp>)
    ensures StoreReadsRight(map[], Bare(l)) <==>
      forall j | 0 <= j < |l| && l[j].input.op == 0 :: l[j].output.value == Written(OnKey(l[j].input.key), "", Bare(l), j)
  {
    hide Written; hide OnKey; hide Bare;
    forall j | 0 <= j < |l|
      ensures StoreReadsAt(map[], Bare(l), j) <==>
        (l[j].input.op == 0 ==> l[j].output.value == Written(OnKey(l[j].input.key), "", Bare(l), j))
    {
      assert Get(map[], l[j].input.key) == "";
    }
  }

  /** Linearizability against the store model is just that. */
  lemma StoreLinearizable(history: seq<KvOp>)
    ensures OpsLinearizable(StoreModel(), history) <==> KvLinearizable(history)
  {
    hide RespectsTime; hide StoreReadsRight; hide Accepts; hide Bare; hide StoreStep; hide Written; hide OnKey;
    forall l ensures IsOrder(StoreModel(), history, l) <==> Explains(history, l) {
      StoreMeans(map[], Bare(l));
      StartsEmpty(l);
    }
    if l :| Explains(history, l) {
      assert IsOrder(StoreModel(), history, l);
    }
  }
}
