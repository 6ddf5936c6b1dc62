/**
 The checker as a whole, for the key/value model: split by key, turn each group into
 entries, search each, and combine the verdicts.
 */
module CheckOperations {
  import opened History
  import opened Operations
  import opened KvModel
  import opened Locality
  import opened KvMeaning
  import CS = CheckSingle
  import CP = CheckParallel

  /** legal[i] says whether the operations of group i alone are linearizable. */
  ghost predicate Searched(groups: seq<seq<KvOp>>, legal: seq<bool>)
  {
    && |legal| == |groups|
    && forall i | 0 <= i < |groups| :: legal[i] <==> OpsLinearizable(Kv(), groups[i])
  }

  lemma GroupsTimely(history: seq<KvOp>, keys: seq<string>, groups: seq<seq<KvOp>>, i: nat)
    requires Timely(history) && IsPartition(history, keys, groups) && i < |groups|
    ensures Timely(groups[i])
  {
    KeepMembers(history, {keys[i]});
  }

  lemma EveryGroup(history: seq<KvOp>, keys: seq<string>, groups: seq<seq<KvOp>>)
    requires Timely(history) && IsPartition(history, keys, groups)
    ensures OpsLinearizable(StoreModel(), history) <==>
      forall i | 0 <= i < |groups| :: OpsLinearizable(Kv(), groups[i])
  {
    StoreIffEveryKey(history);
    if forall i | 0 <= i < |groups| :: OpsLinearizable(Kv(), groups[i]) {
      forall k ensures OpsLinearizable(Kv(), On(history, k)) {
        if k in keys {
          var i :| 0 <= i < |keys| && keys[i] == k;
          assert groups[i] == On(history, k);
        } else {
          assert IsOrder(Kv(), On(history, k), []);
        }
      }
    } else {
      var i :| 0 <= i < |groups| && !OpsLinearizable(Kv(), groups[i]);
      assert groups[i] == On(history, keys[i]);
    }
  }

  lemma NotKilled(kill: nat -> int)
    requires forall t: nat :: kill(t) == 0
    ensures CS.NeverKilled(kill)
  {
  }

  /** Prepares and searches one group. */
  method SearchGroup(ops: seq<KvOp>) returns (legal: bool)
    requires Timely(ops)
    ensures legal <==> OpsLinearizable(Kv(), ops)
  {
    hide *;
    var entries := MakeEntries(ops);
    EntriesLinearizable(Kv(), ops, entries);
    var kill: nat -> int := _ => 0;
    assert CS.NeverKilled(kill) by { NotKilled(kill); }
    var ok, _, _ := CS.CheckSingle(Kv(), entries, false, kill);
    legal := ok;
  }

  /**
   Splits, prepares and searches: what the searches find when nothing interrupts them.
   All find their group linearizable exactly when the whole history is.
   */
  method SearchGroups(history: seq<KvOp>) returns (legal: seq<bool>, ghost keys: seq<string>, ghost groups: seq<seq<KvOp>>)
    requires Timely(history)
    ensures IsPartition(history, keys, groups)
    ensures Searched(groups, legal)
    ensures (forall i | 0 <= i < |legal| :: legal[i]) <==> KvLinearizable(history)
  {
    hide KvLinearizable; hide OpsLinearizable; hide Timely; hide IsPartition; hide ByKey; hide SameFutures;
    var parts;
    parts, keys := Partition(history);
    groups := parts;
    legal := [];
    for i := 0 to |parts|
      invariant |legal| == i
      invariant forall j | 0 <= j < i :: legal[j] <==> OpsLinearizable(Kv(), groups[j])
    {
      GroupsTimely(history, keys, groups, i);
      var ok := SearchGroup(parts[i]);
      legal := legal + [ok];
    }
    EveryGroup(history, keys, groups);
    StoreLinearizable(history);
  }

  /**
   The verdict on a key/value history, for every interleaving of the searches: Ok means
   that the history is linearizable, Illegal that it is not, and unless the time-out fired
   it is always one of the two. After a time-out it is Illegal exactly if a counted group
   is not linearizable, else Unknown.
   */
  lemma KvVerdict(history: seq<KvOp>, keys: seq<string>, groups: seq<seq<KvOp>>, c: CP.Config,
                  run: seq<CP.State>, steps: seq<CP.Step>, t: nat)
    requires Timely(history) && IsPartition(history, keys, groups) && Searched(groups, c.legal)
    requires CP.IsRun(c, run, steps) && t < |run| && run[t].phase.Finished?
    ensures run[t].phase.result == CP.Ok ==> KvLinearizable(history)
    ensures run[t].phase.result == CP.Illegal ==> !KvLinearizable(history)
    ensures !run[t].timedOut ==>
      run[t].phase.result == if KvLinearizable(history) then CP.Ok else CP.Illegal
    ensures run[t].timedOut ==>
      run[t].phase.result == if exists i :: i in run[t].counted && i < |groups| && !OpsLinearizable(Kv(), groups[i]) then CP.Illegal else CP.Unknown
  {
    hide OpsLinearizable; hide Timely; hide IsPartition; hide CP.IsRun; hide KvLinearizable; hide CP.Apply; hide CP.Enabled;
    EveryGroup(history, keys, groups);
    StoreLinearizable(history);
    CP.VerdictMeaning(c, run, steps, t);
    if !run[t].timedOut { CP.VerdictExact(c, run, steps, t); }
  }
}
