/**
 Why the search ends: a measure on the part of the permutation tree that is left. Each
 level weighs more than everything a deeper level can cost.
 */
module Termination {
  import opened NodeList

  function Times(a: nat, b: nat): (p: nat)
  {
    a * b
  }

  lemma TimesMonotone(a: nat, b: nat, w: nat)
    requires a <= b
    ensures Times(a, w) <= Times(b, w)
    ensures a < b ==> Times(a, w) + w <= Times(b, w)
  {
    if a < b {
      assert b * w == a * w + (b - a) * w;
      assert (b - a) * w >= w by { assert (b - a) * w == w + (b - a - 1) * w; }
    }
  }

  /** More than any level with k operations left to choose can cost, over `len` entries. */
  ghost function Weight(len: nat, k: nat): (w: nat)
    ensures w > 0
  {
    if k == 0 then 1 else Times(len, Weight(len, k - 1)) + 1
  }

  /** What the entries after each chosen call may still cost, level by level. */
  ghost function Pending(f: Layout, path: seq<nat>): (w: nat)
    requires ValidPath(f, path)
    requires |path| <= |f.call|
  {
    if path == [] then 0
    else
      var k := |path| - 1;
      Pending(f, path[..k]) + Times(f.len - f.call[path[k]] - 1, Weight(f.len, |f.call| - k))
  }

  /** A bound on the loop iterations left with the cursor on position p. */
  ghost function Budget(f: Layout, path: seq<nat>, p: nat): (w: nat)
    requires ValidPath(f, path) && |path| <= |f.call| && p <= f.len
  {
    Pending(f, path) + Times(f.len - p, Weight(f.len, |f.call| - |path|))
  }

  lemma BudgetSkip(f: Layout, path: seq<nat>, p: nat, next: nat)
    requires ValidPath(f, path) && |path| <= |f.call| && p < next <= f.len
    ensures Budget(f, path, next) < Budget(f, path, p)
  {
    TimesMonotone(f.len - next, f.len - p, Weight(f.len, |f.call| - |path|));
  }

  lemma BudgetPush(f: Layout, path: seq<nat>, id: nat, next: nat)
    requires ValidPath(f, path) && ValidPath(f, path + [id]) && |path| < |f.call| && id < |f.call| && next <= f.len
    ensures Budget(f, path + [id], next) < Budget(f, path, f.call[id])
  {
    var w := Weight(f.len, |f.call| - |path|);
    var w' := Weight(f.len, |f.call| - |path| - 1);
    var after := path + [id];
    assert after[..|path|] == path && after[|path|] == id;
    TimesMonotone(f.len - next, f.len, w');
    TimesMonotone(f.len - f.call[id] - 1, f.len - f.call[id], w);
  }

  lemma BudgetPop(f: Layout, path: seq<nat>, p: nat, next: nat)
    requires ValidPath(f, path) && 0 < |path| <= |f.call| && p < f.len
    requires f.call[path[|path| - 1]] < next <= f.len
    ensures ValidPath(f, path[..|path| - 1])
    ensures Budget(f, path[..|path| - 1], next) < Budget(f, path, p)
  {
    var k := |path| - 1;
    TimesMonotone(f.len - next, f.len - f.call[path[k]] - 1, Weight(f.len, |f.call| - k));
    TimesMonotone(0, f.len - p, Weight(f.len, |f.call| - |path|));
  }
}
