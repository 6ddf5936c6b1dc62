/**
 The word-packed set of operation ids used by the linearizability search.
 A bitset is a Go slice of 64-bit words changed in place; `Members` is the set
 of positions it stands for, and every operation is proved against that set.
 Words are numbers below 2^64 and the bitwise operators act digit by digit.
 */
module Bitset {

  const WORD_BITS: nat := 64

  /** 2^k, the value of `1 << k`. */
  function Pow2(k: nat): (p: nat)
    ensures p > 0
  {
    if k == 0 then 1 else 2 * Pow2(k - 1)
  }

  type Word = w: nat | w < Pow2(WORD_BITS) witness (assert Pow2(64) > 0; 0)

  predicate Bit(w: nat, k: nat)
  {
    if k == 0 then w % 2 == 1 else Bit(w / 2, k - 1)
  }

  function Or(a: nat, b: nat): (r: nat)
  {
    if a == 0 then b
    else 2 * Or(a / 2, b / 2) + (if a % 2 == 1 || b % 2 == 1 then 1 else 0)
  }

  function And(a: nat, b: nat): (r: nat)
  {
    if a == 0 then 0
    else 2 * And(a / 2, b / 2) + (if a % 2 == 1 && b % 2 == 1 then 1 else 0)
  }

  function AndNot(a: nat, b: nat): (r: nat)
  {
    if a == 0 then 0
    else 2 * AndNot(a / 2, b / 2) + (if a % 2 == 1 && b % 2 == 0 then 1 else 0)
  }

  function Xor(a: nat, b: nat): (r: nat)
    decreases a + b
  {
    if a == 0 then b
    else 2 * Xor(a / 2, b / 2) + (if a % 2 != b % 2 then 1 else 0)
  }

  /** The last digit of each operator, and its other digits. */
  lemma LowDigit(a: nat, b: nat)
    ensures a == 0 ==> Or(a, b) == b && And(a, b) == 0 && AndNot(a, b) == 0 && Xor(a, b) == b
    ensures a != 0 ==>
      && Or(a, b) / 2 == Or(a / 2, b / 2) && (Or(a, b) % 2 == 1 <==> a % 2 == 1 || b % 2 == 1)
      && And(a, b) / 2 == And(a / 2, b / 2) && (And(a, b) % 2 == 1 <==> a % 2 == 1 && b % 2 == 1)
      && AndNot(a, b) / 2 == AndNot(a / 2, b / 2) && (AndNot(a, b) % 2 == 1 <==> a % 2 == 1 && b % 2 == 0)
      && Xor(a, b) / 2 == Xor(a / 2, b / 2) && (Xor(a, b) % 2 == 1 <==> a % 2 != b % 2)
  {
  }

  lemma {:induction false} BitOps(a: nat, b: nat, k: nat)
    ensures Bit(Or(a, b), k) <==> Bit(a, k) || Bit(b, k)
    ensures Bit(And(a, b), k) <==> Bit(a, k) && Bit(b, k)
    ensures Bit(AndNot(a, b), k) <==> Bit(a, k) && !Bit(b, k)
    ensures Bit(Xor(a, b), k) <==> Bit(a, k) != Bit(b, k)
    decreases k
  {
    hide Or; hide And; hide AndNot; hide Xor;
    LowDigit(a, b);
    if a == 0 {
      BitZero(k);
    } else if k > 0 {
      BitOps(a / 2, b / 2, k - 1);
    }
  }

  lemma {:induction false} BitZero(k: nat)
    ensures !Bit(0, k)
  {
    if k > 0 {
      BitZero(k - 1);
    }
  }

  lemma {:induction false} BitPow2(i: nat, k: nat)
    ensures Bit(Pow2(i), k) <==> i == k
  {
    if i == 0 {
      if k > 0 { BitZero(k - 1); }
    } else if k > 0 {
      assert Pow2(i) / 2 == Pow2(i - 1);
      BitPow2(i - 1, k - 1);
    }
  }

  /** The operators keep words within 64 bits. */
  lemma {:induction false} OpsBound(a: nat, b: nat, k: nat)
    requires a < Pow2(k) && b < Pow2(k)
    ensures Or(a, b) < Pow2(k) && AndNot(a, b) < Pow2(k) && Xor(a, b) < Pow2(k)
    decreases k
  {
    if k > 0 && a > 0 {
      OpsBound(a / 2, b / 2, k - 1);
    }
  }

  lemma {:induction false} Pow2Monotone(i: nat, k: nat)
    requires i < k
    ensures Pow2(i) < Pow2(k)
  {
    if i < k - 1 {
      Pow2Monotone(i, k - 1);
    }
  }

  /** A number below 2^k is determined by its first k bits. */
  lemma {:induction false} BitsDetermine(v: nat, w: nat, k: nat)
    requires v < Pow2(k) && w < Pow2(k)
    requires forall i: nat | i < k :: Bit(v, i) <==> Bit(w, i)
    ensures v == w
    decreases k
  {
    if k > 0 {
      assert Bit(v, 0) <==> Bit(w, 0);
      forall i: nat | i < k - 1 ensures Bit(v / 2, i) <==> Bit(w / 2, i) {
        assert Bit(v, i + 1) <==> Bit(w, i + 1);
      }
      BitsDetermine(v / 2, w / 2, k - 1);
    }
  }

  function SetBit(w: Word, k: nat): (r: Word)
    requires k < WORD_BITS
    ensures forall i: nat :: Bit(r, i) <==> i == k || Bit(w, i)
  {
    Pow2Monotone(k, WORD_BITS);
    OpsBound(w, Pow2(k), WORD_BITS);
    assert forall i: nat :: Bit(Or(w, Pow2(k)), i) <==> i == k || Bit(w, i) by {
      forall i: nat ensures Bit(Or(w, Pow2(k)), i) <==> i == k || Bit(w, i) {
        BitOps(w, Pow2(k), i);
        BitPow2(k, i);
      }
    }
    Or(w, Pow2(k))
  }

  function ClearBit(w: Word, k: nat): (r: Word)
    requires k < WORD_BITS
    ensures forall i: nat :: Bit(r, i) <==> i != k && Bit(w, i)
  {
    Pow2Monotone(k, WORD_BITS);
    OpsBound(w, Pow2(k), WORD_BITS);
    assert forall i: nat :: Bit(AndNot(w, Pow2(k)), i) <==> i != k && Bit(w, i) by {
      forall i: nat ensures Bit(AndNot(w, Pow2(k)), i) <==> i != k && Bit(w, i) {
        BitOps(w, Pow2(k), i);
        BitPow2(k, i);
      }
    }
    AndNot(w, Pow2(k))
  }

  // ---- sets of positions -------------------------------------------------------

  predicate HasBit(ws: seq<Word>, pos: nat)
    requires pos < WORD_BITS * |ws|
  {
    Bit(ws[pos / WORD_BITS], pos % WORD_BITS)
  }

  /** The set a word sequence stands for. */
  ghost function Members(ws: seq<Word>): (s: set<nat>)
  {
    set p: nat | p < WORD_BITS * |ws| && HasBit(ws, p)
  }

  method NewBitset(bits: nat) returns (b: array<Word>)
    ensures fresh(b)
    ensures bits <= WORD_BITS * b.Length < bits + WORD_BITS
    ensures Members(b[..]) == {}
  {
    var extra := if bits % WORD_BITS != 0 then 1 else 0;
    b := new Word[bits / WORD_BITS + extra](_ => 0);
    forall p: nat | p < WORD_BITS * b.Length ensures !HasBit(b[..], p) {
      BitZero(p % WORD_BITS);
    }
  }

  method Clone(b: array<Word>) returns (c: array<Word>)
    ensures fresh(c) && c[..] == b[..]
  {
    c := new Word[b.Length](i requires 0 <= i < b.Length reads b => b[i]);
    assert c[..] == b[..];
  }

  /** Adds pos to the set, in place. */
  method Set(b: array<Word>, pos: nat) returns (r: array<Word>)
    requires pos < WORD_BITS * b.Length
    modifies b
    ensures r == b
    ensures Members(b[..]) == old(Members(b[..])) + {pos}
  {
    var major, minor := pos / WORD_BITS, pos % WORD_BITS;
    b[major] := SetBit(b[major], minor);
    r := b;
    ghost var before := old(b[..]);
    forall p: nat | p < WORD_BITS * b.Length ensures HasBit(b[..], p) <==> p == pos || HasBit(before, p) {
      assert p == WORD_BITS * (p / WORD_BITS) + p % WORD_BITS;
    }
  }

  /** Takes pos out of the set, in place. */
  method Clear(b: array<Word>, pos: nat) returns (r: array<Word>)
    requires pos < WORD_BITS * b.Length
    modifies b
    ensures r == b
    ensures Members(b[..]) == old(Members(b[..])) - {pos}
  {
    var major, minor := pos / WORD_BITS, pos % WORD_BITS;
    b[major] := ClearBit(b[major], minor);
    r := b;
    ghost var before := old(b[..]);
    forall p: nat | p < WORD_BITS * b.Length ensures HasBit(b[..], p) <==> p != pos && HasBit(before, p) {
      assert p == WORD_BITS * (p / WORD_BITS) + p % WORD_BITS;
    }
  }

  /** `b[major] & (1 << minor) != 0`. */
  method Get(b: array<Word>, pos: nat) returns (r: bool)
    requires pos < WORD_BITS * b.Length
    ensures r <==> pos in Members(b[..])
  {
    var major, minor := pos / WORD_BITS, pos % WORD_BITS;
    r := And(b[major], Pow2(minor)) != 0;
    AndPow2(b[major], minor);
    assert HasBit(b[..], pos) <==> r;
  }

  lemma AndPow2(w: nat, k: nat)
    ensures And(w, Pow2(k)) != 0 <==> Bit(w, k)
  {
    BitOps(w, Pow2(k), k);
    BitPow2(k, k);
    BitZero(k);
    if And(w, Pow2(k)) != 0 {
      var i := SomeBit(And(w, Pow2(k)));
      BitOps(w, Pow2(k), i);
      BitPow2(k, i);
    }
  }

  lemma {:induction false} SomeBit(w: nat) returns (i: nat)
    requires w > 0
    ensures Bit(w, i)
  {
    if w % 2 == 1 {
      i := 0;
    } else {
      i := SomeBit(w / 2);
      i := i + 1;
    }
  }

  // ---- counting, hashing, comparing ----------------------------------------------

  /** Number of set bits among the first k. */
  function Ones(w: nat, k: nat): (n: nat)
  {
    if k == 0 then 0 else Ones(w, k - 1) + (if Bit(w, k - 1) then 1 else 0)
  }

  function OnesCount64(w: Word): (n: nat)
  {
    Ones(w, WORD_BITS)
  }

  function Total(ws: seq<Word>): (n: nat)
  {
    if ws == [] then 0 else Total(ws[..|ws| - 1]) + OnesCount64(ws[|ws| - 1])
  }

  /** Positions of w's first k bits, shifted by base. */
  ghost function BitsAt(w: nat, k: nat, base: nat): (s: set<nat>)
    ensures |s| == Ones(w, k)
    ensures forall p: nat :: p in s <==> base <= p < base + k && Bit(w, p - base)
  {
    if k == 0 then {}
    else BitsAt(w, k - 1, base) + (if Bit(w, k - 1) then {base + (k - 1)} else {})
  }

  /** The members are those of all words but the last, and those of the last. */
  lemma LastWord(ws: seq<Word>)
    requires ws != []
    ensures var k := |ws| - 1;
      forall p: nat :: p in Members(ws) <==> p in Members(ws[..k]) || p in BitsAt(ws[k], WORD_BITS, WORD_BITS * k)
  {
    hide Bit; hide Ones; hide BitsAt;
    var k := |ws| - 1;
    forall p: nat ensures p in Members(ws) <==> p in Members(ws[..k]) || p in BitsAt(ws[k], WORD_BITS, WORD_BITS * k) {
      if p < WORD_BITS * k {
        assert HasBit(ws, p) == HasBit(ws[..k], p);
      } else if p < WORD_BITS * (k + 1) {
        assert p / WORD_BITS == k && p % WORD_BITS == p - WORD_BITS * k;
        assert HasBit(ws, p) == Bit(ws[k], p - WORD_BITS * k);
      }
    }
  }

  /** The population count is the number of members. */
  lemma {:induction false} TotalIsSize(ws: seq<Word>)
    ensures Total(ws) == |Members(ws)|
  {
    if ws != [] {
      hide Bit; hide Ones; hide BitsAt;
      var k := |ws| - 1;
      var front, last := ws[..k], BitsAt(ws[k], WORD_BITS, WORD_BITS * k);
      TotalIsSize(front);
      LastWord(ws);
      assert Members(ws) == Members(front) + last;
      assert Members(front) !! last;
    }
  }

  method Popcnt(b: array<Word>) returns (total: nat)
    ensures total == |Members(b[..])|
  {
    total := 0;
    for i := 0 to b.Length
      invariant total == Total(b[..i])
    {
      total := total + OnesCount64(b[i]);
      assert b[..i + 1][..i] == b[..i];
    }
    assert b[..b.Length] == b[..];
    TotalIsSize(b[..]);
  }

  function XorAll(ws: seq<Word>, start: Word): (x: Word)
  {
    if ws == [] then start
    else
      OpsBound(XorAll(ws[..|ws| - 1], start), ws[|ws| - 1], WORD_BITS);
      Xor(XorAll(ws[..|ws| - 1], start), ws[|ws| - 1])
  }

  /** The population count, as a 64-bit word, xor-ed with every word. */
  function HashOf(ws: seq<Word>): (x: Word)
  {
    XorAll(ws, Total(ws) % Pow2(WORD_BITS))
  }

  /** How many of the words have bit k. */
  function WordsWith(ws: seq<Word>, k: nat): (n: nat)
  {
    if ws == [] then 0 else WordsWith(ws[..|ws| - 1], k) + (if Bit(ws[|ws| - 1], k) then 1 else 0)
  }

  lemma {:induction false} XorAllBits(ws: seq<Word>, start: Word, k: nat)
    ensures Bit(XorAll(ws, start), k) <==> (WordsWith(ws, k) % 2 == 1) != Bit(start, k)
  {
    if ws != [] {
      hide Bit; hide Xor;
      var front := ws[..|ws| - 1];
      XorAllBits(front, start, k);
      BitOps(XorAll(front, start), ws[|ws| - 1], k);
    }
  }

  /**
   What the hash is, bit by bit: bit k is set exactly if an odd number of the words and, as
   one more, the number of members have it.
   */
  lemma HashBits(ws: seq<Word>, k: nat)
    ensures Bit(HashOf(ws), k) <==> (WordsWith(ws, k) % 2 == 1) != Bit(|Members(ws)| % Pow2(WORD_BITS), k)
  {
    TotalIsSize(ws);
    XorAllBits(ws, Total(ws) % Pow2(WORD_BITS), k);
  }

  method Hash(b: array<Word>) returns (hash: Word)
    ensures hash == HashOf(b[..])
  {
    var total := Popcnt(b);
    TotalIsSize(b[..]);
    ghost var start := Total(b[..]) % Pow2(WORD_BITS);
    hash := total % Pow2(WORD_BITS);
    for i := 0 to b.Length
      invariant hash == XorAll(b[..i], start)
    {
      OpsBound(hash, b[i], WORD_BITS);
      hash := Xor(hash, b[i]);
      assert b[..i + 1][..i] == b[..i];
    }
    assert b[..b.Length] == b[..];
  }

  /** Bitsets of one length hold the same words exactly when they hold the same members. */
  lemma WordsDetermine(v: seq<Word>, w: seq<Word>)
    requires |v| == |w|
    ensures v == w <==> Members(v) == Members(w)
  {
    if Members(v) == Members(w) {
      forall i | 0 <= i < |v| ensures v[i] == w[i] {
        forall k: nat | k < WORD_BITS ensures Bit(v[i], k) <==> Bit(w[i], k) {
          var p := WORD_BITS * i + k;
          assert p / WORD_BITS == i && p % WORD_BITS == k;
          assert HasBit(v, p) <==> p in Members(v);
          assert HasBit(w, p) <==> p in Members(w);
        }
        BitsDetermine(v[i], w[i], WORD_BITS);
      }
    }
  }

  method Equals(b: array<Word>, b2: array<Word>) returns (r: bool)
    ensures r <==> b[..] == b2[..]
    ensures b.Length == b2.Length ==> (r <==> Members(b[..]) == Members(b2[..]))
  {
    if b.Length == b2.Length { WordsDetermine(b[..], b2[..]); }
    if b.Length != b2.Length {
      return false;
    }
    for i := 0 to b.Length
      invariant b[..i] == b2[..i]
    {
      if b[i] != b2[i] {
        return false;
      }
    }
    assert b[..b.Length] == b[..] && b2[..b.Length] == b2[..];
    return true;
  }
}
