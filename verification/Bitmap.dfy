/** 64-bit words, bit by bit. A word is a number; the bitwise operations are defined on its binary digits. */
module Words {

  const PART_BITS: nat := 64

  function Pow2(n: nat): (p: nat)
    ensures 0 < p
  {
    if n == 0 then 1 else 2 * Pow2(n - 1)
  }

  type Word = w: nat | w < Pow2(PART_BITS) witness 0

  /** A word has 64 bits. */
  lemma WordRange()
    ensures Pow2(PART_BITS) == 0x1_0000_0000_0000_0000
  {
    hide Pow2;
    Pow2One();
    Pow2Squared(1, 2);
    Pow2Squared(2, 4);
    Pow2Squared(4, 16);
    Pow2Squared(8, 0x100);
    Pow2Squared(16, 0x1_0000);
    Pow2Squared(32, 0x1_0000_0000);
  }

  lemma {:induction false} Pow2Sum(a: nat, b: nat)
    ensures Pow2(a + b) == Pow2(a) * Pow2(b)
    decreases b
  {
    if b > 0 {
      Pow2Sum(a, b - 1);
      assert Pow2(a) * (2 * Pow2(b - 1)) == 2 * (Pow2(a) * Pow2(b - 1));
    }
  }

  lemma Pow2Squared(a: nat, v: nat)
    requires Pow2(a) == v
    ensures Pow2(a + a) == v * v
  {
    Pow2Sum(a, a);
  }

  lemma Pow2One()
    ensures Pow2(1) == 2
  {
  }

  predicate Bit(w: nat, k: nat) {
    if k == 0 then w % 2 == 1 else Bit(w / 2, k - 1)
  }

  function And(v: nat, w: nat): nat {
    if v == 0 || w == 0 then 0 else 2 * And(v / 2, w / 2) + (v % 2) * (w % 2)
  }

  function Or(v: nat, w: nat): nat {
    if v == 0 then w
    else if w == 0 then v
    else 2 * Or(v / 2, w / 2) + if v % 2 == 1 || w % 2 == 1 then 1 else 0
  }

  /** The complement of an `n`-bit word. */
  function Not(w: nat, n: nat): nat
    requires w < Pow2(n)
  {
    Pow2(n) - 1 - w
  }

  /** The `if` test of the source: a word masked with one bit is not zero. */
  predicate HasBit(w: nat, k: nat) {
    And(w, Pow2(k)) != 0
  }

  lemma {:induction false} ZeroBit(k: nat)
    ensures !Bit(0, k)
  {
    if k > 0 {
      ZeroBit(k - 1);
    }
  }

  lemma {:induction false} AndBit(v: nat, w: nat, k: nat)
    ensures Bit(And(v, w), k) <==> Bit(v, k) && Bit(w, k)
    decreases k
  {
    if v == 0 || w == 0 {
      ZeroBit(k);
    } else if k > 0 {
      AndBit(v / 2, w / 2, k - 1);
    }
  }

  lemma {:induction false} OrBit(v: nat, w: nat, k: nat)
    ensures Bit(Or(v, w), k) <==> Bit(v, k) || Bit(w, k)
    decreases k
  {
    if v == 0 || w == 0 {
      ZeroBit(k);
    } else if k > 0 {
      OrBit(v / 2, w / 2, k - 1);
    }
  }

  lemma {:induction false} NotBit(w: nat, n: nat, k: nat)
    requires w < Pow2(n) && k < n
    ensures Bit(Not(w, n), k) <==> !Bit(w, k)
    decreases k
  {
    assert Not(w, n) / 2 == Not(w / 2, n - 1);
    if k > 0 {
      NotBit(w / 2, n - 1, k - 1);
    }
  }

  lemma {:induction false} Pow2Bit(k: nat, j: nat)
    ensures Bit(Pow2(k), j) <==> j == k
    decreases j
  {
    if j > 0 {
      if k > 0 {
        Pow2Bit(k - 1, j - 1);
      } else {
        ZeroBit(j - 1);
      }
    }
  }

  lemma {:induction false} HasBitIsBit(w: nat, k: nat)
    ensures HasBit(w, k) <==> Bit(w, k)
    decreases k
  {
    if w == 0 {
      ZeroBit(k);
    } else if k == 0 {
      assert And(w / 2, 0) == 0;
    } else {
      HasBitIsBit(w / 2, k - 1);
      assert Pow2(k) / 2 == Pow2(k - 1) && Pow2(k) % 2 == 0;
    }
  }

  lemma {:induction false} Pow2Monotone(k: nat, n: nat)
    requires k < n
    ensures Pow2(k) < Pow2(n)
    decreases n
  {
    if k < n - 1 {
      Pow2Monotone(k, n - 1);
    }
  }

  lemma {:induction false} AndFits(v: nat, w: nat)
    ensures And(v, w) <= v
    decreases v
  {
    if v != 0 && w != 0 {
      AndFits(v / 2, w / 2);
    }
  }

  lemma {:induction false} OrFits(v: nat, w: nat, n: nat)
    requires v < Pow2(n) && w < Pow2(n)
    ensures Or(v, w) < Pow2(n)
    decreases n
  {
    if v != 0 && w != 0 {
      OrFits(v / 2, w / 2, n - 1);
    }
  }

  /** Two words with the same bits are the same word. */
  lemma {:induction false} SameBits(v: nat, w: nat, n: nat)
    requires v < Pow2(n) && w < Pow2(n)
    requires forall k: nat | k < n :: Bit(v, k) == Bit(w, k)
    ensures v == w
    decreases n
  {
    if n > 0 {
      forall k: nat | k < n - 1
        ensures Bit(v / 2, k) == Bit(w / 2, k)
      {
        assert Bit(v, k + 1) == Bit(w, k + 1);
      }
      SameBits(v / 2, w / 2, n - 1);
      assert Bit(v, 0) == Bit(w, 0);
    }
  }
}

/** A bitmap packed into 64-bit words, as a set of indices. */
module Bitmap {
  import opened Words

  /** How many words hold `bits` bits. */
  function DataLen(bits: nat): (n: nat)
    ensures bits <= n * PART_BITS < bits + PART_BITS
  {
    (bits + (PART_BITS - 1)) / PART_BITS * PART_BITS / PART_BITS
  }

  predicate Has(words: seq<Word>, i: nat) {
    i / PART_BITS < |words| && Bit(words[i / PART_BITS], i % PART_BITS)
  }

  /** Every set bit of the words, those past the end of the bitmap included. */
  ghost function Stored(words: seq<Word>): set<nat> {
    set i: nat | i < |words| * PART_BITS && Has(words, i)
  }

  ghost function Cut(s: set<nat>, n: nat): set<nat> {
    set i | i in s && i < n
  }

  /** Cutting an intersection is intersecting what was cut, exactly when `a` meets nothing of `b` past its end. */
  lemma CutMeet(a: set<nat>, b: set<nat>, n: nat, m: nat)
    ensures Cut(a * b, n) == Cut(a, n) * Cut(b, m) <==> Cut(a, n) * (b - Cut(b, m)) == {}
    ensures n <= m ==> Cut(a * b, n) == Cut(a, n) * Cut(b, m)
  {
    var beyond := Cut(a, n) * (b - Cut(b, m));
    assert forall x :: x in beyond <==> x in Cut(a * b, n) && x !in Cut(a, n) * Cut(b, m);
    assert forall x :: x in Cut(a, n) * Cut(b, m) ==> x in Cut(a * b, n);
    if n <= m {
      assert forall x :: x !in beyond;
    }
  }

  lemma CutJoin(a: set<nat>, b: set<nat>, n: nat, m: nat, k: nat)
    requires n <= k
    ensures Cut(a + Cut(b, k), n) == Cut(a, n) + Cut(b, n)
    ensures n == m ==> Cut(b, n) == Cut(b, m)
  {
  }

  lemma StoredHas(words: seq<Word>, i: nat)
    ensures i in Stored(words) <==> Has(words, i)
  {
  }

  lemma StoredSet(words: seq<Word>, i: nat, w: Word)
    requires i / PART_BITS < |words| && w == Or(words[i / PART_BITS], Pow2(i % PART_BITS))
    ensures Stored(words[i / PART_BITS := w]) == Stored(words) + {i}
  {
    forall j: nat
      ensures Has(words[i / PART_BITS := w], j) <==> j == i || Has(words, j)
    {
      if j / PART_BITS == i / PART_BITS {
        OrBit(words[i / PART_BITS], Pow2(i % PART_BITS), j % PART_BITS);
        Pow2Bit(i % PART_BITS, j % PART_BITS);
      }
    }
  }

  lemma StoredClear(words: seq<Word>, i: nat, w: Word)
    requires i / PART_BITS < |words| && Pow2(i % PART_BITS) < Pow2(PART_BITS)
    requires w == And(words[i / PART_BITS], Not(Pow2(i % PART_BITS), PART_BITS))
    ensures Stored(words[i / PART_BITS := w]) == Stored(words) - {i}
  {
    hide And, Not, Pow2;
    var mask := Not(Pow2(i % PART_BITS), PART_BITS);
    forall j: nat
      ensures Has(words[i / PART_BITS := w], j) <==> j != i && Has(words, j)
    {
      if j / PART_BITS == i / PART_BITS {
        AndBit(words[i / PART_BITS], mask, j % PART_BITS);
        NotBit(Pow2(i % PART_BITS), PART_BITS, j % PART_BITS);
        Pow2Bit(i % PART_BITS, j % PART_BITS);
      }
    }
  }

  lemma StoredAnd(v: seq<Word>, w: seq<Word>, r: seq<Word>)
    requires |r| == |v|
    requires forall k | 0 <= k < |r| :: r[k] == if k < |w| then And(v[k], w[k]) else 0
    ensures Stored(r) == Stored(v) * Stored(w)
  {
    forall i: nat
      ensures Has(r, i) <==> Has(v, i) && Has(w, i)
    {
      var k := i / PART_BITS;
      if k < |r| {
        if k < |w| {
          AndBit(v[k], w[k], i % PART_BITS);
        } else {
          ZeroBit(i % PART_BITS);
        }
      }
    }
  }

  lemma StoredOr(v: seq<Word>, w: seq<Word>, r: seq<Word>)
    requires |r| == |v|
    requires forall k | 0 <= k < |r| :: r[k] == if k < |w| then Or(v[k], w[k]) else v[k]
    ensures Stored(r) == Stored(v) + Cut(Stored(w), |r| * PART_BITS)
  {
    forall i: nat
      ensures Has(r, i) <==> Has(v, i) || (Has(w, i) && i < |r| * PART_BITS)
    {
      var k := i / PART_BITS;
      if k < |r| && k < |w| {
        OrBit(v[k], w[k], i % PART_BITS);
      }
    }
  }

  /** Words of the same length are the same words exactly when they store the same bits. */
  lemma StoredSame(v: seq<Word>, w: seq<Word>)
    requires |v| == |w|
    ensures v == w <==> Stored(v) == Stored(w)
  {
    hide Pow2, Stored;
    if Stored(v) == Stored(w) {
      forall k: nat | k < |v|
        ensures v[k] == w[k]
      {
        forall b: nat | b < PART_BITS
          ensures Bit(v[k], b) == Bit(w[k], b)
        {
          StoredHas(v, k * PART_BITS + b);
          StoredHas(w, k * PART_BITS + b);
        }
        SameBits(v[k], w[k], PART_BITS);
      }
    }
  }

  ghost predicate Ascending(s: seq<nat>) {
    forall i, j | 0 <= i < j < |s| :: s[i] < s[j]
  }

  class Bitmap {
    const size: nat
    const data: array<Word>

    predicate Valid() {
      data.Length == DataLen(size)
    }

    /** The set bits of the storage, those past the end included. */
    ghost function Bits(): set<nat>
      reads data
    {
      Stored(data[..])
    }

    /** The indices the bitmap holds. */
    ghost function Members(): set<nat>
      reads data
    {
      Cut(Bits(), size)
    }

    constructor (sz: nat)
      ensures Valid() && size == sz && fresh(data)
    {
      size := sz;
      data := new Word[DataLen(sz)];
    }

    constructor Copy(other: Bitmap)
      requires other.Valid()
      ensures Valid() && size == other.size && fresh(data)
      ensures Bits() == other.Bits()
    {
      size := other.size;
      data := new Word[DataLen(other.size)](i requires 0 <= i < other.data.Length reads other.data => other.data[i]);
      new;
      assert data[..] == other.data[..];
    }

    method IsSet(offset: nat) returns (r: bool)
      requires Valid() && offset < size
      ensures r <==> offset in Members()
    {
      r := HasBit(data[offset / PART_BITS], offset % PART_BITS);
      HasBitIsBit(data[offset / PART_BITS], offset % PART_BITS);
      StoredHas(data[..], offset);
    }

    method Set0(offset: nat)
      requires Valid() && offset < size
      modifies data
      ensures Bits() == old(Bits()) - {offset}
      ensures Members() == old(Members()) - {offset}
    {
      hide And, Or, Stored;
      var k := offset / PART_BITS;
      Pow2Monotone(offset % PART_BITS, PART_BITS);
      AndFits(data[k], Not(Pow2(offset % PART_BITS), PART_BITS));
      var w: Word := And(data[k], Not(Pow2(offset % PART_BITS), PART_BITS));
      StoredClear(data[..], offset, w);
      data[k] := w;
      assert data[..] == old(data[..])[k := w];
    }

    method Set1(offset: nat)
      requires Valid() && offset < size
      modifies data
      ensures Bits() == old(Bits()) + {offset}
      ensures Members() == old(Members()) + {offset}
    {
      hide And, Or, Stored;
      var k := offset / PART_BITS;
      Pow2Monotone(offset % PART_BITS, PART_BITS);
      OrFits(data[k], Pow2(offset % PART_BITS), PART_BITS);
      var w: Word := Or(data[k], Pow2(offset % PART_BITS));
      StoredSet(data[..], offset, w);
      data[k] := w;
      assert data[..] == old(data[..])[k := w];
    }

    method Set(offset: nat, value: bool)
      requires Valid() && offset < size
      modifies data
      ensures Bits() == if value then old(Bits()) + {offset} else old(Bits()) - {offset}
      ensures Members() == if value then old(Members()) + {offset} else old(Members()) - {offset}
    {
      if value {
        Set1(offset);
      } else {
        Set0(offset);
      }
    }

    method Equals(other: Bitmap) returns (r: bool)
      requires Valid() && other.Valid()
      ensures r <==> size == other.size && Bits() == other.Bits()
      ensures r ==> Members() == other.Members()
    {
      if size != other.size {
        return false;
      }
      StoredSame(data[..], other.data[..]);
      for i := 0 to DataLen(size)
        invariant data[..i] == other.data[..i]
      {
        if data[i] != other.data[i] {
          assert data[..][i] != other.data[..][i];
          return false;
        }
      }
      assert data[..] == data[..DataLen(size)] && other.data[..] == other.data[..DataLen(size)];
      return true;
    }

    /** Intersection. A shorter `other` counts as holding nothing past its last word. */
    method AndWith(other: Bitmap)
      requires Valid() && other.Valid()
      modifies data
      ensures Bits() == old(Bits() * other.Bits())
      ensures size <= other.size ==> Members() == old(Members() * other.Members())
      ensures Members() == old(Members() * other.Members()) <==> old(Members() * (other.Bits() - other.Members())) == {}
    {
      hide And, Or, Stored, Cut, DataLen;
      var effective := if size < other.size then size else other.size;
      var i := 0;
      while i < DataLen(effective)
        invariant 0 <= i <= DataLen(effective) <= data.Length
        invariant forall k | 0 <= k < i :: data[k] == And(old(data[k]), old(other.data[k]))
        invariant forall k | i <= k < data.Length :: data[k] == old(data[k])
        invariant forall k | i <= k < other.data.Length :: other.data[k] == old(other.data[k])
      {
        AndFits(data[i], other.data[i]);
        data[i] := And(data[i], other.data[i]);
        i := i + 1;
      }
      while i < DataLen(size)
        invariant DataLen(effective) <= i <= data.Length
        invariant forall k | 0 <= k < DataLen(effective) :: data[k] == And(old(data[k]), old(other.data[k]))
        invariant forall k | DataLen(effective) <= k < i :: data[k] == 0
      {
        data[i] := 0;
        i := i + 1;
      }
      StoredAnd(old(data[..]), old(other.data[..]), data[..]);
      CutMeet(old(Bits()), old(other.Bits()), size, other.size);
    }

    /** Union, cut at the end of this bitmap. */
    method OrWith(other: Bitmap)
      requires Valid() && other.Valid()
      modifies data
      ensures Bits() == old(Bits() + Cut(other.Bits(), DataLen(size) * PART_BITS))
      ensures Members() == old(Members() + Cut(other.Bits(), size))
      ensures size == other.size ==> Members() == old(Members() + other.Members())
    {
      hide And, Or, Stored, Cut, DataLen;
      var effective := if size < other.size then size else other.size;
      for i := 0 to DataLen(effective)
        invariant forall k | 0 <= k < i :: data[k] == Or(old(data[k]), old(other.data[k]))
        invariant forall k | i <= k < data.Length :: data[k] == old(data[k])
        invariant forall k | i <= k < other.data.Length :: other.data[k] == old(other.data[k])
      {
        OrFits(data[i], other.data[i], PART_BITS);
        data[i] := Or(data[i], other.data[i]);
      }
      StoredOr(old(data[..]), old(other.data[..]), data[..]);
      CutJoin(old(Bits()), old(other.Bits()), size, other.size, DataLen(size) * PART_BITS);
    }

    method Get0Indices() returns (r: seq<nat>)
      requires Valid()
      ensures Ascending(r)
      ensures forall x: nat :: x in r <==> x < size && x !in Members()
    {
      hide Stored;
      r := [];
      for i := 0 to size
        invariant Ascending(r) && forall k | 0 <= k < |r| :: r[k] < i
        invariant forall x: nat :: x in r <==> x < i && x !in Members()
      {
        var held := IsSet(i);
        if !held {
          r := r + [i];
        }
      }
    }

    method Get1Indices() returns (r: seq<nat>)
      requires Valid()
      ensures Ascending(r)
      ensures forall x: nat :: x in r <==> x in Members()
    {
      hide Stored;
      r := [];
      for i := 0 to size
        invariant Ascending(r) && forall k | 0 <= k < |r| :: r[k] < i
        invariant forall x: nat :: x in r <==> x < i && x in Members()
      {
        var held := IsSet(i);
        if held {
          r := r + [i];
        }
      }
    }
  }

  /** How a stray bit comes about: uniting a bitmap of one bit with a longer one that holds
      index 5 stores bit 5 past the end of the shorter. */
  method StrayBitExample() returns (short: Bitmap, long: Bitmap)
    ensures short.Valid() && long.Valid() && fresh(short.data) && fresh(long.data)
    ensures short.size == 1 && long.size == 6
    ensures 5 in long.Members() && 5 in short.Bits() && 5 !in short.Members()
  {
    short := new Bitmap(1);
    long := new Bitmap(6);
    long.Set1(5);
    assert 5 in long.Bits();
    short.OrWith(long);
  }

  /** What a stray bit does: intersecting with the bitmap that stores it keeps an index that
      the bitmap does not hold. */
  method StrayBitMet(long: Bitmap, short: Bitmap, i: nat)
    requires long.Valid() && short.Valid()
    requires i in long.Members() && i in short.Bits() && i !in short.Members()
    modifies long.data
    ensures i in long.Members() && i !in old(long.Members() * short.Members())
    ensures long.Members() != old(long.Members() * short.Members())
  {
    long.AndWith(short);
    assert i in long.Bits();
  }
}
