/** The class `blocks`, which cuts an index range into blocks, with the index
    type's truncating and promoting arithmetic written out. */
module Blocks {

  datatype Option<+T> = None | Some(value: T)

  // ---------- C++ integer types ----------

  /** An integer type of 8, 16, 32 or 64 bits. */
  datatype IntType = IntType(bits: nat, signed: bool) {
    predicate Valid() {
      bits == 8 || bits == 16 || bits == 32 || bits == 64
    }

    function Modulus(): nat {
      if bits == 8 then 0x100
      else if bits == 16 then 0x1_0000
      else if bits == 32 then 0x1_0000_0000
      else 0x1_0000_0000_0000_0000
    }

    function Min(): int {
      if signed then -(Modulus() / 2) else 0
    }

    function Max(): int {
      if signed then Modulus() / 2 - 1 else Modulus() - 1
    }

    predicate Has(x: int) {
      Min() <= x <= Max()
    }

    /** The value of a conversion to this type. */
    function Cast(x: int): int {
      var r := x % Modulus();
      if signed && r >= Modulus() / 2 then r - Modulus() else r
    }
  }

  /** `std::size_t`, and the `int` that narrow operands are promoted to. */
  const SIZE := IntType(64, false)
  const INT := IntType(32, true)

  function Promoted(t: IntType): IntType {
    if t.bits < 32 then INT else t
  }

  /** The result of an addition or subtraction of two values of type `t`, given
      the mathematical result: it wraps in an unsigned type and is undefined on
      overflow in a signed one. */
  function Arith(t: IntType, x: int): Option<int> {
    var p := Promoted(t);
    if !p.signed then Some(p.Cast(x)) else if p.Has(x) then Some(x) else None
  }

  // ---------- The mathematical blocks ----------

  function Smaller(a: nat, b: nat): nat {
    if a < b then a else b
  }

  /** The first index of block `b` of `n`, counted from 0. */
  function Offset(total: nat, n: nat, b: nat): nat
    requires n > 0
  {
    b * (total / n) + Smaller(b, total % n)
  }

  lemma OffsetEnds(total: nat, n: nat)
    requires n > 0
    ensures Offset(total, n, 0) == 0 && Offset(total, n, n) == total
  {
    assert n * (total / n) + total % n == total;
  }

  lemma LastOffset(total: nat, n: nat, b: nat)
    requires n > 0 && b == n - 1
    ensures Offset(total, n, b + 1) == total
  {
    OffsetEnds(total, n);
  }

  /** Consecutive blocks are contiguous; their sizes differ by at most one, the
      larger ones first, and no block is empty. */
  lemma OffsetStep(total: nat, n: nat, b: nat)
    requires 0 < n <= total && b < n
    ensures Offset(total, n, b + 1) == Offset(total, n, b) + total / n + (if b < total % n then 1 else 0)
    ensures total / n >= 1
  {
    assert (b + 1) * (total / n) == b * (total / n) + total / n;
    assert n * (total / n) + total % n == total;
  }

  lemma {:induction false} OffsetMonotone(total: nat, n: nat, b: nat, c: nat)
    requires 0 < n <= total && b <= c <= n
    ensures Offset(total, n, b) <= Offset(total, n, c) <= total
    decreases n - b
  {
    OffsetEnds(total, n);
    if b < c {
      OffsetStep(total, n, b);
      OffsetMonotone(total, n, b + 1, c);
    } else if b < n {
      OffsetStep(total, n, b);
      OffsetMonotone(total, n, b + 1, n);
    }
  }

  // ---------- The arithmetic of the class ----------

  /** Whether the constructor's subtraction of the two bounds is defined. */
  predicate Defined(t: IntType, first: int, last: int) {
    Arith(t, last - first).Some?
  }

  /** A bound plus two `size_t` summands that are first cast to the index type;
      the sum is converted back to it. */
  function AddCasts(t: IntType, a: int, x: nat, y: nat): Option<int> {
    match Arith(t, a + t.Cast(x))
    case None => None
    case Some(sum) =>
      match Arith(t, sum + t.Cast(y))
      case None => None
      case Some(r) => Some(t.Cast(r))
  }

  /** `start(block)`. */
  function StartOf(t: IntType, first: int, blockSize: nat, remainder: nat, block: nat): Option<int> {
    AddCasts(t, first, SIZE.Cast(block * blockSize), Smaller(block, remainder))
  }

  lemma CastHas(t: IntType, x: int)
    requires t.Valid()
    ensures t.Has(t.Cast(x))
  {
  }

  lemma CastInRange(t: IntType, x: int)
    requires t.Valid() && t.Has(x)
    ensures t.Cast(x) == x
  {
  }

  /** A cast gives the value of the type that differs by a multiple of the modulus,
      which is the number of values of the type. */
  lemma CastWraps(t: IntType, x: int) returns (k: int)
    requires t.Valid()
    ensures t.Cast(x) == x - t.Modulus() * k && t.Has(t.Cast(x))
    ensures t.Max() - t.Min() + 1 == t.Modulus()
  {
    k := x / t.Modulus();
    assert x == t.Modulus() * k + x % t.Modulus();
    if t.Cast(x) < 0 { k := k + 1; }
  }

  lemma CastBack(t: IntType, x: int, k: int)
    requires t.bits == 8 || t.bits == 16
    requires t.Has(x)
    ensures t.Cast(x - t.Modulus() * k) == x
  {
    if t.bits == 8 { Mod8(x, k); } else { Mod16(x, k); }
  }

  lemma Mod8(x: int, k: int)
    ensures (x - 0x100 * k) % 0x100 == x % 0x100
  {
  }

  lemma Mod16(x: int, k: int)
    ensures (x - 0x1_0000 * k) % 0x1_0000 == x % 0x1_0000
  {
  }

  /** Adding truncated summands and truncating again loses nothing that the type
      can hold. */
  lemma CastOfSum(t: IntType, a: int, x: int, y: int)
    requires t.Valid() && t.bits < 32 && t.Has(a + x + y)
    ensures t.Cast(a + t.Cast(x) + t.Cast(y)) == a + x + y
  {
    var i := CastWraps(t, x);
    var j := CastWraps(t, y);
    assert t.Modulus() * (i + j) == t.Modulus() * i + t.Modulus() * j;
    CastBack(t, a + x + y, i + j);
  }

  lemma NarrowSum(t: IntType, a: int, x: int, y: int)
    requires t.Valid() && t.bits < 32 && t.Has(a)
    ensures Arith(t, a + t.Cast(x)) == Some(a + t.Cast(x))
    ensures Arith(t, a + t.Cast(x) + t.Cast(y)) == Some(a + t.Cast(x) + t.Cast(y))
  {
  }

  lemma WideSum(t: IntType, a: int, x: nat)
    requires t.Valid() && t.bits >= 32 && t.Has(a) && t.Has(a + x)
    ensures Arith(t, a + x) == Some(a + x)
  {
  }

  lemma AddCastsNarrow(t: IntType, a: int, x: nat, y: nat)
    requires t.Valid() && t.bits < 32 && t.Has(a) && t.Has(a + x + y)
    ensures AddCasts(t, a, x, y) == Some(a + x + y)
  {
    NarrowSum(t, a, x, y);
    CastOfSum(t, a, x, y);
  }

  lemma AddCastsWide(t: IntType, a: int, x: nat, y: nat)
    requires t.Valid() && t.bits >= 32 && t.Has(a) && t.Has(a + x + y) && t.Has(x + y)
    ensures AddCasts(t, a, x, y) == Some(a + x + y)
  {
    CastInRange(t, x);
    CastInRange(t, y);
    WideSum(t, a, x);
    WideSum(t, a + x, y);
    CastInRange(t, a + x + y);
  }

  lemma SizeCast(t: IntType, total: nat, x: nat)
    requires t.Valid() && total <= t.Max() - t.Min() && x <= total
    ensures SIZE.Cast(x) == x
  {
  }

  /** `start(block)` is the mathematical bound, whenever the constructor's
      subtraction is defined. */
  lemma StartExact(t: IntType, first: int, last: int, n: nat, b: nat)
    requires t.Valid() && t.Has(first) && t.Has(last) && first < last
    requires Defined(t, first, last) && b < n <= last - first
    ensures var total := last - first;
      StartOf(t, first, total / n, total % n, b) == Some(first + Offset(total, n, b))
  {
    var total: nat := last - first;
    OffsetMonotone(total, n, b, n);
    StartParts(t, first, last, b, total / n, total % n, b * (total / n));
  }

  lemma StartParts(t: IntType, first: int, last: int, b: nat, blockSize: nat, remainder: nat, product: nat)
    requires t.Valid() && t.Has(first) && t.Has(last) && first < last && Defined(t, first, last)
    requires product == b * blockSize && product + Smaller(b, remainder) <= last - first
    ensures StartOf(t, first, blockSize, remainder, b) == Some(first + product + Smaller(b, remainder))
  {
    AddCastsExact(t, first, last, product, Smaller(b, remainder));
    assert StartOf(t, first, blockSize, remainder, b) == AddCasts(t, first, SIZE.Cast(product), Smaller(b, remainder));
  }

  lemma AddCastsExact(t: IntType, first: int, last: int, x: nat, y: nat)
    requires t.Valid() && t.Has(first) && t.Has(last)
    requires first < last && Defined(t, first, last) && x + y <= last - first
    ensures AddCasts(t, first, SIZE.Cast(x), y) == Some(first + x + y)
  {
    SizeCast(t, last - first, x);
    if t.bits < 32 {
      AddCastsNarrow(t, first, x, y);
    } else {
      DefinedExactlyWhen(t, first, last);
      AddCastsWide(t, first, x, y);
    }
  }

  /** The constructor is defined for every range of an 8- or 16-bit type and of an
      unsigned type, and for a 32- or 64-bit signed type exactly when the length
      of the range fits the type. */
  lemma DefinedExactlyWhen(t: IntType, first: int, last: int)
    requires t.Valid() && t.Has(first) && t.Has(last) && first < last
    ensures Defined(t, first, last) <==> t.bits < 32 || !t.signed || last - first <= t.Max()
    ensures Defined(t, first, last) ==> SIZE.Cast(Arith(t, last - first).value) == last - first
  {
  }

  // ---------- The class ----------

  class Blocks {
    const t: IntType
    const first: int
    const last: int
    var blockSize: nat
    var numBlocks: nat
    var remainder: nat

    ghost predicate Valid()
      reads this
    {
      && t.Valid() && t.Has(first) && t.Has(last)
      && (first >= last ==> numBlocks == 0)
      && (first < last ==>
            && Defined(t, first, last)
            && 1 <= numBlocks <= last - first
            && blockSize == (last - first) / numBlocks
            && remainder == (last - first) % numBlocks)
    }

    /** The caller passes at least one block, and a range whose length the index
        type can represent if that type is `int` or a wider signed one. */
    constructor (t: IntType, first: int, last: int, num: nat)
      requires t.Valid() && t.Has(first) && t.Has(last)
      requires first < last ==> num >= 1 && Defined(t, first, last)
      ensures Valid()
      ensures this.t == t && this.first == first && this.last == last
      ensures first >= last ==> numBlocks == 0
      ensures first < last ==>
          1 <= numBlocks <= num && numBlocks <= last - first && (numBlocks == num || numBlocks == last - first)
    {
      this.t, this.first, this.last := t, first, last;
      numBlocks, blockSize, remainder := num, 0, 0;
      new;
      if last > first {
        DefinedExactlyWhen(t, first, last);
        var totalSize: nat := SIZE.Cast(Arith(t, last - first).value);
        numBlocks := Smaller(numBlocks, totalSize);
        blockSize := totalSize / numBlocks;
        remainder := totalSize % numBlocks;
        OffsetStep(totalSize, numBlocks, 0);
        if blockSize == 0 {
          // Unreachable: there are at most as many blocks as indices.
          assert false;
        }
      } else {
        numBlocks := 0;
      }
    }

    /** The first index of a block is the mathematical one. */
    function Start(block: nat): (r: Option<int>)
      requires Valid() && block < numBlocks
      reads this
      ensures r == Some(first + Offset(last - first, numBlocks, block))
    {
      StartExact(t, first, last, numBlocks, block);
      StartOf(t, first, blockSize, remainder, block)
    }

    /** A block ends where the next one starts, and the last one at the end of the
        range. */
    function End(block: nat): (r: Option<int>)
      requires Valid() && block < numBlocks
      reads this
      ensures r == Some(first + Offset(last - first, numBlocks, block + 1))
    {
      if block == numBlocks - 1 then
        LastOffset(last - first, numBlocks, block);
        Some(last)
      else
        Start(block + 1)
    }
  }

  // ---------- The common type of two index types ----------

  function Wider(a: IntType, b: IntType): IntType {
    if a.bits >= b.bits then a else b
  }

  function CommonType(a: IntType, b: IntType): IntType {
    if a.signed == b.signed then Wider(a, b)
    else
      var s, u := if a.signed then a else b, if a.signed then b else a;
      var larger := if s.bits > u.bits then s.bits else u.bits;
      if larger <= 32 then
        if larger == 8 || (s.bits == 16 && u.bits == 8) then IntType(16, true)
        else if larger == 16 || (s.bits == 32 && u.bits < 32) then IntType(32, true)
        else IntType(64, true)
      else if u.bits == 64 then IntType(64, false)
      else IntType(64, true)
  }

  predicate Covers(c: IntType, a: IntType) {
    c.Min() <= a.Min() && a.Max() <= c.Max()
  }

  /** The pairs whose common type cannot hold both: a signed type with the
      unsigned 64-bit one. */
  predicate Mismatched(a: IntType, b: IntType) {
    a.signed != b.signed && (if a.signed then b else a).bits == 64
  }

  /** The common type holds every value of both types exactly when they are not
      such a pair; it is then the narrowest type that does so and is signed if one
      of them is.  For such a pair it is the unsigned 64-bit type. */
  lemma CommonTypeExactlyWhen(a: IntType, b: IntType)
    requires a.Valid() && b.Valid()
    ensures CommonType(a, b).Valid()
    ensures Covers(CommonType(a, b), a) && Covers(CommonType(a, b), b) <==> !Mismatched(a, b)
    ensures Mismatched(a, b) ==> CommonType(a, b) == IntType(64, false)
    ensures !Mismatched(a, b) ==> CommonType(a, b).signed == (a.signed || b.signed)
    ensures forall c: IntType :: c.Valid() && c.signed == (a.signed || b.signed) && Covers(c, a) && Covers(c, b) ==>
        !Mismatched(a, b) ==> CommonType(a, b).bits <= c.bits
  {
  }

  /** Bounds that are cast to the common type are values of it. */
  lemma CommonBounds(a: IntType, b: IntType, first: int, last: int)
    requires a.Valid() && b.Valid()
    ensures var t := CommonType(a, b); t.Valid() && t.Has(t.Cast(first)) && t.Has(t.Cast(last))
  {
    CommonTypeExactlyWhen(a, b);
    CastHas(CommonType(a, b), first);
    CastHas(CommonType(a, b), last);
  }

  /** The cast of an index to the common type keeps it, unless it is a negative
      index of such a pair. */
  lemma CommonCastExactlyWhen(a: IntType, b: IntType, x: int)
    requires a.Valid() && b.Valid() && (a.Has(x) || b.Has(x))
    ensures CommonType(a, b).Cast(x) == x <==> !Mismatched(a, b) || x >= 0
  {
    CommonTypeExactlyWhen(a, b);
    if !Mismatched(a, b) || x >= 0 {
      CastInRange(CommonType(a, b), x);
    }
  }
}
