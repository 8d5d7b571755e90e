/**
 * The 64-bit board of the engine core.  The Rust `BitBoard` wraps a `u64`
 * with one bit per square, and every operator on it is the matching
 * operator on the word, so a board is modelled as its 64 bits, bit `s`
 * being square `s`.  `Value` reads the bits back as the unsigned number
 * they spell, and `FromWord` builds the board of a `u64` constant.
 */
module BitBoards {
  import opened Base

  type Sq = i: int | 0 <= i < 64

  type BitBoard = b: seq<bool> | |b| == 64 witness Zeros(64)

  /** `n` clear bits. */
  function Zeros(n: nat): (bs: seq<bool>)
    ensures |bs| == n && forall i :: 0 <= i < n ==> !bs[i]
  {
    seq(n, _ => false)
  }

  /** `n` set bits. */
  function Fill(n: nat): (bs: seq<bool>)
    ensures |bs| == n && forall i :: 0 <= i < n ==> bs[i]
  {
    seq(n, _ => true)
  }

  // ---------------------------------------------------------------------
  // Bits and numbers.

  function Pow2(n: nat): (p: nat)
    ensures p >= 1
  {
    if n == 0 then 1 else 2 * Pow2(n - 1)
  }

  lemma {:induction false} Pow2Add(a: nat, b: nat)
    ensures Pow2(a + b) == Pow2(a) * Pow2(b)
  {
    if a > 0 {
      Pow2Add(a - 1, b);
    }
  }

  lemma Pow2Of64()
    ensures Pow2(64) == U64_MAX + 1
  {
    assert Pow2(8) == 0x100;
    Pow2Add(8, 8);
    assert Pow2(16) == 0x1_0000;
    Pow2Add(16, 16);
    assert Pow2(32) == 0x1_0000_0000;
    Pow2Add(32, 32);
  }

  /** The unsigned number spelled by a bit list, least significant bit first. */
  function Bits(bs: seq<bool>): nat
  {
    if bs == [] then 0 else (if bs[0] then 1 else 0) + 2 * Bits(bs[1..])
  }

  /** The low `n` bits of `w`, least significant first. */
  function WordBits(w: nat, n: nat): (bs: seq<bool>)
    ensures |bs| == n
  {
    if n == 0 then [] else [w % 2 == 1] + WordBits(w / 2, n - 1)
  }

  lemma {:induction false} BitsBound(bs: seq<bool>)
    ensures Bits(bs) < Pow2(|bs|)
  {
    if bs != [] {
      BitsBound(bs[1..]);
    }
  }

  lemma {:induction false} BitsOfWordBits(w: nat, n: nat)
    requires w < Pow2(n)
    ensures Bits(WordBits(w, n)) == w
  {
    if n > 0 {
      BitsOfWordBits(w / 2, n - 1);
      assert WordBits(w, n)[1..] == WordBits(w / 2, n - 1);
    }
  }

  lemma {:induction false} WordBitsOfBits(bs: seq<bool>)
    ensures WordBits(Bits(bs), |bs|) == bs
  {
    if bs != [] {
      WordBitsOfBits(bs[1..]);
      assert Bits(bs) / 2 == Bits(bs[1..]);
    }
  }

  lemma {:induction false} BitsZero(bs: seq<bool>)
    ensures Bits(bs) == 0 <==> forall i :: 0 <= i < |bs| ==> !bs[i]
  {
    if bs != [] {
      BitsZero(bs[1..]);
      assert forall i :: 1 <= i < |bs| ==> bs[i] == bs[1..][i - 1];
    }
  }

  /** The number a list of bits spells, split at any point. */
  lemma {:induction false} BitsConcat(a: seq<bool>, b: seq<bool>)
    ensures Bits(a + b) == Bits(a) + Pow2(|a|) * Bits(b)
  {
    if a != [] {
      var ab := a + b;
      assert ab[0] == a[0] && ab[1..] == a[1..] + b;
      BitsConcat(a[1..], b);
      var k := Pow2(|a| - 1) * Bits(b);
      assert Pow2(|a|) == 2 * Pow2(|a| - 1);
      DoubledFactor(Pow2(|a| - 1), Bits(b));
      assert Bits(ab) == (if a[0] then 1 else 0) + 2 * (Bits(a[1..]) + k);
      assert Bits(a) == (if a[0] then 1 else 0) + 2 * Bits(a[1..]);
    } else {
      assert a + b == b;
    }
  }

  lemma DoubledFactor(p: int, x: int)
    ensures (2 * p) * x == 2 * (p * x)
  {
  }

  /** A run of `n` set bits spells `2^n - 1`. */
  lemma FillBits(n: nat)
    ensures Bits(Fill(n)) == Pow2(n) - 1
  {
    AllOnesBits(n);
    BitsOfWordBits(Pow2(n) - 1, n);
  }

  /** The `u64` a board wraps. */
  function Value(b: BitBoard): (v: nat)
    ensures v <= U64_MAX
  {
    BitsBound(b);
    Pow2Of64();
    Bits(b)
  }

  /** `BitBoard::new`: the board of a `u64`. */
  function FromWord(w: nat): (b: BitBoard)
    requires w <= U64_MAX
    ensures Value(b) == w
  {
    Pow2Of64();
    BitsOfWordBits(w, 64);
    WordBits(w, 64)
  }

  /** Boards and `u64` words are in one-to-one correspondence. */
  lemma WordRoundTrip(b: BitBoard)
    ensures FromWord(Value(b)) == b
  {
    WordBitsOfBits(b);
  }

  // ---------------------------------------------------------------------
  // Constructors.

  /** The set of occupied squares, the meaning of a board. */
  ghost function Squares(b: BitBoard): set<Sq>
  {
    set s: Sq | b[s]
  }

  const Empty: BitBoard := Zeros(64)

  /** `ones`: `new(u64::MAX)`. */
  const Ones: BitBoard := Fill(64)

  lemma EmptyAndOnes()
    ensures Value(Empty) == 0 && Squares(Empty) == {}
    ensures Value(Ones) == U64_MAX
  {
    BitsZero(Empty);
    OnesValue();
  }

  lemma OnesValue()
    ensures Value(Ones) == U64_MAX
  {
    Pow2Of64();
    AllOnesBits(64);
    assert WordBits(U64_MAX, 64) == Ones;
    BitsOfWordBits(U64_MAX, 64);
  }

  lemma {:induction false} AllOnesBits(n: nat)
    ensures WordBits(Pow2(n) - 1, n) == Fill(n)
  {
    if n > 0 {
      AllOnesBits(n - 1);
      assert (Pow2(n) - 1) / 2 == Pow2(n - 1) - 1;
    }
  }

  /**
   * `from_square`: `1 << square`.  The Rust shift panics from 64 on, so the
   * square is a board index.
   */
  function FromSquare(s: Sq): (b: BitBoard)
    ensures forall t: Sq :: b[t] <==> t == s
  {
    seq(64, i => i == s)
  }

  /** The single-square board is the word `2^s`. */
  lemma FromSquareValue(s: Sq)
    ensures Value(FromSquare(s)) == Pow2(s)
  {
    SingleBitValue(FromSquare(s), s);
  }

  lemma {:induction false} SingleBitValue(bs: seq<bool>, s: nat)
    requires s < |bs|
    requires forall i :: 0 <= i < |bs| ==> (bs[i] <==> i == s)
    ensures Bits(bs) == Pow2(s)
  {
    if s == 0 {
      BitsZero(bs[1..]);
    } else {
      SingleBitValue(bs[1..], s - 1);
    }
  }

  // ---------------------------------------------------------------------
  // Queries.

  /** `is_empty`: the word is zero. */
  function IsEmpty(b: BitBoard): (r: bool)
    ensures r <==> Value(b) == 0
    ensures r <==> Squares(b) == {}
  {
    BitsZero(b);
    NoSquares(b);
    b == Empty
  }

  lemma NoSquares(b: BitBoard)
    ensures Squares(b) == {} <==> b == Empty
  {
    if Squares(b) == {} {
      forall s: Sq ensures !b[s] {
        assert s !in Squares(b);
      }
    }
  }

  /** `is_not_empty`. */
  function IsNotEmpty(b: BitBoard): (r: bool)
    ensures r <==> exists s: Sq :: b[s]
  {
    !IsEmpty(b)
  }

  /** `trailing_zeros` of the word: the lowest set square, 64 on zero. */
  function TrailingZeros(b: BitBoard): (t: nat)
    ensures t <= 64
    ensures t == 64 <==> IsEmpty(b)
    ensures t < 64 ==> b[t]
    ensures forall s: Sq :: s < t ==> !b[s]
  {
    LowestFrom(b, 0)
  }

  function LowestFrom(b: BitBoard, i: nat): (t: nat)
    requires i <= 64
    ensures i <= t <= 64
    ensures t < 64 ==> b[t]
    ensures forall s: Sq :: i <= s < t ==> !b[s]
    decreases 64 - i
  {
    if i == 64 then 64 else if b[i] then i else LowestFrom(b, i + 1)
  }

  /**
   * `first_piece_index`: `trailing_zeros` cast to `u8` (callers only ask
   * on non-empty boards, where it is the lowest set square).
   */
  function FirstPieceIndex(b: BitBoard): (r: nat)
    ensures r == 64 <==> IsEmpty(b)
    ensures r < 64 ==> b[r] && r in Squares(b) && forall s :: s in Squares(b) ==> r <= s
  {
    TrailingZeros(b)
  }

  /** `count_ones` over the first `n` bits. */
  function CountBits(bs: seq<bool>): (n: nat)
    ensures n <= |bs|
  {
    if bs == [] then 0 else (if bs[|bs| - 1] then 1 else 0) + CountBits(bs[..|bs| - 1])
  }

  /** `count`: the number of set squares. */
  function Count(b: BitBoard): (n: nat)
    ensures n <= 64
  {
    CountBits(b)
  }

  // ---------------------------------------------------------------------
  // Operators, each acting on every bit independently.

  function And(a: BitBoard, b: BitBoard): (r: BitBoard)
  {
    seq(64, i requires 0 <= i < 64 => a[i] && b[i])
  }

  function Or(a: BitBoard, b: BitBoard): (r: BitBoard)
  {
    seq(64, i requires 0 <= i < 64 => a[i] || b[i])
  }

  function Xor(a: BitBoard, b: BitBoard): (r: BitBoard)
  {
    seq(64, i requires 0 <= i < 64 => a[i] != b[i])
  }

  function Not(a: BitBoard): (r: BitBoard)
  {
    seq(64, i requires 0 <= i < 64 => !a[i])
  }

  /** `<<` by `n`: bit `i` comes from bit `i - n`; the Rust shift panics from 64 on. */
  function Shl(a: BitBoard, n: nat): (r: BitBoard)
    requires n < 64
  {
    seq(64, i requires 0 <= i < 64 => i >= n && a[i - n])
  }

  /** `>>` by `n`: bit `i` comes from bit `i + n`. */
  function Shr(a: BitBoard, n: nat): (r: BitBoard)
    requires n < 64
  {
    seq(64, i requires 0 <= i < 64 => i + n < 64 && a[i + n])
  }

  /** On the sets of squares the bitwise operators are the set operators. */
  lemma OperatorsAreSetOperators(a: BitBoard, b: BitBoard)
    ensures Squares(And(a, b)) == Squares(a) * Squares(b)
    ensures Squares(Or(a, b)) == Squares(a) + Squares(b)
    ensures Squares(Xor(a, b)) == (Squares(a) - Squares(b)) + (Squares(b) - Squares(a))
    ensures Squares(Not(a)) == Squares(Ones) - Squares(a)
    ensures Squares(And(a, Not(b))) == Squares(a) - Squares(b)
  {
  }

  /** `^` is associative. */
  lemma XorAssoc(a: BitBoard, b: BitBoard, c: BitBoard)
    ensures Xor(a, Xor(b, c)) == Xor(Xor(a, b), c)
  {
    assert forall s: Sq :: Xor(a, Xor(b, c))[s] == Xor(Xor(a, b), c)[s];
  }

  /** `^` is commutative, has the empty board as unit, and undoes itself. */
  lemma XorCancel(a: BitBoard, b: BitBoard)
    ensures Xor(Empty, b) == b && Xor(b, Empty) == b
    ensures Xor(b, a) == Xor(a, b)
    ensures Xor(Xor(a, b), a) == b && Xor(Xor(b, a), a) == b
  {
    assert forall s: Sq :: Xor(Empty, b)[s] == b[s] && Xor(b, Empty)[s] == b[s];
    assert forall s: Sq :: Xor(b, a)[s] == Xor(a, b)[s];
    assert forall s: Sq :: Xor(Xor(a, b), a)[s] == b[s];
  }

  /** `from_square(s) & b` is non-empty exactly when `b` holds `s`. */
  lemma MaskSquare(s: Sq, b: BitBoard)
    ensures IsNotEmpty(And(FromSquare(s), b)) <==> b[s]
  {
    if !b[s] {
      assert And(FromSquare(s), b) == Empty;
    } else {
      assert And(FromSquare(s), b)[s];
    }
  }

  /** `<< 8` moves every square one rank up and empties the first rank; `>> 8` the reverse. */
  lemma RankShifts(a: BitBoard)
    ensures forall s: Sq :: Shl(a, 8)[s] <==> s >= 8 && a[s - 8]
    ensures forall s: Sq :: Shr(a, 8)[s] <==> s < 56 && a[s + 8]
    ensures Squares(Shl(a, 8)) == set s: Sq | s < 56 && a[s] :: s + 8
    ensures Squares(Shr(a, 8)) == set s: Sq | s >= 8 && a[s] :: s - 8
  {
    assert forall s: Sq :: s < 56 && a[s] ==> Shl(a, 8)[s + 8];
    assert forall s: Sq :: s >= 8 && a[s] ==> Shr(a, 8)[s - 8];
  }

  // ---------------------------------------------------------------------
  // The set-bit iterator.

  /**
   * The bits of `x - 1` for a non-zero word: every bit below the lowest
   * set bit becomes one, that bit becomes zero, the rest are kept.
   */
  function Decrement(bs: seq<bool>): (r: seq<bool>)
    requires exists i :: 0 <= i < |bs| && bs[i]
    ensures |r| == |bs|
  {
    if bs[0] then [false] + bs[1..]
    else
      var i :| 0 <= i < |bs| && bs[i];
      assert bs[1..][i - 1];
      [true] + Decrement(bs[1..])
  }

  /** `Decrement` is subtraction of one on the numbers the bits spell. */
  lemma {:induction false} DecrementValue(bs: seq<bool>)
    requires exists i :: 0 <= i < |bs| && bs[i]
    ensures Bits(Decrement(bs)) == Bits(bs) - 1
  {
    if !bs[0] {
      var i :| 0 <= i < |bs| && bs[i];
      assert bs[1..][i - 1];
      DecrementValue(bs[1..]);
      assert Decrement(bs)[1..] == Decrement(bs[1..]);
    } else {
      assert Decrement(bs)[1..] == bs[1..];
    }
  }

  /** Bit by bit, `x - 1` flips the bits up to and including the lowest set one. */
  lemma {:induction false} DecrementBits(bs: seq<bool>, t: nat)
    requires t < |bs| && bs[t] && forall i :: 0 <= i < t ==> !bs[i]
    ensures forall i :: 0 <= i < |bs| ==> Decrement(bs)[i] == (if i < t then true else if i == t then false else bs[i])
  {
    if t > 0 {
      assert bs[1..][t - 1];
      DecrementBits(bs[1..], t - 1);
    }
  }

  /** `x - 1` on a non-zero board. */
  function Minus1(x: BitBoard): (r: BitBoard)
    requires !IsEmpty(x)
    ensures Value(r) == Value(x) - 1
  {
    assert x[TrailingZeros(x)];
    DecrementValue(x);
    Decrement(x)
  }

  /** `x & (x - 1)` clears exactly the lowest set square and lowers the word. */
  lemma ClearLowest(x: BitBoard)
    requires !IsEmpty(x)
    ensures And(x, Minus1(x)) == x[TrailingZeros(x) := false]
    ensures Value(And(x, Minus1(x))) < Value(x)
  {
    var t := TrailingZeros(x);
    DecrementBits(x, t);
    assert And(x, Minus1(x)) == x[t := false];
    RemoveBitValue(x, t);
  }

  lemma {:induction false} RemoveBitValue(bs: seq<bool>, t: nat)
    requires t < |bs| && bs[t]
    ensures Bits(bs[t := false]) == Bits(bs) - Pow2(t)
  {
    if t > 0 {
      assert bs[t := false][1..] == bs[1..][t - 1 := false];
      RemoveBitValue(bs[1..], t - 1);
    } else {
      assert bs[t := false][1..] == bs[1..];
    }
  }

  /**
   * `PieceIndexIter::next` on the iterator's word: None when it is zero,
   * otherwise its trailing-zero count, with the word replaced by
   * `x & (x - 1)`.
   */
  function Next(value: BitBoard): (r: Option<(Sq, BitBoard)>)
    ensures r.None? <==> IsEmpty(value)
    ensures r.Some? ==> r.value.0 == TrailingZeros(value) && r.value.1 == value[r.value.0 := false]
  {
    if value == Empty then None
    else
      ClearLowest(value);
      Some((TrailingZeros(value) as Sq, And(value, Minus1(value))))
  }

  /**
   * `piece_indices`: everything the iterator yields until it returns None.
   * It terminates because every step lowers the word.
   */
  function PieceIndices(b: BitBoard): (r: seq<Sq>)
    decreases Value(b)
  {
    match Next(b)
    case None => []
    case Some((t, rest)) =>
      ClearLowest(b);
      [t] + PieceIndices(rest)
  }

  /** The iterator yields each set square once, in strictly ascending order, and nothing else. */
  lemma PieceIndicesSpec(b: BitBoard)
    ensures forall i :: 0 <= i < |PieceIndices(b)| ==> b[PieceIndices(b)[i]]
    ensures forall s: Sq :: b[s] ==> s in PieceIndices(b)
    ensures forall i, j :: 0 <= i < j < |PieceIndices(b)| ==> PieceIndices(b)[i] < PieceIndices(b)[j]
  {
    IndicesAreSet(b);
    IndicesComplete(b);
    IndicesAscending(b);
  }

  lemma {:induction false} IndicesAreSet(b: BitBoard)
    ensures forall i :: 0 <= i < |PieceIndices(b)| ==> b[PieceIndices(b)[i]]
    decreases Value(b)
  {
    match Next(b)
    case None =>
    case Some((t, rest)) =>
      ClearLowest(b);
      IndicesAreSet(rest);
      assert PieceIndices(b) == [t] + PieceIndices(rest);
  }

  lemma {:induction false} IndicesComplete(b: BitBoard)
    ensures forall s: Sq :: b[s] ==> s in PieceIndices(b)
    decreases Value(b)
  {
    match Next(b)
    case None =>
    case Some((t, rest)) =>
      ClearLowest(b);
      IndicesComplete(rest);
      assert PieceIndices(b) == [t] + PieceIndices(rest);
  }

  lemma {:induction false} IndicesAscending(b: BitBoard)
    ensures forall i, j :: 0 <= i < j < |PieceIndices(b)| ==> PieceIndices(b)[i] < PieceIndices(b)[j]
    decreases Value(b)
  {
    match Next(b)
    case None =>
    case Some((t, rest)) =>
      ClearLowest(b);
      IndicesAscending(rest);
      IndicesAreSet(rest);
      var r := PieceIndices(b);
      assert r == [t] + PieceIndices(rest);
      forall j | 0 < j < |r| ensures t < r[j] {
        assert rest[r[j]];
      }
  }

  /** The listed squares are exactly the board's squares. */
  lemma IndicesAreSquares(b: BitBoard)
    ensures (set i | 0 <= i < |PieceIndices(b)| :: PieceIndices(b)[i]) == Squares(b)
    ensures |PieceIndices(b)| == |Squares(b)|
  {
    PieceIndicesSpec(b);
    var r := PieceIndices(b);
    forall s: Sq | s in Squares(b) ensures s in set i | 0 <= i < |r| :: r[i] {
      var i :| 0 <= i < |r| && r[i] == s;
    }
    DistinctCard(r);
  }

  lemma {:induction false} DistinctCard(r: seq<Sq>)
    requires forall i, j :: 0 <= i < j < |r| ==> r[i] < r[j]
    ensures |set i | 0 <= i < |r| :: r[i]| == |r|
  {
    if r != [] {
      var n := |r| - 1;
      DistinctCard(r[..n]);
      var front := set i | 0 <= i < n :: r[..n][i];
      assert (set i | 0 <= i < |r| :: r[i]) == front + {r[n]};
      assert r[n] !in front;
    }
  }

  /** `count` is the number of squares the iterator yields. */
  lemma {:induction false} CountIsIndexCount(b: BitBoard)
    ensures Count(b) == |PieceIndices(b)|
    decreases Value(b)
  {
    match Next(b)
    case None =>
      CountZero(b);
    case Some((t, rest)) =>
      ClearLowest(b);
      CountIsIndexCount(rest);
      CountUpdate(b, t);
  }

  lemma {:induction false} CountZeroBits(bs: seq<bool>)
    requires forall i :: 0 <= i < |bs| ==> !bs[i]
    ensures CountBits(bs) == 0
  {
    if bs != [] {
      CountZeroBits(bs[..|bs| - 1]);
    }
  }

  lemma CountZero(b: BitBoard)
    requires IsEmpty(b)
    ensures Count(b) == 0
  {
    CountZeroBits(b);
  }

  lemma {:induction false} CountUpdate(bs: seq<bool>, t: nat)
    requires t < |bs| && bs[t]
    ensures CountBits(bs[t := false]) == CountBits(bs) - 1
  {
    var n := |bs| - 1;
    if t < n {
      assert bs[t := false][..n] == bs[..n][t := false];
      CountUpdate(bs[..n], t);
    } else {
      assert bs[t := false][..n] == bs[..n];
    }
  }
}
