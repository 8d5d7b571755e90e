/**
 * The Polyglot opening book of `shakmat-engine/src/polyglot/book.rs`: the
 * 16-byte big-endian records (key, move, weight, learn), the 16-bit move
 * code, the table from keys to moves sorted by weight, and the lookup with
 * its castling rewrite. The book bytes are a parameter; the random pick
 * among weighted moves is a parameter too.
 */
module Book {
  import opened Base
  import opened BitBoards
  import opened PieceTypes
  import opened Moves
  import opened Sorting
  import Pos = Positions

  type Byte = b: int | 0 <= b < 256

  // ---------------------------------------------------------------------
  // Big-endian numbers.

  function Pow256(n: nat): (p: nat)
    ensures p >= 1
  {
    if n == 0 then 1 else 256 * Pow256(n - 1)
  }

  /** `from_be_bytes`: the first byte is the most significant. */
  function BigEndian(bs: seq<Byte>): (x: nat)
    ensures x < Pow256(|bs|)
  {
    if bs == [] then 0 else BigEndian(bs[..|bs| - 1]) * 256 + bs[|bs| - 1]
  }

  /** The `n` big-endian bytes of `x`, which is below `256^n`. */
  function ToBigEndian(x: nat, n: nat): (bs: seq<Byte>)
    ensures |bs| == n
  {
    if n == 0 then [] else ToBigEndian(x / 256, n - 1) + [x % 256]
  }

  lemma {:induction false} BigEndianRoundTrip(x: nat, n: nat)
    requires x < Pow256(n)
    ensures BigEndian(ToBigEndian(x, n)) == x
  {
    if n > 0 {
      var q, r := x / 256, x % 256;
      DivBelow(x, Pow256(n - 1));
      BigEndianRoundTrip(q, n - 1);
      var bs := ToBigEndian(x, n);
      assert bs[..n - 1] == ToBigEndian(q, n - 1);
      assert BigEndian(bs) == q * 256 + r;
    }
  }

  lemma DivBelow(x: nat, p: nat)
    requires x < 256 * p
    ensures x / 256 < p
  {
  }

  /** Reading bytes and writing the number back gives the same bytes. */
  lemma {:induction false} BigEndianBytesRoundTrip(bs: seq<Byte>)
    ensures ToBigEndian(BigEndian(bs), |bs|) == bs
  {
    if bs != [] {
      var n := |bs|;
      var init := bs[..n - 1];
      var x := BigEndian(bs);
      assert x == BigEndian(init) * 256 + bs[n - 1];
      DivModUnique(x, 256, BigEndian(init), bs[n - 1]);
      BigEndianBytesRoundTrip(init);
      assert ToBigEndian(x, n) == ToBigEndian(BigEndian(init), n - 1) + [bs[n - 1]];
      assert bs == init + [bs[n - 1]];
    }
  }

  // ---------------------------------------------------------------------
  // The move code.

  /** The fields of a move code, lowest bits first. */
  datatype Fields = Fields(toFile: nat, toRow: nat, fromFile: nat, fromRow: nat, promotion: nat)

  /** The bit fields `u16_to_move` masks and shifts out. */
  function FieldsOf(bits: nat): (f: Fields)
    requires bits <= U16_MAX
    ensures f.toFile < 8 && f.toRow < 8 && f.fromFile < 8 && f.fromRow < 8 && f.promotion < 8
  {
    Fields(bits % 8, bits % 64 / 8, bits % 512 / 64, bits % 4096 / 512, bits % 32768 / 4096)
  }

  /** A code from its fields, the top bit clear. */
  function Code(f: Fields): nat
  {
    f.toFile + 8 * f.toRow + 64 * f.fromFile + 512 * f.fromRow + 4096 * f.promotion
  }

  lemma DivModUnique(x: int, d: int, q: int, r: int)
    requires d > 0 && 0 <= r < d && x == q * d + r
    ensures x / d == q && x % d == r
  {
    var q', r' := x / d, x % d;
    assert (q' - q) * d == r - r';
    if q' > q {
      MulMonotone(1, q' - q, d);
    } else if q' < q {
      MulMonotone(1, q - q', d);
    }
  }

  /** Taking the low bits of `m * k` splits into the low bits of `m` and a digit base `k` above them. */
  lemma ModDivSplit(x: nat, m: nat, k: nat)
    requires m > 0 && k > 0
    ensures x % (m * k) == x % m + m * (x / m % k)
    ensures x % (m * k) / m == x / m % k
    ensures x / (m * k) == x / m / k
  {
    var q, r := x / m, x % m;
    var q2, r2 := q / k, q % k;
    Regroup(q2, k, r2, m, r);
    LowDigits(r2, k, m, r);
    DivModUnique(x, m * k, q2, m * r2 + r);
    DivModUnique(m * r2 + r, m, r2, r);
  }

  lemma Regroup(q2: int, k: int, r2: int, m: int, r: int)
    ensures (q2 * k + r2) * m + r == q2 * (m * k) + (m * r2 + r)
  {
    assert (q2 * k + r2) * m == q2 * k * m + r2 * m;
  }

  lemma LowDigits(r2: nat, k: nat, m: nat, r: nat)
    requires r2 < k && r < m
    ensures m * r2 + r < m * k
  {
    MulMonotone(r2 + 1, k, m);
  }

  /** Each field occupies its own three bits; only bit 15 is ignored. */
  lemma FieldsMeaning(bits: nat)
    requires bits <= U16_MAX
    ensures Code(FieldsOf(bits)) == bits % 32768
  {
    ModDivSplit(bits, 8, 8);
    ModDivSplit(bits, 64, 8);
    ModDivSplit(bits, 512, 8);
    ModDivSplit(bits, 4096, 8);
  }

  lemma FieldsRoundTrip(f: Fields)
    requires f.toFile < 8 && f.toRow < 8 && f.fromFile < 8 && f.fromRow < 8 && f.promotion < 8
    ensures Code(f) <= U16_MAX && FieldsOf(Code(f)) == f
  {
    var c := Code(f);
    var r4 := f.promotion;
    var r3 := f.fromRow + 8 * r4;
    var r2 := f.fromFile + 8 * r3;
    var r1 := f.toRow + 8 * r2;
    assert c == f.toFile + 8 * r1;
    DivModUnique(c, 8, r1, f.toFile);
    DivModUnique(r1, 8, r2, f.toRow);
    DivModUnique(r2, 8, r3, f.fromFile);
    DivModUnique(r3, 8, r4, f.fromRow);
    DivModUnique(r4, 8, 0, f.promotion);
    ModDivSplit(c, 8, 8);
    ModDivSplit(c, 64, 8);
    ModDivSplit(c, 512, 8);
    ModDivSplit(c, 4096, 8);
  }

  datatype BookError = UnknownPromotion(id: nat)

  /** The promoted piece of ids 1 to 4. */
  function PromotionOf(id: nat): (p: Option<PieceType>)
    ensures p.Some? <==> 1 <= id <= 4
    ensures p.Some? ==> IsPromotionPiece(p.value)
  {
    match id
    case 1 => Some(Knight)
    case 2 => Some(Bishop)
    case 3 => Some(Rook)
    case 4 => Some(Queen)
    case _ => None
  }

  /** The id of a promoted piece. */
  function PromotionId(p: PieceType): nat
    requires IsPromotionPiece(p)
  {
    match p
    case Knight => 1
    case Bishop => 2
    case Rook => 3
    case Queen => 4
  }

  /** The king's and rook's squares of the four castles, as the book writes them. */
  predicate IsShortCastleCode(from: Sq, to: Sq)
  {
    (from == 3 && to == 0) || (from == 59 && to == 56)
  }

  predicate IsLongCastleCode(from: Sq, to: Sq)
  {
    (from == 3 && to == 7) || (from == 59 && to == 63)
  }

  /**
   * `u16_to_move`: castles are the king capturing its own rook; a
   * promotion id of 5 to 7 hits `unreachable!()`.
   */
  function DecodeMove(bits: nat): Result<Move, BookError>
    requires bits <= U16_MAX
  {
    var f := FieldsOf(bits);
    Assemble(Pos.Index(f.fromFile, f.fromRow), Pos.Index(f.toFile, f.toRow), f.promotion)
  }

  /** The move of two decoded squares and a promotion id. */
  function Assemble(from: Sq, to: Sq, promotion: nat): Result<Move, BookError>
  {
    if IsShortCastleCode(from, to) then Ok(ShortCastle)
    else if IsLongCastleCode(from, to) then Ok(LongCastle)
    else if promotion != 0 then
      match PromotionOf(promotion)
      case Some(p) => Ok(PawnPromotion(from, to, p))
      case None => Err(UnknownPromotion(promotion))
    else Ok(Normal(from, to))
  }

  /** The code of a move, castles written as White's (e1h1 and e1a1). */
  function EncodeMove(m: Move): (bits: nat)
    requires m.PawnPromotion? ==> IsPromotionPiece(m.promoteTo)
    ensures bits <= U16_MAX
  {
    match m
    case Normal(from, to) => Code(Fields(Pos.File(to), Pos.Rank(to), Pos.File(from), Pos.Rank(from), 0))
    case PawnPromotion(from, to, p) =>
      Code(Fields(Pos.File(to), Pos.Rank(to), Pos.File(from), Pos.Rank(from), PromotionId(p)))
    case ShortCastle => Code(Fields(Pos.File(0), Pos.Rank(0), Pos.File(3), Pos.Rank(3), 0))
    case LongCastle => Code(Fields(Pos.File(7), Pos.Rank(7), Pos.File(3), Pos.Rank(3), 0))
  }

  /**
   * Decoding an encoded move gives it back, unless it is a plain move or
   * promotion between the squares the book uses for castles.
   */
  lemma DecodeEncode(m: Move)
    requires m.PawnPromotion? ==> IsPromotionPiece(m.promoteTo)
    requires m.Normal? || m.PawnPromotion? ==> !IsShortCastleCode(m.from, m.to) && !IsLongCastleCode(m.from, m.to)
    ensures DecodeMove(EncodeMove(m)) == Ok(m)
  {
    match m
    case Normal(from, to) => EncodedSquares(from, to, 0);
    case PawnPromotion(from, to, p) => EncodedSquares(from, to, PromotionId(p));
    case ShortCastle => EncodedSquares(3, 0, 0);
    case LongCastle => EncodedSquares(3, 7, 0);
  }

  /** The code of two squares and an id decodes through those squares and that id. */
  lemma EncodedSquares(from: Sq, to: Sq, promotion: nat)
    requires promotion < 8
    ensures Code(Fields(Pos.File(to), Pos.Rank(to), Pos.File(from), Pos.Rank(from), promotion)) <= U16_MAX
    ensures DecodeMove(Code(Fields(Pos.File(to), Pos.Rank(to), Pos.File(from), Pos.Rank(from), promotion)))
      == Assemble(from, to, promotion)
  {
    FieldsRoundTrip(Fields(Pos.File(to), Pos.Rank(to), Pos.File(from), Pos.Rank(from), promotion));
    Pos.FileRankDetermine(from);
    Pos.FileRankDetermine(to);
  }

  /**
   * What a code decodes to: a castle for the four castle square pairs,
   * whatever the promotion bits; otherwise an error for promotion ids 5 to
   * 7, a promotion for ids 1 to 4 and a plain move for id 0, between the
   * squares the fields name.
   */
  lemma DecodeMeaning(bits: nat)
    requires bits <= U16_MAX
    ensures var f := FieldsOf(bits);
      var from := Pos.Index(f.fromFile, f.fromRow);
      var to := Pos.Index(f.toFile, f.toRow);
      var r := DecodeMove(bits);
      (r == Ok(ShortCastle) <==> IsShortCastleCode(from, to))
      && (r == Ok(LongCastle) <==> IsLongCastleCode(from, to))
      && (r.Err? <==> !IsShortCastleCode(from, to) && !IsLongCastleCode(from, to) && f.promotion >= 5)
      && (r.Ok? && r.value.Normal? <==>
            !IsShortCastleCode(from, to) && !IsLongCastleCode(from, to) && f.promotion == 0)
      && (r.Ok? && (r.value.Normal? || r.value.PawnPromotion?) ==> r.value.from == from && r.value.to == to)
      && (r.Ok? && r.value.PawnPromotion? ==> Some(r.value.promoteTo) == PromotionOf(f.promotion))
  {
  }

  // ---------------------------------------------------------------------
  // Loading.

  datatype WeightedMove = WeightedMove(mv: Move, weight: nat)

  /** One record: key, move code and weight; the learn bytes are skipped. */
  datatype Record = Record(key: nat, moveBits: nat, weight: nat)

  const RecordSize: nat := 16

  function RecordAt(bytes: seq<Byte>, i: nat): (r: Record)
    requires RecordSize * (i + 1) <= |bytes|
    ensures r.moveBits <= U16_MAX && r.weight <= U16_MAX
  {
    var c := bytes[RecordSize * i .. RecordSize * (i + 1)];
    Record(BigEndian(c[..8]), BigEndian(c[8..10]), BigEndian(c[10..12]))
  }

  /** `chunks_exact(16)`: the whole records, in file order; a short tail is dropped. */
  function Records(bytes: seq<Byte>): (rs: seq<Record>)
    ensures |rs| == |bytes| / RecordSize
    ensures forall i :: 0 <= i < |rs| ==> rs[i].moveBits <= U16_MAX
  {
    seq(|bytes| / RecordSize, i requires 0 <= i < |bytes| / RecordSize => RecordAt(bytes, i))
  }

  /** The records decoded, stopping at the first bad move code. */
  function Entries(rs: seq<Record>): (r: Result<seq<(nat, WeightedMove)>, BookError>)
    requires forall i :: 0 <= i < |rs| ==> rs[i].moveBits <= U16_MAX
    ensures r.Ok? ==> |r.value| == |rs|
  {
    if rs == [] then Ok([])
    else
      match DecodeMove(rs[0].moveBits)
      case Err(e) => Err(e)
      case Ok(mv) =>
        match Entries(rs[1..])
        case Err(e) => Err(e)
        case Ok(rest) => Ok([(rs[0].key, WeightedMove(mv, rs[0].weight))] + rest)
  }

  /**
   * Decoding fails exactly when some record's move code is bad; otherwise
   * entry `i` is record `i`'s key with its decoded move and weight.
   */
  lemma {:induction false} EntriesMeaning(rs: seq<Record>)
    requires forall i :: 0 <= i < |rs| ==> rs[i].moveBits <= U16_MAX
    ensures Entries(rs).Ok? ==> forall i :: 0 <= i < |rs| ==>
      DecodeMove(rs[i].moveBits).Ok? && Entries(rs).value[i] == (rs[i].key, WeightedMove(DecodeMove(rs[i].moveBits).value, rs[i].weight))
    ensures Entries(rs).Err? <==> exists i :: 0 <= i < |rs| && DecodeMove(rs[i].moveBits).Err?
  {
    if rs != [] {
      var tail := rs[1..];
      EntriesMeaning(tail);
      assert forall i :: 1 <= i < |rs| ==> rs[i] == tail[i - 1];
      if DecodeMove(rs[0].moveBits).Ok? && Entries(tail).Ok? {
        var es := Entries(rs).value;
        assert es == [(rs[0].key, WeightedMove(DecodeMove(rs[0].moveBits).value, rs[0].weight))] + Entries(tail).value;
        assert forall i :: 1 <= i < |rs| ==> es[i] == Entries(tail).value[i - 1];
      } else if DecodeMove(rs[0].moveBits).Ok? {
        var j :| 0 <= j < |tail| && DecodeMove(tail[j].moveBits).Err?;
        assert rs[j + 1] == tail[j];
      }
    }
  }

  /** The moves recorded under one key, in file order. */
  function Under(es: seq<(nat, WeightedMove)>, key: nat): (ws: seq<WeightedMove>)
    ensures |ws| <= |es|
  {
    if es == [] then []
    else Under(es[..|es| - 1], key) + (if es[|es| - 1].0 == key then [es[|es| - 1].1] else [])
  }

  lemma {:induction false} UnderEmpty(es: seq<(nat, WeightedMove)>, key: nat)
    ensures Under(es, key) == [] <==> forall i :: 0 <= i < |es| ==> es[i].0 != key
  {
    if es != [] {
      UnderEmpty(es[..|es| - 1], key);
      assert forall i :: 0 <= i < |es| - 1 ==> es[..|es| - 1][i] == es[i];
    }
  }

  /** `book.entry(key).or_default().push(..)` over all entries. */
  function Group(es: seq<(nat, WeightedMove)>): (g: map<nat, seq<WeightedMove>>)
  {
    if es == [] then map[]
    else
      var g := Group(es[..|es| - 1]);
      var (k, w) := es[|es| - 1];
      g[k := (if k in g then g[k] else []) + [w]]
  }

  /** Each key of the grouping holds exactly that key's moves, in file order, and no list is empty. */
  lemma {:induction false} GroupMeaning(es: seq<(nat, WeightedMove)>, key: nat)
    ensures key in Group(es) <==> Under(es, key) != []
    ensures key in Group(es) ==> Group(es)[key] == Under(es, key)
  {
    if es != [] {
      GroupMeaning(es[..|es| - 1], key);
    }
  }

  function NegWeight(w: WeightedMove): int
  {
    0 - w.weight as int
  }

  /** A list whose weights never increase. */
  predicate HeaviestFirst(ws: seq<WeightedMove>)
  {
    forall i, j :: 0 <= i < j < |ws| ==> ws[i].weight >= ws[j].weight
  }

  type Table = map<nat, seq<WeightedMove>>

  /** `load`: every key's list, sorted by decreasing weight. */
  function Load(bytes: seq<Byte>): Result<Table, BookError>
  {
    match Entries(Records(bytes))
    case Err(e) => Err(e)
    case Ok(es) => Ok(TableOf(es))
  }

  /** The grouped entries with every list sorted by decreasing weight. */
  function TableOf(es: seq<(nat, WeightedMove)>): Table
  {
    var g := Group(es);
    map k | k in g :: SortBy(g[k], NegWeight)
  }

  /**
   * A key is in the table exactly when an entry carries it; its list is a
   * permutation of the key's entries, heaviest first, with entries of
   * equal weight in file order, so that its head is the first entry of the
   * greatest weight.
   */
  lemma TableOfMeaning(es: seq<(nat, WeightedMove)>, key: nat)
    ensures key in TableOf(es) <==> exists i :: 0 <= i < |es| && es[i].0 == key
    ensures key in TableOf(es) ==>
      multiset(TableOf(es)[key]) == multiset(Under(es, key))
      && TableOf(es)[key] != []
      && HeaviestFirst(TableOf(es)[key])
      && (forall v :: Keyed(TableOf(es)[key], NegWeight, v) == Keyed(Under(es, key), NegWeight, v))
      && FirstHeaviest(Under(es, key), TableOf(es)[key][0])
  {
    var g := Group(es);
    GroupMeaning(es, key);
    UnderEmpty(es, key);
    if key in TableOf(es) {
      var ws := TableOf(es)[key];
      assert ws == SortBy(g[key], NegWeight);
      assert multiset(ws) == multiset(g[key]);
      assert |ws| == |multiset(ws)| == |g[key]|;
      SortedHeaviest(ws);
      forall v ensures Keyed(ws, NegWeight, v) == Keyed(g[key], NegWeight, v) {
        SortByStable(g[key], NegWeight, v);
      }
      SortedFirstHeaviest(g[key]);
    }
  }

  /** `x` is the first entry of the list whose weight no entry exceeds. */
  predicate FirstHeaviest(ws: seq<WeightedMove>, x: WeightedMove)
  {
    exists i ::
      0 <= i < |ws| && ws[i] == x
      && (forall j :: 0 <= j < |ws| ==> ws[j].weight <= x.weight)
      && (forall j :: 0 <= j < i ==> ws[j].weight < x.weight)
  }

  /** Sorted by decreasing weight, a list starts with its first heaviest entry. */
  lemma SortedFirstHeaviest(u: seq<WeightedMove>)
    requires u != []
    ensures FirstHeaviest(u, SortBy(u, NegWeight)[0])
  {
    var ws := SortBy(u, NegWeight);
    SortByMembers(u, NegWeight);
    var x := ws[0];
    SortedHeaviest(ws);
    forall j | 0 <= j < |u| ensures u[j].weight <= x.weight {
      assert u[j] in multiset(ws);
      var k :| 0 <= k < |ws| && ws[k] == u[j];
    }
    var v := NegWeight(x);
    assert Keyed(ws, NegWeight, v)[0] == x;
    SortByStable(u, NegWeight, v);
    KeyedFirst(u, NegWeight, v);
  }

  /** Loading fails exactly when some whole record's move has a promotion id of 5 to 7 outside the castle squares. */
  lemma LoadFails(bytes: seq<Byte>)
    ensures Load(bytes).Err? <==>
      exists i :: 0 <= i < |Records(bytes)| && DecodeMove(Records(bytes)[i].moveBits).Err?
  {
    EntriesMeaning(Records(bytes));
  }

  /**
   * A key is in a loaded book exactly when some record carries it, and its
   * list holds that key's moves and weights, no more and no fewer,
   * heaviest first and, among equal weights, in file order.
   */
  lemma LoadMeaning(bytes: seq<Byte>, key: nat)
    requires Load(bytes).Ok?
    ensures var es := Entries(Records(bytes)).value;
      var book := Load(bytes).value;
      (key in book <==> exists i :: 0 <= i < |es| && es[i].0 == key)
      && (key in book ==>
            multiset(book[key]) == multiset(Under(es, key))
            && book[key] != []
            && HeaviestFirst(book[key])
            && (forall v :: Keyed(book[key], NegWeight, v) == Keyed(Under(es, key), NegWeight, v))
            && FirstHeaviest(Under(es, key), book[key][0]))
  {
    LoadIsTable(bytes);
    TableOfMeaning(Entries(Records(bytes)).value, key);
  }

  lemma LoadIsTable(bytes: seq<Byte>)
    requires Load(bytes).Ok?
    ensures Load(bytes).value == TableOf(Entries(Records(bytes)).value)
  {
  }

  lemma SortedHeaviest(ws: seq<WeightedMove>)
    requires SortedBy(ws, NegWeight)
    ensures HeaviestFirst(ws)
  {
    forall i, j | 0 <= i < j < |ws|
      ensures ws[i].weight >= ws[j].weight
    {
      assert NegWeight(ws[i]) <= NegWeight(ws[j]);
    }
  }

  /** Bytes after the last whole record change nothing. */
  lemma LoadIgnoresTail(bytes: seq<Byte>)
    ensures Load(bytes) == Load(bytes[..RecordSize * (|bytes| / RecordSize)])
  {
    var cut := bytes[..RecordSize * (|bytes| / RecordSize)];
    assert |cut| / RecordSize == |bytes| / RecordSize;
    forall i | 0 <= i < |bytes| / RecordSize
      ensures RecordAt(cut, i) == RecordAt(bytes, i)
    {
      assert RecordSize * (i + 1) <= RecordSize * (|bytes| / RecordSize) by {
        MulMonotone(i + 1, |bytes| / RecordSize, RecordSize);
      }
      assert cut[RecordSize * i .. RecordSize * (i + 1)] == bytes[RecordSize * i .. RecordSize * (i + 1)];
    }
    assert Records(cut) == Records(bytes);
  }

  // ---------------------------------------------------------------------
  // Lookup.

  /** Every list of a loaded book is non-empty. */
  predicate TableOk(book: Table)
  {
    forall k :: k in book ==> book[k] != []
  }

  datatype Overflow = Overflow

  /**
   * The castling rewrite as written: `to == from - 2` on a `u8`, evaluated
   * first, panics for a king moving from h1 or g1.
   */
  function CastleRewriteAsWritten(mv: Move, pieceOn: seq<Option<PieceType>>): Result<Move, Overflow>
    requires |pieceOn| == 64
  {
    if mv.Normal? && pieceOn[mv.from] == Some(King) then
      if mv.from < 2 then Err(Overflow)
      else if mv.to == mv.from - 2 then Ok(ShortCastle)
      else if mv.to == mv.from + 2 then Ok(LongCastle)
      else Ok(mv)
    else Ok(mv)
  }

  /** The king on g1 (square 1) stepping to h1 (square 0), a move a book may hold after castling. */
  lemma KingOnG1Panics(pieceOn: seq<Option<PieceType>>)
    requires |pieceOn| == 64 && pieceOn[1] == Some(King)
    ensures CastleRewriteAsWritten(Normal(1, 0), pieceOn) == Err(Overflow)
    ensures CastleRewrite(Normal(1, 0), pieceOn) == Normal(1, 0)
  {
  }

  /** The castling rewrite without the `u8` subtraction. */
  function CastleRewrite(mv: Move, pieceOn: seq<Option<PieceType>>): Move
    requires |pieceOn| == 64
  {
    if mv.Normal? && pieceOn[mv.from] == Some(King) then
      if mv.to + 2 == mv.from then ShortCastle
      else if mv.to == mv.from + 2 then LongCastle
      else mv
    else mv
  }

  /**
   * A king's plain move two files towards h becomes the short castle and
   * two files towards a the long one; every other move is returned as it
   * is. The rewrite as written agrees whenever it does not overflow, and
   * overflows only for a king on square 0 or 1.
   */
  lemma CastleRewriteMeaning(mv: Move, pieceOn: seq<Option<PieceType>>)
    requires |pieceOn| == 64
    ensures var kingStep := mv.Normal? && pieceOn[mv.from] == Some(King);
      (CastleRewrite(mv, pieceOn) == ShortCastle <==> mv == ShortCastle || (kingStep && mv.to + 2 == mv.from))
      && (CastleRewrite(mv, pieceOn) == LongCastle <==> mv == LongCastle || (kingStep && mv.to == mv.from + 2))
      && (!(kingStep && (mv.to + 2 == mv.from || mv.to == mv.from + 2)) ==> CastleRewrite(mv, pieceOn) == mv)
      && (CastleRewriteAsWritten(mv, pieceOn).Err? <==> kingStep && mv.from < 2)
      && (CastleRewriteAsWritten(mv, pieceOn).Ok? ==> CastleRewriteAsWritten(mv, pieceOn).value == CastleRewrite(mv, pieceOn))
  {
  }

  // ---------------------------------------------------------------------
  // The weighted pick.

  function TotalWeight(ws: seq<WeightedMove>): nat
  {
    if ws == [] then 0 else ws[0].weight + TotalWeight(ws[1..])
  }

  /**
   * `WeightedIndex::sample` for a draw `r` below the total weight: the
   * entry whose stretch of the cumulative weights holds `r`.
   */
  function PickIndex(ws: seq<WeightedMove>, r: nat): (i: nat)
    requires r < TotalWeight(ws)
    ensures i < |ws| && ws[i].weight > 0
    ensures TotalWeight(ws[..i]) <= r < TotalWeight(ws[..i]) + ws[i].weight
  {
    if r < ws[0].weight then
      assert ws[..0] == [];
      0
    else
      var i := PickIndex(ws[1..], r - ws[0].weight);
      assert ws[..i + 1] == [ws[0]] + ws[1..][..i];
      assert ([ws[0]] + ws[1..][..i])[1..] == ws[1..][..i];
      1 + i
  }

  /** The cumulative weight up to an entry, and that entry's own, add up to the cumulative weight after it. */
  lemma {:induction false} TotalPrefix(ws: seq<WeightedMove>, i: nat)
    requires i < |ws|
    ensures TotalWeight(ws[..i + 1]) == TotalWeight(ws[..i]) + ws[i].weight
    ensures TotalWeight(ws[..i + 1]) <= TotalWeight(ws)
  {
    if i > 0 {
      TotalPrefix(ws[1..], i - 1);
      assert ws[..i + 1] == [ws[0]] + ws[1..][..i];
      assert ws[..i] == [ws[0]] + ws[1..][..i - 1];
      assert ([ws[0]] + ws[1..][..i])[1..] == ws[1..][..i];
      assert ([ws[0]] + ws[1..][..i - 1])[1..] == ws[1..][..i - 1];
    } else {
      assert ws[..1] == [ws[0]] && ws[..0] == [];
      assert [ws[0]][1..] == [];
      assert TotalWeight(ws[1..]) >= 0;
    }
  }

  /**
   * Every entry of positive weight is picked by the draws of its own
   * stretch, and only by them: the pick is the entry whose stretch holds
   * the draw, so no entry of weight 0 is ever picked.
   */
  lemma PickIndexMeaning(ws: seq<WeightedMove>, i: nat, r: nat)
    requires i < |ws| && r < TotalWeight(ws)
    ensures PickIndex(ws, r) == i <==> TotalWeight(ws[..i]) <= r < TotalWeight(ws[..i]) + ws[i].weight
  {
    var k := PickIndex(ws, r);
    if k != i && TotalWeight(ws[..i]) <= r < TotalWeight(ws[..i]) + ws[i].weight {
      if k < i {
        PrefixGrows(ws, k + 1, i);
        TotalPrefix(ws, k);
      } else {
        PrefixGrows(ws, i + 1, k);
        TotalPrefix(ws, i);
      }
    }
  }

  /** Cumulative weights never decrease. */
  lemma {:induction false} PrefixGrows(ws: seq<WeightedMove>, a: nat, b: nat)
    requires a <= b <= |ws|
    ensures TotalWeight(ws[..a]) <= TotalWeight(ws[..b])
    decreases b - a
  {
    if a < b {
      TotalPrefix(ws, a);
      PrefixGrows(ws, a + 1, b);
    }
  }

  /** A list of weights all 0 has total weight 0, and a list with a positive weight a positive total. */
  lemma {:induction false} TotalZero(ws: seq<WeightedMove>)
    ensures TotalWeight(ws) == 0 <==> forall j :: 0 <= j < |ws| ==> ws[j].weight == 0
  {
    if ws != [] {
      TotalZero(ws[1..]);
      assert forall j :: 1 <= j < |ws| ==> ws[j] == ws[1..][j - 1];
    }
  }

  // ---------------------------------------------------------------------
  // `get_move`.

  /** The panics of the lookup: the `u8` underflow of the rewrite, and `WeightedIndex::new` on weights all 0. */
  datatype LookupPanic = RewriteUnderflow | AllWeightsZero

  /**
   * `get_move`: nothing for an unknown key; otherwise the first entry when
   * only the best is wanted, else the entry the weighted sampler picks
   * with the draw `draw` (a panic when every weight is 0), rewritten into
   * a castle as written.
   */
  function GetMove(book: Table, key: nat, pieceOn: seq<Option<PieceType>>, onlyBest: bool, draw: nat)
    : Result<Option<Move>, LookupPanic>
    requires TableOk(book) && |pieceOn| == 64
    requires key in book && !onlyBest ==> draw < TotalWeight(book[key]) || TotalWeight(book[key]) == 0
  {
    if key !in book then Ok(None)
    else
      var ls := book[key];
      if !onlyBest && TotalWeight(ls) == 0 then Err(AllWeightsZero)
      else
        var index := if onlyBest then 0 else PickIndex(ls, draw);
        match CastleRewriteAsWritten(ls[index].mv, pieceOn)
        case Err(_) => Err(RewriteUnderflow)
        case Ok(mv) => Ok(Some(mv))
  }

  /**
   * The lookup finds nothing exactly for a key outside the book. For a key
   * of the book, with only the best wanted, it is the first entry, whose
   * weight no other entry exceeds; otherwise it panics exactly when every
   * weight is 0, and else it is an entry of positive weight. The move is
   * rewritten into a castle, and the rewrite panics exactly for a king's
   * plain move from one of the two lowest squares.
   */
  lemma GetMoveMeaning(book: Table, key: nat, pieceOn: seq<Option<PieceType>>, onlyBest: bool, draw: nat)
    requires TableOk(book) && |pieceOn| == 64
    requires forall k :: k in book ==> HeaviestFirst(book[k])
    requires key in book && !onlyBest ==> draw < TotalWeight(book[key]) || TotalWeight(book[key]) == 0
    ensures GetMove(book, key, pieceOn, onlyBest, draw) == Ok(None) <==> key !in book
    ensures key in book && !onlyBest ==>
      (GetMove(book, key, pieceOn, onlyBest, draw) == Err(AllWeightsZero)
       <==> forall j :: 0 <= j < |book[key]| ==> book[key][j].weight == 0)
    ensures key in book && (onlyBest || TotalWeight(book[key]) > 0) ==>
      var i := if onlyBest then 0 else PickIndex(book[key], draw);
      var mv := book[key][i].mv;
      (onlyBest ==> forall j :: 0 <= j < |book[key]| ==> book[key][0].weight >= book[key][j].weight)
      && (!onlyBest ==> book[key][i].weight > 0)
      && (GetMove(book, key, pieceOn, onlyBest, draw) == Err(RewriteUnderflow)
          <==> mv.Normal? && pieceOn[mv.from] == Some(King) && mv.from < 2)
      && (GetMove(book, key, pieceOn, onlyBest, draw).Ok? ==>
            GetMove(book, key, pieceOn, onlyBest, draw) == Ok(Some(CastleRewrite(mv, pieceOn))))
  {
    if key in book {
      TotalZero(book[key]);
      if onlyBest || TotalWeight(book[key]) > 0 {
        var i := if onlyBest then 0 else PickIndex(book[key], draw);
        CastleRewriteMeaning(book[key][i].mv, pieceOn);
      }
    }
  }

  /**
   * From a loaded book, the best move of a key is the first entry of the
   * greatest weight in file order, rewritten into a castle.
   */
  lemma LoadedBestMove(bytes: seq<Byte>, key: nat, pieceOn: seq<Option<PieceType>>, draw: nat)
    requires Load(bytes).Ok? && |pieceOn| == 64
    ensures TableOk(Load(bytes).value)
    ensures var book := Load(bytes).value;
      var es := Entries(Records(bytes)).value;
      key in book && GetMove(book, key, pieceOn, true, draw).Ok? ==>
        exists x: WeightedMove :: FirstHeaviest(Under(es, key), x)
          && GetMove(book, key, pieceOn, true, draw) == Ok(Some(CastleRewrite(x.mv, pieceOn)))
  {
    LoadedTableOk(bytes);
    var book: Table := Load(bytes).value;
    if key in book {
      LoadMeaning(bytes, key);
      CastleRewriteMeaning(book[key][0].mv, pieceOn);
      assert FirstHeaviest(Under(Entries(Records(bytes)).value, key), book[key][0]);
    }
  }

  /** A loaded book meets what the lookup needs. */
  lemma LoadedTableOk(bytes: seq<Byte>)
    requires Load(bytes).Ok?
    ensures TableOk(Load(bytes).value)
    ensures forall k :: k in Load(bytes).value ==> HeaviestFirst(Load(bytes).value[k])
  {
    forall k | k in Load(bytes).value
      ensures Load(bytes).value[k] != [] && HeaviestFirst(Load(bytes).value[k])
    {
      LoadMeaning(bytes, k);
    }
  }
}
