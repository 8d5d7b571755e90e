/** The two sides of a game and the small tables indexed by them. */
module Colors {
  datatype Color = White | Black

  /** The `!` operator: the other side. */
  function Opposite(c: Color): (r: Color)
    ensures r != c
  {
    match c
    case White => Black
    case Black => White
  }

  /** Array and Zobrist index of a side: Black is 0 and White is 1. */
  function ToIndex(c: Color): (i: nat)
    ensures i < 2
    ensures i == 1 <==> c == White
  {
    match c
    case Black => 0
    case White => 1
  }

  /** The multiplier that turns a White-relative score into the mover's view. */
  function Sign(c: Color): (s: int)
    ensures s == 1 || s == -1
    ensures s == 1 <==> c == White
  {
    match c
    case White => 1
    case Black => -1
  }

  /** The `Display` text of a side. */
  function Name(c: Color): (s: string)
    ensures |s| == 5
    ensures c == White <==> s[0] == 'W'
  {
    match c
    case White => "White"
    case Black => "Black"
  }

  lemma OppositeInvolutive(c: Color)
    ensures Opposite(Opposite(c)) == c
    ensures Opposite(White) == Black && Opposite(Black) == White
  {
  }

  lemma SignOfOpposite(c: Color)
    ensures Sign(Opposite(c)) == -Sign(c)
    ensures ToIndex(Opposite(c)) == 1 - ToIndex(c)
  {
  }

  lemma IndexDistinguishes(c: Color, d: Color)
    ensures ToIndex(c) == ToIndex(d) <==> c == d
    ensures Name(c) == Name(d) <==> c == d
  {
  }
}
