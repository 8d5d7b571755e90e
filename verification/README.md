# Shakmat, modelled in Dafny

Shakmat is a chess engine in Rust. It has a board core (`shakmat-core`), an
engine (`shakmat-engine`) and a game server (`shakmat-server`). The repository
also keeps two older revisions under `src/` and a Python harness that plays two
engine builds against each other. This project models the deterministic parts of
all of these as immutable Dafny datatypes and pure functions, and proves what
each of them promises.

Conventions:

- A board (`BitBoards.BitBoard`) is a sequence of 64 booleans, bit `i` standing
  for square `i`. `BitBoards.Value` and `BitBoards.FromWord` connect it to the
  `u64` it stands for.
- A square is `rank * 8 + (7 - file)`, so h1 is 0, a1 is 7 and a8 is 63. This is
  the layout of `src/chess/game_elements/position.rs`. The core's
  `game_elements/square.rs` is not part of this model; its readers and printers
  are modelled with the same layout.
- Rust's fixed-width integers are unbounded here. Most places where the width
  matters (`u16` parsing and counters, `i16` and `i32` scores, `u64`
  subtraction, the FEN reader's `u8` file) are written out: an operation that
  overflows returns an error, standing for the panic of a debug build. The
  places where the width is not written out are listed under "## Left out".

## Model

| member | source | states |
|---|---|---|
| Colors.Opposite | shakmat-core/src/game_elements/color.rs:38-47 | `!c` is never `c` |
| Colors.OppositeInvolutive | shakmat-core/src/game_elements/color.rs:38-47 | `!!c == c`, `!White == Black` and `!Black == White` |
| Colors.ToIndex | shakmat-core/src/game_elements/color.rs:13-18 | the index is below 2 and is 1 exactly for White |
| Colors.IndexDistinguishes | shakmat-core/src/game_elements/color.rs:13-36 | two colours share an index, or a printed name, only when they are equal |
| Colors.Sign | shakmat-core/src/game_elements/color.rs:21-26 | the sign is +1 exactly for White and -1 otherwise |
| Colors.SignOfOpposite | shakmat-core/src/game_elements/color.rs:21-47 | `sign(!c) == -sign(c)` and the opposite colour has the other index |
| Colors.Name | shakmat-core/src/game_elements/color.rs:29-36 | the name has five letters and starts with 'W' exactly for White |
| PieceTypes.ToIndex | shakmat-core/src/game_elements/piece_type.rs:16-25 | the index is below 6 and picks the type out of the list of all six |
| PieceTypes.IndexBijective | shakmat-core/src/game_elements/piece_type.rs:16-25 | `to_index` is a bijection onto 0..5, with `FromIndex` as its inverse |
| PieceTypes.ZobristIndex | shakmat-core/src/game_elements/piece_type.rs:27-36 | the Zobrist index is twice the array index |
| PieceTypes.Glyph | shakmat-core/src/game_elements/piece_type.rs:37-52 | White glyphs lie in U+2654..U+2659 and Black glyphs in U+265A..U+265F |
| PieceTypes.GlyphInjective | shakmat-core/src/game_elements/piece_type.rs:37-52 | two (colour, type) pairs share a glyph only when they are equal |
| PieceTypes.GlyphSetsDisjoint | src/chess/game_elements/piece_type.rs:16-31 | each colour has six distinct glyphs, and no glyph of one colour is a glyph of the other |
| Castling.New | shakmat-core/src/game_elements/castling.rs:20-27 | each `can_castle_*` query returns the flag that was given for it |
| Castling.NoRights | shakmat-core/src/game_elements/castling.rs:29-31 | `none()` has no rights at all and satisfies `has_no_rights` |
| Castling.Default | shakmat-core/src/game_elements/castling.rs:13-17 | `default()` grants all four rights |
| Castling.Index | shakmat-core/src/game_elements/castling.rs:33-35 | the index is below 16 and is the four flags read as the bits 3..0 |
| Castling.UpdateKingside | shakmat-core/src/game_elements/castling.rs:37-43 | sets the colour's kingside right to the given value and keeps the other three |
| Castling.UpdateQueenside | shakmat-core/src/game_elements/castling.rs:45-51 | sets the colour's queenside right to the given value and keeps the other three |
| Castling.DisableAll | shakmat-core/src/game_elements/castling.rs:53-58 | clears both of the colour's rights and keeps the other colour's |
| Castling.HasLostRights | shakmat-core/src/game_elements/castling.rs:78-83 | holds exactly when the colour can castle on neither side |
| Castling.NoRightsMeansNone | shakmat-core/src/game_elements/castling.rs:60-76 | `has_no_rights` holds exactly when no colour can castle on either side |
| Castling.Flags | shakmat-core/src/game_elements/castling.rs:64-76 | reading the four queries gives the boolean record of the oldest revision |
| Castling.PackingRoundTrip | shakmat-core/src/game_elements/castling.rs:20-27 | packing four flags into the byte and reading them back is the identity, both ways |
| Castling.OperationsMatchRecord | shakmat-core/src/game_elements/castling.rs:13-58 | every operation on the byte does what the boolean record's operation does |
| LegacyCastling.New | src/game_elements/castling.rs:23-30 | `new` stores its four arguments |
| LegacyCastling.NoRights | src/game_elements/castling.rs:32-34 | `none()` has no right |
| LegacyCastling.Default | src/game_elements/castling.rs:11-20 | `default()` has all four rights |
| LegacyCastling.UpdateKingside | src/game_elements/castling.rs:36-41 | sets only the colour's kingside flag |
| LegacyCastling.UpdateQueenside | src/game_elements/castling.rs:43-48 | sets only the colour's queenside flag |
| LegacyCastling.FlagsDetermine | src/game_elements/castling.rs:1-8 | two records that answer every query alike are equal |
| LegacyCastling.UpdatesCommute | src/game_elements/castling.rs:36-48 | kingside and queenside updates commute, and repeating an update changes nothing |
| BitBoards.FromWord | shakmat-core/src/board/bitboard.rs:15-17 | the board built from a `u64` has that value |
| BitBoards.WordRoundTrip | shakmat-core/src/board/bitboard.rs:15-29 | rebuilding a board from its `u64` gives the board back |
| BitBoards.FromSquare | shakmat-core/src/board/bitboard.rs:23-25 | `from_square(s)` has exactly bit `s` set |
| BitBoards.FromSquareValue | shakmat-core/src/board/bitboard.rs:23-25 | the value of `from_square(s)` is `1 << s` |
| BitBoards.EmptyAndOnes | shakmat-core/src/board/bitboard.rs:19-21 | the empty board has value 0 and no squares, and `ones()` has value `u64::MAX` |
| BitBoards.IsEmpty | shakmat-core/src/board/bitboard.rs:39-41 | `is_empty` holds exactly when the value is 0, that is when no square is set |
| BitBoards.IsNotEmpty | shakmat-core/src/board/bitboard.rs:43-45 | `is_not_empty` holds exactly when some square is set |
| BitBoards.TrailingZeros | shakmat-core/src/board/bitboard.rs:51-54 | the count is 64 exactly on the empty board, and otherwise names a set bit with none below it |
| BitBoards.FirstPieceIndex | shakmat-core/src/board/bitboard.rs:51-54 | on a non-empty board, the result is the smallest set square |
| BitBoards.OperatorsAreSetOperators | shakmat-core/src/board/bitboard.rs:89-161 | `&`, `\|`, `^`, `!` and and-not are intersection, union, symmetric difference, complement and difference of the square sets |
| BitBoards.MaskSquare | shakmat-core/src/board/bitboard.rs:89-95 | and-ing a board with `from_square(s)` is non-empty exactly when `s` is set |
| BitBoards.RankShifts | shakmat-core/src/board/bitboard.rs:139-153 | shifting by 8 moves every square one rank up (`<<`) or down (`>>`), dropping what falls off |
| BitBoards.Minus1 | shakmat-core/src/board/bitboard.rs:69 | `x - 1` on a non-empty board has the value one less |
| BitBoards.ClearLowest | shakmat-core/src/board/bitboard.rs:69 | `x & (x - 1)` clears exactly the lowest set bit, and its value is smaller |
| BitBoards.Next | shakmat-core/src/board/bitboard.rs:62-74 | `next` yields nothing exactly on an empty board, else the lowest set square and the board without it |
| BitBoards.PieceIndicesSpec | shakmat-core/src/board/bitboard.rs:47-49 | `piece_indices` yields only set squares, every set square, strictly ascending |
| BitBoards.IndicesAreSquares | shakmat-core/src/board/bitboard.rs:47-49 | the yielded squares are exactly the board's square set, each once |
| BitBoards.CountIsIndexCount | shakmat-core/src/board/bitboard.rs:56-58 | `count()` equals the number of squares the iterator yields |
| BitBoards.CountZero | shakmat-core/src/board/bitboard.rs:35-41 | an empty board counts 0 |
| LegacyBitBoards.SetOne | src/chess/board/bitboard.rs:28-30 | `set_one(m)` sets exactly the squares of the board or of `m` |
| LegacyBitBoards.SetZero | src/chess/board/bitboard.rs:32-34 | `set_zero(m)` keeps exactly the squares of the board not in `m` |
| LegacyBitBoards.Reset | src/chess/board/bitboard.rs:36-38 | `reset` empties the board |
| LegacyBitBoards.SetThenClear | src/chess/board/bitboard.rs:28-34 | setting then clearing a mask equals only clearing it; both are set union and difference |
| LegacyBitBoards.NextAsWritten | src/chess/board/bitboard.rs:53-62 | the step fails exactly when the lowest set bit of the remaining board is bit 63, and otherwise agrees with the corrected step |
| LegacyBitBoards.NextFixed | src/chess/board/bitboard.rs:53-62 | the corrected step yields nothing exactly on an empty board, else the absolute index of the lowest set bit, and advances past it |
| LegacyBitBoards.FixedIsPieceIndices | src/chess/board/bitboard.rs:44-62 | the corrected iterator yields what the core iterator yields |
| LegacyBitBoards.AsWrittenFailsOnlyOnTopSquare | src/chess/board/bitboard.rs:57-58 | iterating as written fails exactly on the board `1 << 63`, and otherwise yields the core iterator's squares |
| LegacyBitBoards.TopSquareOverflows | src/chess/board/bitboard.rs:57-58 | on `1 << 63` the first step shifts a `u64` by 64 |
| Zobrist.PieceSlotAsWritten | shakmat-core/src/zobrist/zobrist_utils.rs:16-18 | the slot as written is always below 448 |
| Zobrist.PieceSlotCollision | shakmat-core/src/zobrist/zobrist_utils.rs:5-17 | a white pawn and a black knight on the same square read the same slot |
| Zobrist.PieceSlot | shakmat-core/src/zobrist/zobrist_utils.rs:5-12 | the corrected slot is below 768, its square is the slot mod 64 and its kind is `2 * type + colour` |
| Zobrist.PieceSlotInjective | shakmat-core/src/zobrist/zobrist_utils.rs:5-12 | distinct (type, colour, square) triples read distinct slots |
| Zobrist.PieceSlotOnto | shakmat-core/src/zobrist/zobrist_utils.rs:5-12 | every slot below 768 belongs to some triple |
| Zobrist.CastlingSlot | shakmat-core/src/zobrist/zobrist_utils.rs:20-22 | the castling slot lies in 768..783 |
| Zobrist.CastlingSlotInjective | shakmat-core/src/zobrist/zobrist_utils.rs:20-22 | different rights read different slots |
| Zobrist.EpSlot | shakmat-core/src/zobrist/zobrist_utils.rs:24-26 | the en passant slot lies in 784..791 |
| Zobrist.EpSlotByFile | shakmat-core/src/zobrist/zobrist_utils.rs:24-26 | two en passant squares share a slot exactly when they share a file |
| Zobrist.SlotGroupsDisjoint | shakmat-core/src/zobrist/zobrist_utils.rs:5-13 | the piece, castling, en passant and turn slots are in that order and do not overlap; the turn slot is the last of the 793 |
| Positions.IndexFileRank | src/chess/game_elements/position.rs:22-28 | the square of a file and rank below 8 has that file and that rank |
| Positions.FileRankDetermine | src/chess/game_elements/position.rs:22-28 | a square is rebuilt from its file and rank |
| Positions.AsBitboard | src/chess/game_elements/position.rs:30-32 | `as_bitboard` has exactly the square's bit set |
| Positions.FromFileRankAsWritten | src/chess/game_elements/position.rs:34-42 | accepts exactly files and ranks below 8; a bad rank is reported with the file's number |
| Positions.RankErrorShowsFile | src/chess/game_elements/position.rs:37-38 | rank 9 on file a is reported as "Invalid rank: 0" |
| Positions.FromFileRankMeaning | src/chess/game_elements/position.rs:34-42 | accepts exactly files and ranks below 8, yielding the square with that file and rank; each error names the bad coordinate, and accepted input reads as the source reads it |
| Positions.FileOfChar | src/chess/game_elements/position.rs:51-61 | a file is read exactly from a-h or A-H |
| Positions.RankOfChar | src/chess/game_elements/position.rs:63-73 | a rank is read exactly from 1-8 |
| Positions.SquareFromNotation | src/chess/game_elements/position.rs:44-76 | accepts exactly two characters, a file letter then a rank digit, and yields that file and rank |
| Positions.SquareNotation | src/chess/game_elements/position.rs:79-96 | prints the lower-case file letter and the rank digit |
| Positions.SquareNotationRoundTrip | src/chess/game_elements/position.rs:44-96 | printing then parsing a square gives it back |
| Positions.SquareParsePrints | src/chess/game_elements/position.rs:44-96 | what parses prints back as itself, up to the case of the file letter |
| Positions.New1Based | src/game_elements/position.rs:10-16 | `new_1based(f, r) == new_0based(f - 1, r - 1)` for `f, r >= 1` |
| Positions.PositionFromNotation | src/game_elements/position.rs:18-49 | a text whose length is not 2 is an error, and what is accepted lies on the board |
| Positions.PositionAgreesWithSquare | src/game_elements/position.rs:18-49 | the oldest reader accepts, rejects and reads exactly as the square reader does |
| Moves.EmptyMove | shakmat-core/src/game_elements/movement.rs:19-22 | the placeholder is a normal move from a square to itself |
| Moves.To | shakmat-core/src/game_elements/movement.rs:24-30 | defined for normal moves and promotions only, returning the target |
| Moves.From | shakmat-core/src/game_elements/movement.rs:32-38 | defined for normal moves and promotions only, returning the origin |
| Moves.IsCapture | shakmat-core/src/game_elements/movement.rs:40-49 | castles never capture; a promotion captures on an occupied target; a normal move also captures onto the en passant square |
| Moves.PieceMoving | shakmat-core/src/game_elements/movement.rs:51-57 | Pawn for a promotion, King for a castle, else the kind on the origin |
| Moves.PieceCaptured | shakmat-core/src/game_elements/movement.rs:59-65 | None for castles, else the kind on the target |
| Moves.PromotionOfSuffix | shakmat-core/src/game_elements/movement.rs:78-84 | the suffix names a promotion exactly when, lower-cased, it is q, r, b or n, optionally after '=' |
| Moves.FromNotation | shakmat-core/src/game_elements/movement.rs:67-91 | the castle spellings parse to castles; any other text shorter than 4 is an error; 4 characters give a normal move and more give a promotion of a good suffix |
| Moves.Notation | shakmat-core/src/game_elements/movement.rs:94-112 | normal moves print 4 characters and promotions 5, the squares first |
| Moves.NotationRoundTrip | shakmat-core/src/game_elements/movement.rs:67-112 | printing then parsing a move gives it back |
| Moves.NotationInjective | shakmat-core/src/game_elements/movement.rs:94-112 | distinct moves print differently |
| Moves.NotationIsLowerCase | shakmat-core/src/game_elements/movement.rs:94-112 | printed moves are already lower case, so lower-casing keys keeps them |
| LegacyMoves.To | src/chess/game_elements/movement.rs:14-20 | defined for normal moves and promotions only, returning the target |
| LegacyMoves.From | src/chess/game_elements/movement.rs:22-28 | defined for normal moves and promotions only, returning the origin |
| LegacyMoves.Notation | src/chess/game_elements/movement.rs:31-48 | castles print "O-O" and "O-O-O", normal moves their two squares, promotions the squares, '=' and an upper-case letter |
| LegacyMoves.CoreParsesLegacyNotation | src/chess/game_elements/movement.rs:31-48 | the core's parser reads every printed legacy move as the same move |
| LegacyMoves.SameTextExceptPromotions | src/chess/game_elements/movement.rs:31-48 | the two revisions print every move but a promotion identically |
| Text.SplitWhitespace | shakmat-core/src/fen/fen_utils.rs:21 | splitting on whitespace yields only non-empty words without whitespace, and none for an all-blank text |
| Text.SplitUnwords | shakmat-core/src/fen/fen_utils.rs:21 | words joined by spaces split back into the same words |
| Text.Split | shakmat-core/src/fen/fen_utils.rs:64 | splitting on a character yields one part more than it occurs, none containing it, and joining them restores the text |
| Text.SplitJoin | shakmat-core/src/fen/fen_utils.rs:64 | parts without the separator, joined with it, split back into the same parts |
| Text.ParseU16 | shakmat-core/src/fen/fen_utils.rs:57-58 | a `u16` is read exactly from an optional '+' and decimal digits worth at most 65535 |
| Text.ParseU16RoundTrip | shakmat-core/src/fen/fen_utils.rs:57-58 | every `u16` printed in decimal, with or without '+', reads back, and nothing larger does |
| PieceSets.WithType | shakmat-core/src/fen/fen_utils.rs:97-102 | assigning one kind's board changes that kind and keeps the other five |
| PieceSets.KindsDetermine | shakmat-core/src/fen/fen_utils.rs:97-102 | piece sets with the same board for every kind are equal |
| PieceSets.ApplyMask | shakmat-core/src/board/chess_board.rs:562-569 | masking and-s every kind's board with the mask |
| PieceSets.All | shakmat-core/src/board/chess_board.rs:394-399 | the union holds a square exactly when some kind's board does |
| PieceSets.MaskOutSquare | shakmat-core/src/board/chess_board.rs:272-273 | masking with the complement of a square removes every man there and nothing else |
| Fen.ManOfLetter | shakmat-core/src/fen/fen_utils.rs:80-95 | a letter names a man exactly when it is one of `rnbqkpRNBQKP`, and the man prints as that letter |
| Fen.LetterRoundTrip | shakmat-core/src/fen/fen_utils.rs:80-95 | every man has its own letter, and reading it names the man |
| Fen.PutPlaces | shakmat-core/src/fen/fen_utils.rs:97-104 | after a put, a side's board of a kind holds a square exactly when it did before or the man put there is that side's man of that kind; only the put square's recorded kind changes |
| Fen.PutShows | shakmat-core/src/fen/fen_utils.rs:97-104 | placing a man on an empty cell of the grid the placement shows makes it show the grid with that man added |
| Fen.ShowsUnique | shakmat-core/src/fen/fen_utils.rs:97-104 | a grid determines the placement that shows it |
| Fen.LoadRowAccepts | shakmat-core/src/fen/fen_utils.rs:70-107 | a row is accepted exactly when it has only digits and man letters and no man past the h-file |
| Fen.LoadRowWrites | shakmat-core/src/fen/fen_utils.rs:70-107 | an accepted row, read onto a placement showing a grid whose rank is clear from the start file on, writes its men onto that rank and nothing else |
| Fen.ShortRowsAgree | shakmat-core/src/fen/fen_utils.rs:79 | while the file cannot reach 256, the cast to `u8` changes nothing |
| Fen.LoadRowsAccepts | shakmat-core/src/fen/fen_utils.rs:70-109 | the rows from `i` on are accepted exactly when each of them is, the first bad row stopping the loop |
| Fen.LoadRowsWrites | shakmat-core/src/fen/fen_utils.rs:70-109 | good rows, read onto a placement showing the rows before, give a placement showing the grid of all eight |
| Fen.LoadBoardWith | shakmat-core/src/fen/fen_utils.rs:63-118 | a field without 8 rows is an error, and an accepted field has a king of each colour |
| Fen.LoadBoardMeaning | shakmat-core/src/fen/fen_utils.rs:63-118 | the board field is accepted exactly when it has 8 good rows and a king of each colour, and the placement holds exactly the men it names |
| Fen.KingPresent | shakmat-core/src/fen/fen_utils.rs:111-115 | a colour's king board is non-empty exactly when the grid holds that king |
| Fen.LoadCastlingRights | shakmat-core/src/fen/fen_utils.rs:120-134 | the field is accepted exactly when it has only K, Q, k, q and '-', and each right is held exactly when it was already or its letter occurs |
| Fen.GrantMeaning | shakmat-core/src/fen/fen_utils.rs:123-129 | each of K, Q, k and q grants exactly the right it names, and any other character grants none |
| Fen.EnPassantOf | shakmat-core/src/fen/fen_utils.rs:51-54 | "-" gives the empty board; anything else is accepted exactly when it is a square, and gives that square's board |
| Fen.ReadFenWith | shakmat-core/src/fen/fen_utils.rs:20-24 | a text without exactly 6 words is refused with the number of words it has |
| Fen.ReadFields | shakmat-core/src/fen/fen_utils.rs:20-61 | six words that each read give the record of what each reads as |
| Fen.ReadAssembled | shakmat-core/src/fen/fen_utils.rs:20-61 | six good fields joined by spaces read back to the placement, side, castling rights, en passant square and counters they state |
| Fen.EnPassantTextReads | shakmat-core/src/fen/fen_utils.rs:51-54 | the printed en passant field reads back to the same square or to none |
| Fen.WrapRowStacksKings | shakmat-core/src/fen/fen_utils.rs:76-79 | with the cast, a row that skips 256 files places the black king on the white king's square; without it the row is refused |
| Fen.WrapBoardStacksKings | shakmat-core/src/fen/fen_utils.rs:63-118 | a whole placement field that the reader as written accepts with both kings on a8, and that the corrected reader refuses |
| Fen.WrapFieldStacksKings | shakmat-core/src/fen/fen_utils.rs:63-118 | any board field whose top row is the wrapping row and whose other rows are "8" is read, with the cast, as both kings on a8, and refused without it |
| BoardState.ColorBoard | shakmat-core/src/board/chess_board.rs:207-212 | a side's board holds a square exactly when one of its six kind boards does |
| BoardState.AllBoard | shakmat-core/src/board/chess_board.rs:214-216 | the board of all men holds a square exactly when either side's board does |
| BoardState.ShowsConsistent | shakmat-core/src/board/chess_board.rs:12-39 | a placement that shows a grid is consistent (boards and `piece_on_square` agree), and its own grid is that grid |
| BoardState.ConsistentShows | shakmat-core/src/board/chess_board.rs:12-39 | a consistent placement shows its own grid |
| BoardState.SlotDecodes | shakmat-core/src/zobrist/zobrist_utils.rs:5-12 | every slot below the castling slots is the slot of the (kind, side, square) it decodes to |
| BoardState.OccupancyFlip | shakmat-core/src/board/chess_board.rs:405-432 | toggling one bit of one board toggles exactly that man's slot of the occupancy vector |
| BoardState.FlipKey | shakmat-core/src/board/chess_board.rs:405-432 | toggling one bit of one board changes the men's key by exactly that man's Zobrist value |
| MoveGen.RangeValue | shakmat-core/src/board/movegen.rs:7-17 | a run of squares from `lo` to `hi - 1` is the word `2^hi - 2^lo` |
| MoveGen.MasksAreTheConstants | shakmat-core/src/board/movegen.rs:7-17 | the castle paths, the castle check squares and the third and sixth ranks are the ten constants of the source |
| MoveGen.UnionFrom | shakmat-core/src/board/movegen.rs:125-130 | the reduced union holds a square exactly when the attacks from one of the listed squares do |
| MoveGen.KindControlMeaning | shakmat-core/src/board/movegen.rs:125-130 | a kind's men control a square exactly when one of them attacks it from its own square |
| MoveGen.ControlledMeaning | shakmat-core/src/board/movegen.rs:120-133 | the controlled squares are exactly those some kind's men control |
| MoveGen.TargetsMeaning | shakmat-core/src/board/movegen.rs:66-95 | the moves built from a step board are exactly the normal non-e.p. moves of that kind from the square to a square of the board |
| MoveGen.KindMovesFromMeaning | shakmat-core/src/board/movegen.rs:66-95 | the moves of a kind from listed squares are exactly its normal moves from one of them to its step board |
| MoveGen.KindMovesMeaning | shakmat-core/src/board/movegen.rs:66-95 | a piece kind's moves are exactly the normal moves from one of the side's men of that kind to a square of its table not held by the side |
| MoveGen.PawnPushesMeaning | shakmat-core/src/board/movegen.rs:37-47 | a push reaches an empty square of the push table, and a double push is refused when the square passed over is occupied |
| MoveGen.CaptureMovesMeaning | shakmat-core/src/board/movegen.rs:33-35 | a pawn's captures are exactly the normal pawn moves to its attacked enemy or e.p. squares, flagged e.p. exactly on the e.p. index |
| MoveGen.PawnMovesOfMeaning | shakmat-core/src/board/movegen.rs:32-50 | one pawn's moves are exactly its captures and pushes |
| MoveGen.PawnMovesFromMeaning | shakmat-core/src/board/movegen.rs:32-50 | the pawn moves from listed squares are exactly the captures and pushes from one of them |
| MoveGen.PromoteMeaning | shakmat-core/src/board/movegen.rs:52-64 | a move not reaching the last rank is kept, and one reaching it becomes exactly its four promotions, queen, rook, bishop and knight |
| MoveGen.PromoteLength | shakmat-core/src/board/movegen.rs:52-64 | the list grows by three for each move reaching the last rank |
| MoveGen.PseudoLegalParts | shakmat-core/src/board/movegen.rs:19-118 | the list is the union of the pawn, rook, bishop, queen, knight, king and castle parts |
| MoveGen.PawnMovesMeaning | shakmat-core/src/board/movegen.rs:32-64 | the pawn part holds exactly the pawns' captures and pushes off the last rank, and the four promotions of each reaching it |
| MoveGen.CastlesOnlyFromCastling | shakmat-core/src/board/movegen.rs:97-115 | a castle is in the list exactly when the castling part has it |
| MoveGen.CastleListed | shakmat-core/src/board/movegen.rs:97-115 | a castle is listed exactly when the side keeps the right, the path is empty and no check square is attacked |
| MoveGen.PieceTargets | shakmat-core/src/board/movegen.rs:66-95 | the pieces' moves are normal, not e.p., not pawn moves, and never land on a man of the mover |
| MoveGen.PawnTargets | shakmat-core/src/board/movegen.rs:32-64 | a pawn move lands on an empty square, an enemy man or the e.p. square, and an e.p. flag means a pawn landing on the e.p. index |
| MoveGen.TargetsNotFriendly | shakmat-core/src/board/movegen.rs:19-118 | every non-castle move lands on a square without a man of the mover, on an enemy or on the e.p. square; only a pawn can land on a square the mover holds |
| MoveGen.NeverFriendly | shakmat-core/src/board/movegen.rs:19-118 | when no square holds both sides and the e.p. square holds none of the mover's men, no generated move lands on a man of the mover |
| ChessBoard.EpVictim | shakmat-core/src/board/chess_board.rs:255-259 | the square of a pawn taken en passant is one rank behind the target on the mover's side, and computing it below square 0 or above 63 panics |
| ChessBoard.ScratchKeyIgnoresKey | shakmat-core/src/board/chess_board.rs:405-432 | the key computed from scratch depends on the men, the castling rights, the turn and the e.p. square, never on the key already stored |
| ChessBoardFacts.FromFenMeaning | shakmat-core/src/board/chess_board.rs:42-68 | a FEN the reader refuses is refused with the reader's error; a FEN it accepts builds a board exactly when the move number is 1 to 32768, and then the board's men show the grid of the placement field, its turn, castling rights, e.p. square, fifty-move counter and move number are the other five fields, its ply count is twice the finished moves plus one when Black is to move, and its key equals the key computed from scratch |
| ChessBoardFacts.FromInfoMeaning | shakmat-core/src/board/chess_board.rs:44-66 | a full-move number of 0 panics on the `u16` subtraction and one past 32768 on the doubling; otherwise the fields are copied, the ply count is twice the finished moves plus one when Black is to move, and the key equals the key computed from scratch |
| ChessBoardFacts.CountersAdvance | shakmat-core/src/board/chess_board.rs:108-118 | a move played hands the turn over, adds one ply, and adds one to the move number exactly when Black moved |
| ChessBoardFacts.MakeMoveChecked | shakmat-core/src/board/chess_board.rs:70-80 | with the check a move is refused as illegal exactly when it is not in the legal list, a legal move is played as without the check, and without the check no move is refused as illegal |
| ChessBoardFacts.FilterLegalMeaning | shakmat-core/src/board/chess_board.rs:138-144 | the legality filter panics exactly when playing some non-castle move of the list panics, and otherwise keeps exactly the moves it accepts, in order |
| ChessBoardFacts.LegalMovesMeaning | shakmat-core/src/board/chess_board.rs:138-151 | a move is legal exactly when it is pseudo-legal and is a castle or, once played, leaves the mover's king outside the enemy's attacks |
| ChessBoardFacts.PseudoLegalMovesMeaning | shakmat-core/src/board/chess_board.rs:122-128 | a position drawn by the fifty-move counter or by insufficient material has no moves, a draw by material is never a check, and otherwise the list holds exactly the generator's moves |
| ChessBoardFacts.UpdateCastlingRightsMeaning | shakmat-core/src/board/chess_board.rs:358-392 | after a move the enemy loses the right whose rook's home square the move lands on, the mover loses both rights when its king moves and one right when that rook leaves home, and nothing else changes |
| ChessBoardFacts.EnemyRightsAfterMeaning | shakmat-core/src/board/chess_board.rs:361-380 | the enemy keeps a castling right exactly when it held it and the move does not land on that rook's home square |
| ChessBoardFacts.OwnRightsAfterMeaning | shakmat-core/src/board/chess_board.rs:382-391 | the mover keeps a castling right exactly when it held it and neither its king nor that rook moved from home |
| ChessBoardFacts.PassedSquare | shakmat-core/src/board/chess_board.rs:343-352 | the square a double push passes over lies midway between origin and destination |
| ChessBoardFacts.UpdateEnPassantMeaning | shakmat-core/src/board/chess_board.rs:329-356 | after a double push the e.p. square is the square passed over, after any other move there is none and the key is unchanged, and a pawn moving backwards in the generator's sense panics |
| ChessBoardFacts.CastleLayoutMeaning | shakmat-core/src/board/chess_board.rs:308-327 | the squares a castle needs empty are exactly those between king and rook, the squares it needs unattacked are the king's path, and king and rook land where the castle puts them |
| BoardKeys.TurnKeyFlip | shakmat-core/src/board/chess_board.rs:110-111 | handing the turn over changes the turn's part of the key by exactly the White-to-move value |
| BoardKeys.SetKindKey | shakmat-core/src/board/chess_board.rs:281-292 | recording a kind on the square index does not change the men's part of the key |
| BoardKeys.ClearIsFlip | shakmat-core/src/board/chess_board.rs:562-569 | masking a square off a side that holds exactly one man there toggles that man's key value |
| BoardKeys.MoveBitsIsFlips | shakmat-core/src/board/chess_board.rs:290 | toggling the bits of two different squares is two single toggles |
| BoardKeys.CaptureTracks | shakmat-core/src/board/chess_board.rs:255-277 | taking the victim off changes the key by the victim's value, just as it changes the men |
| BoardKeys.PlaceTracks | shakmat-core/src/board/chess_board.rs:279-293 | moving the man changes the key by its values on both squares, just as it changes the men |
| BoardKeys.MovePieceTracks | shakmat-core/src/board/chess_board.rs:232-306 | moving a piece between two squares keeps the key equal to the key computed from scratch for the new men and castling rights |
| BoardKeys.DropEpKeyTracks | shakmat-core/src/board/chess_board.rs:84-93 | dropping the e.p. value from a right key leaves exactly the key without its e.p. part |
| BoardKeys.CastleTracks | shakmat-core/src/board/chess_board.rs:308-327 | a castle whose king and rook land on squares the enemy does not hold keeps the key in step with the men and rights |
| BoardKeys.EpAdded | shakmat-core/src/board/chess_board.rs:343-353 | setting the e.p. square adds exactly the e.p. part that the side to move next sees |
| BoardKeys.FinishTracks | shakmat-core/src/board/chess_board.rs:105-118 | setting the e.p. square and handing the turn over complete a key equal to the key computed from scratch |
| BoardKeys.MakeMoveKeepsKey | shakmat-core/src/board/chess_board.rs:70-120 | the key updated move by move equals the key computed from scratch after every well-shaped move that does not panic, when it did before |
| BoardKeys.ConsistentExact | shakmat-core/src/board/chess_board.rs:12-39 | on a consistent board a square holds men of at most one side and of one kind |
| BoardKeys.PawnFromOwn | shakmat-core/src/board/movegen.rs:19-118 | every pawn move the generator lists starts on a pawn of the mover |
| BoardKeys.KindFromOwn | shakmat-core/src/board/movegen.rs:19-118 | every move the generator lists for the other kinds starts on a man of the mover of that kind |
| BoardKeys.GeneratedFromOwn | shakmat-core/src/board/movegen.rs:19-118 | every generated move other than a castle starts on a man of the mover, and a promotion on a pawn |
| BoardKeys.CastleLandsOnEmpty | shakmat-core/src/board/movegen.rs:19-118 | a castle the generator lists has the king's and the rook's landing squares empty |
| BoardKeys.ConsistentDisjoint | shakmat-core/src/board/chess_board.rs:12-39 | on a consistent board the two sides' occupancy boards never share a square |
| BoardKeys.GeneratedIsWellShaped | shakmat-core/src/board/movegen.rs:19-118 | every generated move other than a castle goes from one of the mover's men to a square the mover does not hold |
| BoardKeys.OwnToOtherIsWellShaped | shakmat-core/src/board/chess_board.rs:232-306 | a normal move or promotion from one of the mover's men to a square the mover does not hold is a move the key update handles |
| BoardKeys.ListedIsWellShaped | shakmat-core/src/board/chess_board.rs:122-144 | on a consistent board whose e.p. square is not the mover's, every listed move is one the key update handles |
| BoardKeys.CheckedMoveKeepsKey | shakmat-core/src/board/chess_board.rs:70-120 | a move played with the legality check keeps the key equal to the key computed from scratch on a consistent board whose e.p. square is not the mover's |
| GameKeys.MovePieceShows | shakmat-core/src/board/chess_board.rs:232-306 | moving one of the mover's men onto a square it does not hold changes the grid of the men by exactly the move: the origin empties, the target holds the landing kind, and a pawn taken e.p. disappears |
| GameKeys.ListedFits | shakmat-core/src/board/movegen.rs:19-118 | on a board whose records agree and whose e.p. square is backed, every listed move but a castle is a normal move or promotion from a man of the mover to a square it does not hold, with an enemy pawn behind an e.p. target |
| GameKeys.EpTakenRank | shakmat-core/src/board/chess_board.rs:255-259 | a White e.p. capture lands on the sixth rank and takes on the fifth; a Black one lands on the third and takes on the fourth |
| GameKeys.CastleConsistent | shakmat-core/src/board/chess_board.rs:308-327 | a castle with no enemy man on the king's or rook's home square and both landing squares empty keeps the men's records in agreement |
| GameKeys.PlayedCastleConsistent | shakmat-core/src/board/chess_board.rs:96-100 | a listed castle with no enemy man on the king's or rook's home square keeps the men's records in agreement |
| GameKeys.PlayedMoveShows | shakmat-core/src/board/chess_board.rs:101-103 | a listed move other than a castle moves a man of the mover to its target with its landing kind, takes the victim off, and keeps the men's records in agreement |
| GameKeys.DoubleStep | shakmat-core/src/board/movegen.rs:32-64 | with pawn tables that point forward, a pawn move of two ranks starts on the pawn's home rank and passes over an empty square |
| GameKeys.DoubleStepBacked | shakmat-core/src/board/chess_board.rs:329-356 | after a double step the square passed over is empty, on the third or sixth rank, with the pawn that passed it right ahead of it |
| GameKeys.UncheckedKeepsShape | shakmat-core/src/board/chess_board.rs:82-118 | a listed move played keeps the men's records in agreement and the e.p. square backed by the pawn that passed over it |
| GameKeys.CheckedMoveKeepsSound | shakmat-core/src/board/chess_board.rs:70-120 | one move played with the legality check keeps a sound board sound: the key right, the men's records in agreement and the e.p. square backed |
| GameKeys.PrefixPlays | shakmat-core/src/board/chess_board.rs:70-80 | a game that plays to its end without an error plays every prefix of it without an error |
| GameKeys.GameKeepsSound | shakmat-core/tests/test_zobrist.rs:12-20 | a game played move by move with the legality check from a sound board ends on a sound board, whose key equals the key computed from scratch |
| GameKeys.EveryPrefixKeepsKey | shakmat-core/tests/test_zobrist.rs:7-21 | after every prefix of such a game the incremental key equals the key computed from scratch |
| GameKeys.FenStartSound | shakmat-core/src/board/chess_board.rs:42-68 | a board read from a FEN whose e.p. field is "-" is sound |
| GameKeys.FenGameKeepsKey | shakmat-core/tests/test_zobrist.rs:7-21 | in a game played from such a FEN board, the key after every prefix equals the key a FEN of that position would give, the key computed from scratch |
| MoveEffects.MovePieceFails | shakmat-core/src/board/chess_board.rs:232-306 | moving a piece panics exactly when no man stands on the origin, when the e.p. victim's square is off the board, when the enemy's board shows a man the square index does not, or when a quiet non-pawn move overflows the `u16` fifty-move counter |
| MoveEffects.MovePieceEffects | shakmat-core/src/board/chess_board.rs:232-306 | after moving a piece the destination holds the landing kind and the origin nothing, only the e.p. victim's square also changes, and the fifty-move counter resets on a pawn move or capture and otherwise grows by one |
| MoveEffects.CastleWithoutKingFails | shakmat-core/src/board/chess_board.rs:308-327 | a castle played without the king at home panics at the king's `unwrap` |
| MoveEffects.CastleIsListed | shakmat-core/src/board/movegen.rs:19-118 | a castle the generator allows is among the generated moves |
| MoveEffects.CastleWithoutKingPanics | shakmat-core/src/board/chess_board.rs:138-144 | with a castle right whose king is not at home, the generator lists the castle when its path is empty and unattacked, the legal list keeps it, and playing it panics |
| MoveEffects.CastleEffects | shakmat-core/src/board/chess_board.rs:308-327 | with king and rook at home and their landing squares free of the enemy, a castle moves both, adds one to the fifty-move counter, takes both rights from the mover and leaves the enemy's rights alone |
| Perft.FilterIsFilterLegal | shakmat-core/src/board/perft.rs:36-43 | the filter of the count keeps the same moves as the legality filter of `legal_moves` |
| Perft.CountMovesOverFilter | shakmat-core/src/board/perft.rs:36-43 | counting over the pseudo-legal moves sums the subtree counts of exactly the moves the legality filter keeps |
| Perft.CountOverLegal | shakmat-core/src/board/perft.rs:16-47 | the count at depth 1 is the number of legal moves, and at any other depth the sum over the legal moves of the counts one level down |
| Perft.SoundAfter | shakmat-core/src/board/perft.rs:45 | what the count stores keeps a cache whose entries are right for the tree right, when keys decide the counts |
| Perft.PerftAgrees | shakmat-core/src/board/perft.rs:16-47 | with a cache whose entries are right for the tree, the cached count equals the count without a cache, and the cache only gains right entries |
| Perft.PerftFresh | shakmat-core/src/board/perft.rs:8-10 | starting from an empty cache, the count equals the count without a cache whenever keys decide the counts |
| Perft.PerftHit | shakmat-core/src/board/perft.rs:17-19 | a key and depth already in the cache are answered from it and the cache is unchanged |
| Perft.PerftStores | shakmat-core/src/board/perft.rs:45-46 | a count computed at a depth other than 1 is stored under the key and depth, and no entry already present changes |
| Perft.PerftKeeps | shakmat-core/src/board/perft.rs:16-47 | every entry present before the count is present afterwards with the same value |
| Server.RandomString | shakmat-server/src/state.rs:102-108 | the string has the requested length and character `i` is the character set's entry at draw `i` |
| Server.CharsetIsAlphanumeric | shakmat-server/src/state.rs:103-105 | a character is in the set exactly when it is an ASCII letter or digit |
| Server.GameKeyShape | shakmat-server/src/state.rs:7 | a game key has 15 characters, each an ASCII letter or digit |
| Server.MoveMapSome | shakmat-server/src/state.rs:69-76 | the move map can be built exactly when every legal move prints |
| Server.MoveMapStep | shakmat-server/src/state.rs:70-73 | the map of a list exists exactly when that of the list without its last move does and the last move prints |
| Server.MoveMapValues | shakmat-server/src/state.rs:70-73 | each key of the map maps to a move of the list whose lower-cased notation is that key |
| Server.MoveMapKeys | shakmat-server/src/state.rs:70-73 | the lower-cased notation of every move of the list is a key of the map |
| Server.MoveMapMeaning | shakmat-server/src/state.rs:69-76 | the map exists exactly when every move prints, and then its keys are exactly the moves' notations and each maps to a move printed under it |
| Server.CastleKeys | shakmat-core/src/game_elements/movement.rs:94-113 | castles are filed under `o-o` and `o-o-o` |
| Server.MoveKeyInjective | shakmat-core/src/game_elements/movement.rs:94-113 | two printable moves with the same lower-cased notation are the same move |
| Server.MoveMapFinds | shakmat-server/src/state.rs:69-76 | in the map of printable moves each move is found under its own notation |
| Server.ChessPrintsLegal | shakmat-core/src/board/movegen.rs:19-118 | every legal move of the board prints, since promotions go only to a queen, rook, bishop or knight |
| Server.LegalMovesPrintable | shakmat-core/src/board/chess_board.rs:138-144 | a move in the legal list prints |
| Server.GeneratedPromotion | shakmat-core/src/board/movegen.rs:19-118 | a generated promotion is to a queen, rook, bishop or knight |
| Server.GetBoard | shakmat-server/src/state.rs:43-45 | the board is found exactly when the game exists, and is that game's board |
| Server.GetGameMoves | shakmat-server/src/state.rs:47-49 | the move map is found exactly when the game exists, and is that game's map |
| Server.GetHistory | shakmat-server/src/state.rs:51-53 | the history is found exactly when the game exists, and is that game's list of keys |
| Server.GetTurnInfo | shakmat-server/src/state.rs:39-41 | the turn information is found exactly when the game exists, and is built from its board and history |
| Server.MoveMapOk | shakmat-server/src/state.rs:69-76 | the map of a list of printable moves has exactly the moves' notations as keys, each mapping to its move |
| Server.UpdateGameMovesMeaning | shakmat-server/src/state.rs:69-81 | refreshing the move map succeeds exactly when the game exists and its legal moves can be listed and printed, and then changes only that game's map, to the right one |
| Server.CreateGameMeaning | shakmat-server/src/state.rs:32-37 | a rejected FEN is returned as an error and nothing is stored; an accepted one is stored under the drawn key with its board, a history of its key, and the right move map, the other games untouched; when building the map panics, the game stays inserted with an empty map |
| Server.MakeMoveMeaning | shakmat-server/src/state.rs:58-66 | a move made on an existing game replaces its board by the successor, adds the successor's key to its history, refreshes its map and leaves the other games alone; a missing game or a refused move changes nothing; when refreshing the map panics, the new board and history are already written and the old map stays |
| Server.MakeMoveKeepsGames | shakmat-server/src/state.rs:58-81 | when the move does not panic, every game keeps its board, history and map in agreement; when it panics, every other game still does; the set of games never changes, and the game moved in gains one history entry exactly when the move is played |
| Server.UnderLock | shakmat-server/src/handlers.rs:47-63 | a request on a poisoned lock panics at `lock().unwrap()` and changes nothing; otherwise it runs on the registry, and the lock ends poisoned exactly when it was or the request panicked |
| Server.LockedMoveKept | shakmat-server/src/handlers.rs:47-63 | behind the lock, a move keeps every game in agreement as long as the lock is not poisoned, and poisons it exactly when it panics |
| Server.LockedCreateKept | shakmat-server/src/handlers.rs:18-36 | behind the lock, creating a game keeps every game in agreement as long as the lock is not poisoned, and poisons it exactly when it panics |
| Server.CrashPoisonsLater | shakmat-server/src/handlers.rs:39-41 | after a move that panics under the lock, every later request panics at `lock().unwrap()` and changes nothing |
| Sorting.Insert | shakmat-engine/src/search/move_ordering.rs:33 | inserting into a sorted sequence keeps it sorted and adds exactly the one element |
| Sorting.PrependSorted | shakmat-engine/src/search/move_ordering.rs:33 | an element no larger than the head of a sorted sequence can go in front of it |
| Sorting.SortBy | shakmat-engine/src/search/move_ordering.rs:33 | the result is a permutation of the input whose keys never decrease |
| Sorting.SortKeepsSorted | shakmat-engine/src/polyglot/book.rs:43 | the model's sort, which is stable like `sort_by`, leaves a sequence already sorted by the key as it is |
| Sorting.SortIdempotent | shakmat-engine/src/polyglot/book.rs:43 | sorting twice with the model's stable sort gives the same as sorting once |
| Sorting.SortByStable | shakmat-engine/src/polyglot/book.rs:43 | the elements of any one key come out in the order they went in: each key's subsequence is the same before and after sorting, as the stable `sort_by` promises |
| Sorting.KeyedFirst | shakmat-engine/src/polyglot/book.rs:43 | the first element of a key's subsequence is the earliest element of the input with that key |
| Sorting.SortByMembers | shakmat-engine/src/search.rs:248 | the sorted sequence has the input's length and only elements of the input |
| Repetition.CandidatesFromMeaning | shakmat-engine/src/search/searching.rs:613-620 | the visited indices are exactly those at or after the window start, at most the start index and an even distance below it |
| Repetition.CandidatesFromDecrease | shakmat-engine/src/search/searching.rs:617-618 | the visited indices strictly decrease, newest first |
| Repetition.MatchesFromMeaning | shakmat-engine/src/search/searching.rs:622-623 | a match is a visited index whose stored key equals the current key |
| Repetition.WindowStart | shakmat-engine/src/search/searching.rs:606 | the window start is at most the ply, and equals the source's subtraction whenever that does not underflow |
| Repetition.IsDrawByRepetition | shakmat-engine/src/search/searching.rs:600-634 | the scan returns a draw exactly when the matches, newest first, reach a second occurrence after the last played ply or a third occurrence |
| Repetition.HalfMoveClockAboveUnderflows | shakmat-engine/src/search/searching.rs:606 | with a half-move clock of 10 at ply 0 the `u16` subtraction underflows and the as-written scan fails |
| Repetition.AsWrittenAgrees | shakmat-engine/src/search/searching.rs:600-634 | whenever the as-written subtractions do not underflow, the as-written scan and the corrected one agree |
| Repetition.TwoEarlierOccurrencesDraw | shakmat-engine/src/search/searching.rs:595-599 | two earlier occurrences of the key among the visited positions always make a draw |
| Repetition.NoMatchNoDraw | shakmat-engine/src/search/searching.rs:622-633 | with no visited position holding the key there is no draw |
| History.CellInjective | shakmat-engine/src/search/history.rs:4-7 | two (side, origin, destination) triples share a cell exactly when they are equal |
| History.New | shakmat-engine/src/search/history.rs:10-12 | a new table scores every cell zero |
| History.FromTo | shakmat-engine/src/search/history.rs:42-49 | castles are filed under the king's two-square move from its home square, every other move under its own origin and destination |
| History.CellOf | shakmat-engine/src/search/history.rs:14-17 | every move is filed in one of the 2 x 64 x 64 cells |
| History.Age | shakmat-engine/src/search/history.rs:31-39 | ageing halves every cell, rounding toward zero |
| History.AddBonusMeaning | shakmat-engine/src/search/history.rs:19-29 | without ageing only the move's cell changes, by the bonus; once the new value passes the maximum, every cell is halved after the addition |
| History.AddBonusPlain | shakmat-engine/src/search/history.rs:19-23 | without ageing the move's cell gains the bonus and every other cell keeps its value |
| History.MalusNeverAges | shakmat-engine/src/search/history.rs:26-28 | a non-positive bonus never ages a table within the maximum, and the table stays within it |
| History.AddBonusKeepsBound | shakmat-engine/src/search/history.rs:19-29 | any bonus up to the maximum history value keeps a table within the maximum |
| History.AddBonusChecked | shakmat-engine/src/search/history.rs:19-29 | the addition panics exactly when the move's cell plus the bonus leaves `i32`, and otherwise gives the table `AddBonus` describes |
| History.BoundedCellOverflowsDown | shakmat-engine/src/search/history.rs:22 | the maximum caps cells only from above: a bounded table whose cell holds `i32::MIN + 1` panics on a bonus of -2 |
| History.HalfBelow | shakmat-engine/src/search/history.rs:35 | halving a value at most a bound, rounding toward zero, gives at most half the bound |
| PvLine.New | shakmat-engine/src/search/pv_line.rs:9-11 | a new line is empty and has no first move |
| PvLine.Clear | shakmat-engine/src/search/pv_line.rs:13-15 | a cleared line is empty and has no first move |
| PvLine.First | shakmat-engine/src/search/pv_line.rs:17-19 | the first move is missing exactly for an empty line, and otherwise is the head |
| PvLine.Append | shakmat-engine/src/search/pv_line.rs:24 | appending puts the child's moves after the line's own, in order, and leaves the child empty |
| PvLine.WriteAt | shakmat-engine/src/search/pv_line.rs:23 | an indexed write succeeds exactly below the length and then changes that one entry; past the end it panics |
| PvLine.UpdateLineAsWrittenPanics | shakmat-engine/src/search/pv_line.rs:21-25 | as written, updating a line always panics, since the write at index 0 follows the clear |
| PvLine.UpdateLine | shakmat-engine/src/search/pv_line.rs:21-25 | the corrected update makes the line the move followed by the child's line and empties the child |
| PvLine.UpdateLineMeaning | shakmat-engine/src/search/pv_line.rs:21-25 | after the corrected update the first move is the move, the child's moves follow in order, and the old line does not matter |
| MoveOrdering.ValueOfCapture | shakmat-engine/src/search/move_ordering.rs:73-82 | the corrected victim values run from 100 to 1000 and agree with the source's table on every victim but the king |
| MoveOrdering.CaptureScore | shakmat-engine/src/search/move_ordering.rs:46 | with the corrected king value every capture scores strictly inside the capture band, above the killers and below a recapture |
| MoveOrdering.CaptureScoreAsWrittenOverflows | shakmat-engine/src/search/move_ordering.rs:39-82 | as written the capture score leaves `i32` exactly when the victim is a king, and otherwise equals the corrected score |
| MoveOrdering.MostValuableVictimFirst | shakmat-engine/src/search/move_ordering.rs:59-82 | a capture of a more valuable victim is rated above one of a less valuable victim, whatever the two attackers |
| MoveOrdering.LeastValuableAttackerNext | shakmat-engine/src/search/move_ordering.rs:59-71 | for the same victim, a capture is rated higher exactly when its attacker is less valuable |
| MoveOrdering.RatingInBand | shakmat-engine/src/search/move_ordering.rs:4-20 | with history scores at most the maximum history value, every rating lies in its tier's band |
| MoveOrdering.TiersOrdered | shakmat-engine/src/search/move_ordering.rs:5-11 | a move of a better tier is rated strictly higher than a move of a worse one |
| MoveOrdering.RatingAsWrittenMeaning | shakmat-engine/src/search/move_ordering.rs:39-57 | as written the rating fails exactly on a capture of a king, and otherwise equals the corrected rating |
| MoveOrdering.RookTakesKingOverflows | shakmat-engine/src/search/move_ordering.rs:80 | a rook on h1 taking a king on h2 overflows `i32` as written |
| MoveOrdering.RateMove | shakmat-engine/src/search/move_ordering.rs:39-57 | the rated move keeps the move and its negated rating fits an `i32` |
| MoveOrdering.RateAll | shakmat-engine/src/search/move_ordering.rs:32 | each move is rated in the input order |
| MoveOrdering.OrderMoves | shakmat-engine/src/search/move_ordering.rs:31-35 | the ordered list is a permutation of the rated moves with ascending negated ratings |
| MoveOrdering.OrderMovesMeaning | shakmat-engine/src/search/move_ordering.rs:31-35 | the ordered list holds the input moves, each with its own negated rating, from the highest rating to the lowest |
| MoveOrdering.RateMoveCheckedMeaning | shakmat-engine/src/search/move_ordering.rs:39-57 | as written, rating panics exactly on a capture of a king or on a history-rated move whose cell holds `i32::MIN`, and otherwise gives the rated move `RateMove` describes |
| MoveOrdering.RateAllCheckedMeaning | shakmat-engine/src/search/move_ordering.rs:32 | rating the list panics exactly when rating one of its moves does, and otherwise rates each move in input order |
| MoveOrdering.OrderMovesCheckedMeaning | shakmat-engine/src/search/move_ordering.rs:31-35 | ordering panics exactly when some move captures a king or is history-rated from a cell at `i32::MIN`, and otherwise gives the list `OrderMoves` describes |
| MoveOrdering.HistoryAtMinPanics | shakmat-engine/src/search/move_ordering.rs:52-56 | a history-rated move whose cell holds `i32::MIN` panics on the negation |
| MoveOrdering.PvMoveFirst | shakmat-engine/src/search/move_ordering.rs:40-41 | when the table move is among the moves and the history is bounded, it comes first |
| MoveOrdering.TopRatingIsPv | shakmat-engine/src/search/move_ordering.rs:15-20 | only the table move is rated at the top of the scale |
| OldMoveOrdering.RatingByTier | shakmat-engine/src/move_ordering.rs:26-42 | the table move alone gets 10000, a capture `100 + victim - attacker`, a recapture of the last moved square 1000, either killer 50, and any other move 0 |
| OldMoveOrdering.TiersOrdered | shakmat-engine/src/move_ordering.rs:26-42 | apart from captures of a king, a better tier means a strictly higher rating |
| OldMoveOrdering.KingCaptureReachesTableMove | shakmat-engine/src/move_ordering.rs:65 | a capture of a king is rated at least as high as the table move |
| OldMoveOrdering.OrderMovesMeaning | shakmat-engine/src/move_ordering.rs:18-22 | the ordered list holds the input moves with their own negated ratings, highest rating first |
| OldSearch.RatingBands | shakmat-engine/src/search.rs:254-264 | every rating fits an `i16`; the table move alone gets 10000; a capture of anything but a king is worth 1 to 890, of a king 9900 to 9989; any other move 0 |
| OldSearch.OrderMovesMeaning | shakmat-engine/src/search.rs:246-250 | the ordered list holds exactly the input moves with their own ratings, highest first |
| OldSearch.NodePlan | shakmat-engine/src/search.rs:103-123 | a node is a draw exactly on a repetition, a fifty-move counter of 100 or more, or too little material |
| OldSearch.NodePlanMeaning | shakmat-engine/src/search.rs:110-123 | a side in check searches one ply deeper and never goes to the quiescence search; a side not in check goes to it exactly at depth 0 |
| OldSearch.TerminalScore | shakmat-engine/src/search.rs:191-202 | the score of a node without legal moves is a valid evaluation above the `i16` minimum |
| OldSearch.TerminalMeaning | shakmat-engine/src/search.rs:191-202 | a mate found `d` plies from the root prints as "-M{d}" and one ply up as "M{d}", nearer mates score higher for the mating side, and a stalemate scores the contempt 0, which is no mate |
| OldSearch.Clamp | shakmat-engine/src/search.rs:64-65 | the clamped score is always a valid score and equals the input when that already is one |
| OldSearch.StepMeaning | shakmat-engine/src/search.rs:51-68 | the depth advances only on a score strictly inside the window, a fail low widens alpha to the minimum and a fail high widens beta to the maximum, and the next window lies within 30 of the score |
| OldSearch.FindBest | shakmat-engine/src/search.rs:30-80 | the corrected deepening loop starts at depth 1 with the full window, each attempt follows from the one before, it ends after an advance at the maximum depth, and it makes at most three attempts per depth |
| OldSearch.MatedRootSpins | shakmat-engine/src/search.rs:52-56 | as written, a mated root keeps failing low at depth 1 and never advances, whatever the fuel |
| OldSearch.MatedRootNeverEnds | shakmat-engine/src/search.rs:44-69 | as written, when the side to move is already mated the loop never ends |
| OldSearch.MateInOneOverflows | shakmat-engine/src/search.rs:64-65 | as written, a mate in one found at depth 1 pushes the next beta out of `i16` |
| OldSearch.CorrectedLoopEnds | shakmat-engine/src/search.rs:30-80 | the corrected loop ends on both of those positions, returning the mate scores themselves |
| Minimax.MaxFromMeaning | shakmat-engine/src/minimax.rs:24-27 | the maximum fold returns the accumulator or an element, at least as large as all of them, and an element it returns is the last one with its score |
| Minimax.MinFromMeaning | shakmat-engine/src/minimax.rs:24-27 | the minimum fold returns the accumulator or an element, at most as large as all of them, and no earlier element has its score |
| Minimax.MaxOfMeaning | shakmat-engine/src/minimax.rs:25 | the maximum of a non-empty list is one of its elements and at least as large as all of them |
| Minimax.MinOfMeaning | shakmat-engine/src/minimax.rs:26 | the minimum of a non-empty list is one of its elements and at most as large as all of them |
| Minimax.FindBestLeaf | shakmat-engine/src/minimax.rs:14-16 | at the depth limit or without legal moves there is no move and the score is the static evaluation |
| Minimax.FindBestWhite | shakmat-engine/src/minimax.rs:25 | White chooses a child of maximal score, the last such child |
| Minimax.FindBestBlack | shakmat-engine/src/minimax.rs:26 | Black chooses a child of minimal score, the first such child |
| Minimax.FindBestChoice | shakmat-engine/src/minimax.rs:11-30 | below the limit with a legal move, the result is one of the moves scored with its child's own result, at least as good for the side to move as every other move |
| Minimax.FindBestIsMinimax | shakmat-engine/src/minimax.rs:11-30 | the search computes the minimax value of the game tree |
| Minimax.CompareByScore | shakmat-engine/src/minimax.rs:44-62 | results compare and are equal by their scores alone, whatever their moves |
| Evaluate.Neg | shakmat-engine/src/evaluation/evaluate.rs:193-199 | negating a score other than `i16::MIN` gives a valid score other than `i16::MIN` |
| Evaluate.Add | shakmat-engine/src/evaluation/evaluate.rs:209-215 | adding an `i16` amount that does not overflow gives a valid score |
| Evaluate.Sub | shakmat-engine/src/evaluation/evaluate.rs:201-207 | subtracting an `i16` amount that does not overflow gives a valid score |
| Evaluate.NegBounds | shakmat-engine/src/evaluation/evaluate.rs:169-178 | the minimum and maximum negate into each other, negation is an involution, and every score lies between the two |
| Evaluate.NegReversesOrder | shakmat-engine/src/evaluation/evaluate.rs:193-199 | negation reverses the order of scores and keeps them distinct |
| Evaluate.AddSubInverse | shakmat-engine/src/evaluation/evaluate.rs:201-215 | subtracting an added amount gives back the score, and adding raises it exactly when the amount is positive |
| Evaluate.MateBands | shakmat-engine/src/evaluation/evaluate.rs:184-190 | a score is a mate for the side to move from `i16::MAX - 100` up and against it up to `i16::MIN + 101`; the bands are disjoint and swap under negation |
| Evaluate.MateText | shakmat-engine/src/evaluation/evaluate.rs:245-255 | a score prints as a mate exactly when it is in one of the mate bands |
| Evaluate.MateDisplay | shakmat-engine/src/evaluation/evaluate.rs:245-255 | a mate `d` plies away prints as "M{d}" for the winner and "-M{d}" for the loser, whose score is the winner's negated, and the digits read back as `d` |
| Evaluate.GamePhase | shakmat-engine/src/evaluation/evaluate.rs:150-156 | the phase exists exactly when `units * 256` stays inside `i16`, and is then an `i16` |
| Evaluate.PhaseRange | shakmat-engine/src/evaluation/evaluate.rs:150-156 | within the starting set of men the phase lies in [0, 256], and swapping the colours does not change it |
| Evaluate.PhaseEnds | shakmat-engine/src/evaluation/evaluate.rs:150-156 | the phase is 0 with every piece on the board and 256 with none |
| Evaluate.PhaseInRange | shakmat-engine/src/evaluation/evaluate.rs:150-156 | a phase unit count of 0 to 24 gives a phase of 0 to 256 |
| Evaluate.AddTerm | shakmat-engine/src/evaluation/evaluate.rs:52-53 | adding a term to both halves succeeds exactly when neither sum leaves `i16`, and then adds exactly the term |
| Evaluate.MaterialTerm | shakmat-engine/src/evaluation/evaluate.rs:45-54 | when no step overflows, the material term is White's weighted count minus Black's |
| Evaluate.MaterialFits | shakmat-engine/src/evaluation/evaluate.rs:45-54 | with at most fifteen men a side the material term never overflows |
| Evaluate.PlausibleWeights | shakmat-engine/src/evaluation/evaluate.rs:46-50 | fifteen men weigh at most 13500, as does every partial sum of the weights |
| Evaluate.ControlTerm | shakmat-engine/src/evaluation/evaluate.rs:58-63 | the control term is the difference in controlled squares in the opening and twice that in the endgame, non-negative exactly when White controls at least as many |
| Evaluate.BishopPairMeaning | shakmat-engine/src/evaluation/evaluate.rs:99-108 | the bishop pair is worth 20 in the opening and 60 in the endgame to the side that alone has it, nothing when both or neither do, and swapping colours negates it |
| Evaluate.ComputeScore | shakmat-engine/src/evaluation/evaluate.rs:143-148 | a computed score is a valid evaluation |
| Evaluate.ComputeScoreInterpolates | shakmat-engine/src/evaluation/evaluate.rs:143-148 | for a phase in [0, 256] no cast wraps, the score is the interpolation signed for the side to move, and Black to move gets White's score negated |
| Evaluate.MixInterpolates | shakmat-engine/src/evaluation/evaluate.rs:146 | for a phase in [0, 256] the interpolation lies between the opening and the endgame score and fits `i32` before the division |
| Evaluate.MixEnds | shakmat-engine/src/evaluation/evaluate.rs:146 | the interpolation is the opening score at phase 0 and the endgame score at phase 256 |
| Evaluate.MixBetween | shakmat-engine/src/evaluation/evaluate.rs:146 | the weighted sum lies between 256 times the smaller and 256 times the larger score |
| Evaluate.AccumulateExact | shakmat-engine/src/evaluation/evaluate.rs:33-42 | when the terms are small enough, none of the five additions overflows and the result is their plain sum |
| Evaluate.EvaluateDefined | shakmat-engine/src/evaluation/evaluate.rs:33-42 | with at most fifteen men a side, a positional term of at most 10000 and a non-negative phase count, evaluating never overflows and gives the tapered sum of the terms, signed for the side to move |
| Evaluate.EvaluateSteps | shakmat-engine/src/evaluation/evaluate.rs:33-42 | under those bounds the phase is in [0, 256], the material term is the weighted difference, and the additions give the plain sum of the terms |
| Evaluate.TermsAccumulate | shakmat-engine/src/evaluation/evaluate.rs:36-40 | with at most fifteen men a side the additions give the plain sum, well inside `i16` |
| Evaluate.RawTermsFit | shakmat-engine/src/evaluation/evaluate.rs:36-40 | terms of these sizes sum to well inside `i16` |
| Evaluate.EvaluateIsTaper | shakmat-engine/src/evaluation/evaluate.rs:33-42 | once the phase, the material and the sum of the terms are known, the evaluation is their taper |
| EvalData.SideOf | shakmat-engine/src/evaluation/eval_data.rs:27-37 | the counts of a side's boards are counts of at most 64 men |
| EvalData.New | shakmat-engine/src/evaluation/eval_data.rs:26-60 | building the record succeeds exactly when both kings are on the board and the phase does not overflow |
| EvalData.NewMeaning | shakmat-engine/src/evaluation/eval_data.rs:39-59 | a fresh record has no attackers and no weight, the whole board as safe area, both running scores zero, the phase of the material, and king rings centred on each king's square |
| EvalData.GetPiecesMeaning | shakmat-engine/src/evaluation/eval_data.rs:69-74 | each side's boards are returned as given |
| EvalData.FreshScoreIsZero | shakmat-engine/src/evaluation/eval_data.rs:59-67 | a fresh record scores 0 from either side |
| EvalData.ComputeScoreMeaning | shakmat-engine/src/evaluation/eval_data.rs:62-67 | with the phase in [0, 256] the score is the interpolation of the two running scores signed for the side to move, the midgame score at phase 0 and the endgame score at phase 256 |
| EvalData.NewPhaseRange | shakmat-engine/src/evaluation/eval_data.rs:51-55 | within the starting set the phase of a fresh record lies in [0, 256] |
| EvalMasks.BuildTable | shakmat-engine/src/evaluation/init.rs:6-56 | the loop over every square and every other square builds exactly the table of the mask's definition |
| EvalMasks.InitEvaluation | shakmat-engine/src/evaluation/init.rs:5-57 | the six tables have 64 entries each and every entry is the mask its definition describes |
| EvalMasks.MaskShapes | shakmat-engine/src/evaluation/init.rs:17-41 | the file and rank masks hold exactly the squares on the square's file or rank; the square is in its own masks and rings, the inner ring lies in the outer, and both rings are symmetric |
| EvalMasks.PassedPawnShapes | shakmat-engine/src/evaluation/init.rs:44-53 | passed-pawn masks hold squares on the same or a neighbouring file, ahead for White and behind for Black, never the square itself, and the two masks mirror each other |
| PieceEval.Files | shakmat-engine/src/evaluation/pieces.rs:4-13 | a file mask holds exactly the squares of that file |
| PieceEval.Repeat | shakmat-engine/src/evaluation/pieces.rs:4-13 | a byte repeated `n` times has `n` times its length |
| PieceEval.RepeatIndex | shakmat-engine/src/evaluation/pieces.rs:4-13 | bit `i` of a repeated byte is bit `i mod 8` of the byte |
| PieceEval.RepeatBits | shakmat-engine/src/evaluation/pieces.rs:4-13 | a byte repeated `n` times has as its value the byte's value times `1 + 256 + ... + 256^(n-1)` |
| PieceEval.FilesAsRepeat | shakmat-engine/src/evaluation/pieces.rs:4-13 | the eight bytes of a file mask are alike |
| PieceEval.ByteOnesEight | shakmat-engine/src/evaluation/pieces.rs:5 | eight ones bytes make `0x0101010101010101` |
| PieceEval.FileWordsShifted | shakmat-engine/src/evaluation/pieces.rs:4-13 | the eight constants are `0x0101010101010101` shifted left by the file |
| PieceEval.FilesMatchConstants | shakmat-engine/src/evaluation/pieces.rs:4-13 | each file mask is the matching constant of `FILES` |
| PieceEval.FilesAgreeWithMasks | shakmat-engine/src/evaluation/pieces.rs:23 | `FILES[s % 8]` is the file mask the start-up code builds for `s` |
| PieceEval.RookScoreMeaning | shakmat-engine/src/evaluation/pieces.rs:19-28 | a rook scores 520 exactly when no pawn shares its file, and otherwise 500 |
| PieceEval.SumRooksBounds | shakmat-engine/src/evaluation/pieces.rs:17-31 | `n` rooks score between 500n and 520n |
| PieceEval.EvalRooksBounds | shakmat-engine/src/evaluation/pieces.rs:17-31 | the rook term of `n` rooks lies in [500n, 520n], and is 0 without rooks |
| PieceEval.SumRooksOpen | shakmat-engine/src/evaluation/pieces.rs:24-26 | without pawns every listed rook earns its bonus |
| PieceEval.NoPawnsAllOpen | shakmat-engine/src/evaluation/pieces.rs:17-31 | on a board without pawns the rook term is 520 per rook |
| SimpleEval.PieceScore | shakmat-engine/src/evaluation.rs:27-37 | a side's material score is between 0 and 64 times 2100 |
| SimpleEval.EvaluatePosition | shakmat-engine/src/evaluation.rs:6-20 | every score fits an `i32` |
| SimpleEval.PieceScoreIsWeighted | shakmat-engine/src/evaluation.rs:22-37 | the material weights are 100, 300, 300, 500 and 900, those of the later evaluation's material term |
| SimpleEval.TerminalScores | shakmat-engine/src/evaluation.rs:8-16 | without moves the score is `i32::MIN` when White is mated, `i32::MAX` when Black is, and 0 for a stalemate |
| SimpleEval.StaticScore | shakmat-engine/src/evaluation.rs:18-19 | with a move available the score is the material balance plus five times the control balance, strictly between the extremes of `i32` |
| SimpleEval.MirrorNegates | shakmat-engine/src/evaluation.rs:3-5 | exchanging the colours negates a static score, turns a mate of one side into a mate of the other, and keeps a stalemate at 0 |
| TimeManager.NewPerMove | shakmat-engine/src/time.rs:24-38 | a per-move time of `ms` milliseconds gives the hard budget `ms * 1000 - 10000` exactly when `ms` is at least 10 and the product fits `u64`, and underflows below 10; with no time at all the manager is unlimited |
| TimeManager.NewFromClock | shakmat-engine/src/time.rs:39-52 | a clock of `t` milliseconds with `m` moves to go, 40 when not given, budgets `t * 1000 / m * 4 / 5 - 10000`; zero moves divide by zero, the fourfold share overflows only below four moves, and the budget is at most four fifths of the clock |
| TimeManager.ShareBounds | shakmat-engine/src/time.rs:51 | a move's share is at most the clock, its fourfold fits from four moves on, and four fifths of it is at most four fifths of the clock |
| TimeManager.AddPanicTimeMeaning | shakmat-engine/src/time.rs:57-68 | panic time changes only the budget, and only with a clock; the budget is then at most 75% of the clock and at most 130% of the old one, and grows exactly when the old one was within 75% of the clock |
| TimeManager.PanicIgnoredWithoutClock | shakmat-engine/src/time.rs:62-67 | a manager built from a per-move time or from no time at all ignores panic time |
| TimeManager.Update | shakmat-engine/src/time.rs:70-74 | an update changes nothing but the finished flag |
| TimeManager.UpdateMeaning | shakmat-engine/src/time.rs:70-74 | with a budget, time is up after an update exactly when the elapsed time has reached the budget; with unlimited time the update changes nothing |
| TimeManager.UpdateMonotone | shakmat-engine/src/time.rs:70-74 | time once up stays up as the clock runs on |
| TimeManager.RemainingAsWritten | shakmat-engine/src/time.rs:76-86 | the manager after the call is the manager after one update at the first clock reading |
| TimeManager.RemainingUnderflows | shakmat-engine/src/time.rs:84 | with a budget of 100 microseconds, readings of 99 and then 101 pass the time-up test and then underflow the subtraction |
| TimeManager.Remaining | shakmat-engine/src/time.rs:76-86 | the corrected count updates the manager as the source does |
| TimeManager.RemainingMeaning | shakmat-engine/src/time.rs:76-86 | the corrected count is 0 once time is up, `u64::MAX` with unlimited time, otherwise the budget less the elapsed time and never below 0 nor above the budget; it agrees with the source whenever that does not underflow, which it never does for one reading |
| TTable.New | shakmat-engine/src/trasposition/table.rs:18-24 | a new table has the requested number of slots, all empty |
| TTable.Slot | shakmat-engine/src/trasposition/table.rs:33 | a key's slot is inside the table |
| TTable.WriteEntry | shakmat-engine/src/trasposition/table.rs:60-65 | writing keeps the table's size |
| TTable.WriteEntryMeaning | shakmat-engine/src/trasposition/table.rs:60-65 | writing changes only the key's slot, which then holds the entry |
| TTable.GetEntryMeaning | shakmat-engine/src/trasposition/table.rs:32-58 | the lookup never returns a score, because of the early return; it hands out the stored best move exactly when the key's slot holds an entry with that key, and otherwise leaves the move as given |
| TTable.WriteThenGet | shakmat-engine/src/trasposition/table.rs:32-65 | a position just stored gives back its best move, whatever move was handed in |
| TTable.CollisionEvicts | shakmat-engine/src/trasposition/table.rs:60-65 | two keys of the same slot evict each other: after storing the second the first finds nothing |
| TTable.WriteKeepsOthers | shakmat-engine/src/trasposition/table.rs:60-65 | storing under one slot leaves the lookup of a key of another slot as it was |
| TTable.NewFindsNothing | shakmat-engine/src/trasposition/table.rs:18-24 | a fresh table finds nothing |
| Book.BigEndian | shakmat-engine/src/polyglot/book.rs:33-35 | a big-endian number of `n` bytes is below `256^n` |
| Book.ToBigEndian | shakmat-engine/src/polyglot/book.rs:33-35 | writing a number in `n` big-endian bytes gives `n` bytes |
| Book.BigEndianRoundTrip | shakmat-engine/src/polyglot/book.rs:33-35 | writing a number below `256^n` in `n` bytes and reading it back gives the number |
| Book.BigEndianBytesRoundTrip | shakmat-engine/src/polyglot/book.rs:33-35 | reading bytes and writing the number back gives the same bytes |
| Book.FieldsOf | shakmat-engine/src/polyglot/book.rs:103-107 | each field of a move code is below 8 |
| Book.ModDivSplit | shakmat-engine/src/polyglot/book.rs:103-107 | taking the low bits of `m * k` splits into the low bits of `m` and a digit base `k` above them |
| Book.FieldsMeaning | shakmat-engine/src/polyglot/book.rs:87-107 | the five three-bit fields put back together give the code without bit 15 |
| Book.FieldsRoundTrip | shakmat-engine/src/polyglot/book.rs:87-107 | fields below 8 make a 16-bit code that splits back into the same fields |
| Book.PromotionOf | shakmat-engine/src/polyglot/book.rs:117-123 | promotion ids 1 to 4 name a knight, bishop, rook or queen, and no other id names a piece |
| Book.EncodeMove | shakmat-engine/src/polyglot/book.rs:87-102 | every move encodes to a 16-bit code |
| Book.DecodeEncode | shakmat-engine/src/polyglot/book.rs:86-130 | decoding an encoded move gives it back, unless it is a plain move or promotion between the squares the book uses for castles |
| Book.EncodedSquares | shakmat-engine/src/polyglot/book.rs:103-110 | the code of two squares and an id decodes through those squares and that id |
| Book.DecodeMeaning | shakmat-engine/src/polyglot/book.rs:86-130 | the four castle square pairs decode to castles whatever the promotion bits; otherwise ids 5 to 7 panic, id 0 gives a plain move and ids 1 to 4 a promotion, between the coded squares |
| Book.Records | shakmat-engine/src/polyglot/book.rs:31-35 | the bytes split into as many whole 16-byte records as fit, each with a 16-bit move code |
| Book.Entries | shakmat-engine/src/polyglot/book.rs:31-39 | decoded records keep their number |
| Book.EntriesMeaning | shakmat-engine/src/polyglot/book.rs:31-39 | decoding fails exactly when some record's move code is bad, and otherwise entry `i` is record `i`'s key with its decoded move and weight |
| Book.UnderEmpty | shakmat-engine/src/polyglot/book.rs:38 | a key has no moves exactly when no entry carries it |
| Book.GroupMeaning | shakmat-engine/src/polyglot/book.rs:38 | each key of the grouping holds exactly that key's moves in file order, and no list is empty |
| Book.TableOfMeaning | shakmat-engine/src/polyglot/book.rs:38-43 | a key is in the table exactly when an entry carries it; its list is a non-empty permutation of that key's moves, heaviest first, in which moves of equal weight keep their file order, so that its head is the first of the heaviest moves in file order |
| Book.LoadFails | shakmat-engine/src/polyglot/book.rs:27-46 | loading panics exactly when some whole record's move code is bad |
| Book.LoadMeaning | shakmat-engine/src/polyglot/book.rs:27-46 | a key is in a loaded book exactly when some record carries it; its list holds that key's moves and weights, no more and no fewer, heaviest first, equal weights in file order, and its head is the first of the heaviest records in file order |
| Book.LoadIsTable | shakmat-engine/src/polyglot/book.rs:27-46 | a loaded book is the table of the decoded records |
| Book.SortedHeaviest | shakmat-engine/src/polyglot/book.rs:43 | a list sorted by descending weight has its heaviest move first |
| Book.SortedFirstHeaviest | shakmat-engine/src/polyglot/book.rs:43 | sorting a non-empty list by descending weight with the stable sort puts first the earliest of its heaviest moves |
| Book.LoadIgnoresTail | shakmat-engine/src/polyglot/book.rs:31 | bytes after the last whole record change nothing |
| Book.KingOnG1Panics | shakmat-engine/src/polyglot/book.rs:73 | a king on g1 stepping to h1 underflows `from - 2` as written, while the corrected rewrite leaves the move as it is |
| Book.CastleRewriteMeaning | shakmat-engine/src/polyglot/book.rs:64-81 | a king's plain move two files towards h becomes the short castle and two files towards a the long one, every other move is kept, and the as-written code fails exactly for a king on one of the two lowest squares |
| Book.PickIndex | shakmat-engine/src/polyglot/book.rs:58-59 | a draw below the total weight picks an entry of positive weight, the one whose stretch of the running weight total holds the draw |
| Book.PickIndexMeaning | shakmat-engine/src/polyglot/book.rs:58-59 | the draw picks entry `i` exactly when it is at least the weight before `i` and below that plus `i`'s weight |
| Book.GetMoveMeaning | shakmat-engine/src/polyglot/book.rs:48-83 | a key absent from the book gives no move; with only the best wanted the entry is the first, whose weight no entry exceeds; otherwise all weights zero is the `unwrap` panic of `WeightedIndex::new` and a draw picks an entry of positive weight; the king's `from - 2` fails exactly for a king on h1 or g1, and otherwise the move is the entry's, turned into a castle when a king steps two files |
| Book.LoadedBestMove | shakmat-engine/src/polyglot/book.rs:27-83 | in a loaded book the best move of a key, when found, is the first of that key's heaviest records in file order, rewritten as the lookup rewrites it |
| Book.LoadedTableOk | shakmat-engine/src/polyglot/book.rs:27-46 | a loaded book has non-empty lists, heaviest first, as the lookup needs |
| Searching.NoKillers | shakmat-engine/src/search/searching.rs:84 | the initial killer table has a pair of slots for every depth up to `LIMIT_DEPTH + 1`, each holding the placeholder move |
| Searching.DefaultOptions | shakmat-engine/src/search/searching.rs:579-588 | the default options ask for depth 7 and no time limits |
| Searching.MaxDepth | shakmat-engine/src/search/searching.rs:82 | the depth is the requested one capped at 100, and 100 when none is requested |
| Searching.DefaultDepth | shakmat-engine/src/search/searching.rs:579-588 | the default options search to depth 7 |
| Searching.PushKiller | shakmat-engine/src/search/searching.rs:565-569 | the best move takes the first slot, the old first moves to the second when it differs, and the slots stay as they were when it is already first |
| Searching.ApplyMalusesMeaning | shakmat-engine/src/search/searching.rs:571-574 | from a bounded table a non-negative penalty never ages it: each cell loses the penalty once per move filed under it, and the table stays bounded |
| Searching.UpdateHistoriesKillers | shakmat-engine/src/search/searching.rs:558-576 | a capture changes nothing; a quiet best move becomes the first killer of its depth, the old first killer the second when different, and no other depth changes |
| Searching.UpdateHistoriesScores | shakmat-engine/src/search/searching.rs:558-576 | when the bonus does not age the table, each cell ends at its old value plus the square of the depth for the best move, less the square of the depth for every quiet move filed under it |
| Searching.BonusBelowBound | shakmat-engine/src/search/searching.rs:562 | the bonus of any depth the killer table admits is below the maximum history value |
| Searching.UpdateHistoriesKeepsBound | shakmat-engine/src/search/searching.rs:558-576 | a history within the maximum stays within it through any update |
| Searching.ApplyMalusesCheckedMeaning | shakmat-engine/src/search/searching.rs:571-574 | penalising the quiet moves panics exactly when some step leaves `i32`, and otherwise gives the table `ApplyMaluses` describes |
| Searching.RepeatedMalusOverflows | shakmat-engine/src/search/searching.rs:571-574 | a bounded table penalised n times on one move panics exactly when the cell less n times the penalty falls below `i32::MIN`, and otherwise ends at that value |
| Searching.MalusStep | shakmat-engine/src/search/history.rs:19-29 | one penalty on a bounded table that stays in `i32` succeeds, keeps the table bounded and lowers the move's cell by the penalty |
| Searching.UpdateHistoriesCheckedMeaning | shakmat-engine/src/search/searching.rs:558-576 | a capture changes nothing; otherwise the update succeeds exactly when the bonus fits, the depth indexes the killer table and the penalties fit, and then equals `UpdateHistories`; a depth past the killer table panics exactly when the bonus fitted |
| Harness.ParseSide | etc/compare_versions.py:41 | a colour name is accepted exactly when it is "black" or "white", and names that side |
| Harness.ParseOutcome | etc/compare_versions.py:42 | a result name is accepted exactly when it is "win", "lose" or "draw", and names that outcome |
| Harness.NoScores | etc/compare_versions.py:16 | a fresh score table holds zero in every colour/outcome cell |
| Harness.Inc | etc/compare_versions.py:43 | incrementing one outcome of a tally adds one to that outcome and leaves the others alone |
| Harness.Bump | etc/compare_versions.py:43 | bumping one cell adds one to that cell only, so the table total grows by one |
| Harness.NewVer | etc/compare_versions.py:11-16 | a new engine handle keeps its port and name, has no game, no latencies and all-zero scores |
| Harness.CreateGame | etc/compare_versions.py:18-20 | creating a game records the server's key as the current game and changes nothing else |
| Harness.UpdateScore | etc/compare_versions.py:40-43 | the update fails its assertion exactly when the colour or result name is unknown; otherwise exactly the named cell grows by one |
| Harness.UpdateMovingTime | etc/compare_versions.py:45-46 | the latency is appended to that ply's list (an absent ply starting empty) and every other ply's list is unchanged |
| Harness.DeleteGame | etc/compare_versions.py:22-25 | deleting succeeds exactly on status 204, and then clears the current game and keeps everything else |
| Harness.MakeMove | etc/compare_versions.py:27-34 | submitting a move succeeds exactly on status 200 and yields the reply's move list and check flag |
| Harness.NewMatch | etc/compare_versions.py:49-57 | a match starts at ply 0 on its opening line, with both engines holding their new game keys and their old scores |
| Harness.ChooseKeeps | etc/compare_versions.py:62-77 | choosing a move changes neither the ply, the line, the scores, the names nor the games |
| Harness.BookPly | etc/compare_versions.py:66-68 | inside the opening line the move is the line's move at the ply, no latency is logged, and the engine's suggestion plays no part |
| Harness.EnginePly | etc/compare_versions.py:69-77 | past the line the move is the engine's suggestion, and its latency is appended under the ply for the side to move only |
| Harness.SettleMeaning | etc/compare_versions.py:87-107 | settling fails with a missing "in_check" key exactly when the reply has none; otherwise check means the mover won and no check means a draw, each side scored once |
| Harness.TurnMeaning | etc/compare_versions.py:59-107 | a round advances the ply exactly when the move was truthy, keeps line, names and games, keeps scores while the game continues and scores the verdict once when it ends |
| Harness.TurnVerdict | etc/compare_versions.py:79-105 | with a truthy move and both servers answering 200, the game ends exactly when the other engine has no moves, as a win for the mover if in check and a draw if not |
| Harness.FalsyMoveCrashes | etc/compare_versions.py:84-89 | as written, a falsy move makes the round raise a KeyError on "in_check" |
| Harness.EmptyBookMoveCrashes | etc/compare_versions.py:66-89 | an opening line whose first move is the empty string crashes the first round as written |
| Harness.FalsyMoveDraws | etc/compare_versions.py:84-105 | with the intended substitute reply a falsy move ends the game as a draw without advancing the ply |
| Harness.PlayWith | etc/compare_versions.py:59-107 | a finished game took between one round and the number of steps, advanced the ply by at most one per round, and kept line, names and games |
| Harness.PlayOn | etc/compare_versions.py:61-107 | continuing a loop after a finished round stops with its verdict; after a continued round it keeps the same ply and identity bounds |
| Harness.PlayAsWrittenPlies | etc/compare_versions.py:79-89 | as written, a loop that ends without a crash advanced the ply in every round |
| Harness.PlayScoresOnce | etc/compare_versions.py:59-107 | a finished game scores its verdict exactly once on each side |
| Harness.GameWith | etc/compare_versions.py:109-111 | a game returns only when both deletes answer 204, and leaves both engines with no current game and their names |
| Harness.GameScores | etc/compare_versions.py:50-111 | a whole game, creation to deletion, scores its verdict once on each side |
| Harness.ScoredBalance | etc/compare_versions.py:91-105 | scoring one game adds one to each side's total, and one side's wins match the other side's losses, draws match draws |
| Harness.PairWith | etc/compare_versions.py:118-127 | the two games of one opening keep the baseline and candidate engines apart |
| Harness.PairScores | etc/compare_versions.py:118-127 | an opening played twice adds two games to each engine, with wins against losses and draws against draws balanced |
| Harness.AlternatesCons | etc/compare_versions.py:118-127 | prefixing a baseline-white report and a candidate-white report keeps the colour alternation |
| Harness.RunWith | etc/compare_versions.py:116-127 | a run yields two reports per opening, alternating the baseline and the candidate as White |
| Harness.RunScoresEveryGame | etc/compare_versions.py:116-127 | a run over n openings adds 2n games to each engine, one engine's wins balancing the other's losses |
| OldHarness.OldTurnSubmitsAnyMove | compare_versions.py:52-68 | the earlier harness submits whatever move it has, so an empty suggestion is played like any other |
| OldHarness.OldTurnMeaning | compare_versions.py:47-89 | a round succeeds exactly when both servers answer 200; it ends exactly when the other engine has no moves, as a win for the mover in check or a draw, and otherwise advances the ply |
| OldHarness.OldPlay | compare_versions.py:47-89 | a finished game took between one round and the number of steps and advanced the ply once per round except the last |
| OldHarness.OldPlayOn | compare_versions.py:48-89 | continuing after a finished round stops with its verdict; after a continued round the ply rises once per further round but the last |
| OldHarness.OldPlayScoresOnce | compare_versions.py:70-87 | a finished game scores its verdict exactly once on each side |
| OldHarness.OldScript | compare_versions.py:91-94 | the script plays one game with no opening line and never deletes the games |
| OldHarness.OldScriptScoresOnce | compare_versions.py:91-94 | from fresh engines the script's game leaves one game on each side, scored as the verdict from each side's view |
| LegacyFen.ReadTurn | src/fen/fen_utils.rs:38-42 | the turn field is accepted exactly when it is "w" or "b", "w" meaning White; anything else is refused naming the field |
| LegacyFen.LoadCastlingMeaning | src/fen/fen_utils.rs:100-114 | the castling field is accepted exactly when it holds only K, Q, k, q and '-', and each right ends up granted exactly when it was before or its letter occurs |
| LegacyFen.ReadFields | src/chess/fen/fen_utils.rs:39-56 | the five fields after the placement read exactly when turn, castling, e.p. square ("-" for none) and both counters as 16-bit numbers read, and hold those values |
| LegacyFen.EmptyGrid | src/fen/fen_utils.rs:26 | the grid starts as eight empty ranks |
| LegacyFen.LoadLine | src/fen/fen_utils.rs:68-93 | a rank loaded from a row is still eight files wide |
| LegacyFen.LoadLineMeaning | src/fen/fen_utils.rs:66-95 | a row loads exactly when its characters are digits and man letters and no man falls past the h-file, which otherwise is an index panic; each file then holds what the row writes there |
| LegacyFen.LineOfRow | src/fen/fen_utils.rs:66-95 | a well-formed row loaded onto an empty rank gives the rank it describes |
| LegacyFen.LoadLines | src/fen/fen_utils.rs:66-95 | loading rows keeps an eight-by-eight grid |
| LegacyFen.LoadLinesMeaning | src/fen/fen_utils.rs:66-95 | loading from row i on succeeds exactly when every remaining row is well formed, and then row j fills rank 7 - j |
| LegacyFen.LoadGridMeaning | src/fen/fen_utils.rs:59-98 | the placement loads exactly when it has eight well-formed rows; then grid[rank][file] is the cell row 7 - rank describes at that file |
| LegacyFen.ReadGridFenMeaning | src/fen/fen_utils.rs:18-57 | the grid reader accepts exactly six space-separated parts with eight well-formed rows and valid fields, and places each man where its row puts it |
| LegacyFen.WideRowPanics | src/fen/fen_utils.rs:73-76 | the row "8k" writes a man on a ninth file and panics instead of being refused |
| LegacyFen.Insert | src/chess/fen/fen_utils.rs:105-110 | inserting a man lengthens its side's list by one |
| LegacyFen.LoadListRowMeaning | src/chess/fen/fen_utils.rs:72-114 | a row is read exactly when its characters are digits and man letters, whatever files they reach, and its men join the lists in reading order |
| LegacyFen.LoadListRowsOk | src/chess/fen/fen_utils.rs:72-115 | the rows from i on are read exactly when each of them is a valid row |
| LegacyFen.LoadListRowsMeaning | src/chess/fen/fen_utils.rs:72-115 | reading the rows from i on adds their men to the lists in reading order |
| LegacyFen.AddAllArranges | src/chess/fen/fen_utils.rs:105-110 | reading men keeps each side's list as its kings in reverse reading order followed by its other men in reading order |
| LegacyFen.KingsAndOthersStep | src/chess/fen/fen_utils.rs:100-110 | one more man read extends its side's kings or its other men by that man |
| LegacyFen.KingFirst | src/chess/fen/fen_utils.rs:117-124 | a side's list starts with a king exactly when the side has a king |
| LegacyFen.ReadIntoLists | src/chess/fen/fen_utils.rs:69-115 | reading men onto two empty lists arranges each side's men, kings first |
| LegacyFen.Dump | src/chess/fen/fen_utils.rs:132-139 | dumping a list into n slots reads back as the list, and every slot past it is empty |
| LegacyFen.LoadLists | src/chess/fen/fen_utils.rs:61-142 | both piece arrays have sixteen slots |
| LegacyFen.LoadListsMeaning | src/chess/fen/fen_utils.rs:61-142 | the list reader accepts exactly eight readable rows with a king on each side and at most sixteen men a side, and the arrays then hold each side's men kings first |
| LegacyFen.ReadListFen | src/chess/fen/fen_utils.rs:19-59 | an accepted FEN yields two arrays of sixteen slots |
| LegacyFen.ReadListFenMeaning | src/chess/fen/fen_utils.rs:19-59 | the list reader accepts exactly six parts whose placement loads and whose fields read, and carries both |
| LegacyFen.WideRowRead | src/chess/fen/fen_utils.rs:79-81 | the row "8k" is read, putting a black king on a ninth file |
| LegacyBoard.EmptyCells | src/chess/board/board.rs:216 | the square array starts as eight ranks of eight empty squares |
| LegacyBoard.Put | src/chess/board/board.rs:355-356 | writing one square sets that square and leaves the other 63 alone |
| LegacyBoard.GetPos | src/chess/board/board.rs:294-298 | a square inside the array yields a man exactly when it refers to a slot; a square outside it is an index panic |
| LegacyBoard.PlaceAll | src/chess/board/board.rs:222-240 | placing a side's men keeps an eight-by-eight array |
| LegacyBoard.PlaceAllMeaning | src/chess/board/board.rs:222-240 | placing a side's men succeeds exactly when each stands inside the array; each man's square then refers to its slot, earlier references survive and the array stays sound |
| LegacyBoard.FromFenMeaning | src/chess/board/board.rs:208-243 | a FEN makes a board exactly when the list reader accepts it, the half-move clock is at most 100 and every man is inside the array; the board then stores 100 minus the clock, the fields, and squares referring to every man's slot |
| LegacyBoard.RemovePiece | src/chess/board/board.rs:465-474 | removal succeeds exactly on a square inside the array and keeps the board's shape and placement |
| LegacyBoard.RemovePieceMeaning | src/chess/board/board.rs:465-474 | removal reports a capture exactly when the square referred to a slot; then that square and slot are empty, otherwise nothing changes, and no other square changes |
| LegacyBoard.UpdateCastlingRightsMeaning | src/chess/board/board.rs:421-450 | the mover keeps a right exactly when it held it, did not move its king and did not leave that side's rook corner; the opponent keeps a right exactly when it held it and the move did not land on that corner |
| LegacyBoard.RemoveBehind | src/chess/board/board.rs:342-352 | removing the man behind an e.p. target keeps the board's shape and placement |
| LegacyBoard.MovePiece | src/chess/board/board.rs:322-375 | moving a man keeps the board's shape and placement, the turn and the full-move number |
| LegacyBoard.Relocate | src/chess/board/board.rs:358-364 | the moving slot's man is set on the target square and the square array is untouched |
| LegacyBoard.SlotUpdateInGrid | src/chess/board/board.rs:358-364 | emptying a slot or filling it with a man inside the array keeps every man inside |
| LegacyBoard.MovePieceMeaning | src/chess/board/board.rs:322-375 | without e.p. the moving slot goes to the target and the origin empties, with the promoted kind if any, no other square changes, and the clock resets exactly on a capture or a pawn move |
| LegacyBoard.Castle | src/chess/board/board.rs:402-419 | castling keeps the board's shape and placement, the turn and the full-move number |
| LegacyBoard.CastleMeaning | src/chess/board/board.rs:402-419 | on the mover's home rank the king goes from e to g or c and the rook from h to f or a to d, leaving e and the rook's corner empty |
| LegacyBoard.UpdateEnPassant | src/chess/board/board.rs:377-400 | setting the e.p. target changes nothing but the target |
| LegacyBoard.UpdateEnPassantMeaning | src/chess/board/board.rs:377-400 | the target is set exactly after a normal pawn move over two ranks, on the pawn's file one rank behind it |
| LegacyBoard.DoublePushSetsTarget | src/chess/board/board.rs:382-391 | a white pawn from e2 to e4 sets the target e3 |
| LegacyBoard.MakeMoveUnchecked | src/chess/board/board.rs:257-279 | making a move keeps the board's shape and placement |
| LegacyBoard.MakeMoveNeverIllegal | src/chess/board/board.rs:245-280 | without the legality check the move is never refused as illegal |
| LegacyBoard.MakeMoveTurns | src/chess/board/board.rs:272-277 | the turn passes, and the full-move number grows by one exactly when White is next |
| LegacyPieces.GetAt | src/chess/board/board.rs:294-298 | reading a coordinate succeeds only when it names a square inside the array |
| LegacyPieces.SqOf | src/chess/game_elements/position.rs:22-42 | the square index of a position inside the array maps back to that position |
| LegacyPieces.StepTargets | src/chess/board/piece.rs:76-81 | every kept target is inside the array and empty or enemy, and every empty or enemy candidate is kept |
| LegacyPieces.Normals | src/chess/board/piece.rs:82 | each target becomes the normal move from the man's square to it, in order |
| LegacyPieces.StepNormals | src/chess/board/piece.rs:133-143 | the steps of a king or knight are exactly normal moves from its square to the empty or enemy candidates |
| LegacyPieces.ShortClearMeaning | src/chess/board/piece.rs:93-108 | the short castle passes exactly when the king's square and the two to its right are unattacked and those two are empty |
| LegacyPieces.LongClearMeaning | src/chess/board/piece.rs:112-128 | the long castle passes exactly when the king's square and the two to its left are unattacked and the three to its left are empty; the third may be attacked |
| LegacyPieces.KingMovesMeaning | src/chess/board/piece.rs:74-131 | a king steps exactly onto its empty or enemy candidates, and castles short or long exactly when the side holds that right and the path check passes |
| LegacyPieces.KnightMovesMeaning | src/chess/board/piece.rs:133-143 | a knight jumps exactly onto its empty or enemy candidates |
| LegacyPieces.InArray | src/chess/board/piece.rs:148 | ray squares convert to positions inside the array, one for one |
| LegacyPieces.SliderDirsConcat | src/chess/board/piece.rs:145-159 | the slider moves along two groups of directions are those of the first group followed by those of the second |
| LegacyPieces.QueenIsBishopAndRook | src/chess/board/piece.rs:161-166 | the queen's moves are the bishop's moves followed by the rook's |
| LegacyPieces.PawnPushes | src/chess/board/piece.rs:177-190 | every push target is inside the array |
| LegacyPieces.PushesMeaning | src/chess/board/piece.rs:177-190 | a pawn pushes one square forward when it is empty, and two from its start rank when both are empty; nothing else is a push |
| LegacyPieces.PawnCaptures | src/chess/board/piece.rs:192-205 | every capture target is inside the board |
| LegacyPieces.CapturesMeaning | src/chess/board/piece.rs:192-205 | the capture targets are exactly the diagonal-forward squares inside the board that are the e.p. target or hold an enemy |
| LegacyPieces.Expand | src/chess/board/piece.rs:209-220 | a target on the promotion rank becomes the four promotions Q, R, B, N in that order; any other target a normal move |
| LegacyPieces.ExpandAllSound | src/chess/board/piece.rs:207-221 | every expanded move goes from the pawn to one of the targets and is a promotion exactly on the promotion rank |
| LegacyPieces.ExpandAllComplete | src/chess/board/piece.rs:207-221 | each promotion-rank target yields all four promotions and every other target its plain move |
| LegacyPieces.PawnMovesMeaning | src/chess/board/piece.rs:168-222 | a pawn's moves are exactly the expansions of its push and capture targets |
| LegacyPieces.KeepLegalMeaning | src/chess/board/piece.rs:41-50 | the filter keeps exactly the castles and the moves after which the man's side is not in check |
| LegacyPieces.CollectMeaning | src/chess/board/board.rs:282-288 | a move is collected exactly when the generator lists it for some man in a slot from i on |
| LegacyPieces.CurrentTurnMovesLegal | src/chess/board/board.rs:282-288 | every move of the side to move passes the legal filter of one of that side's men |
| LegacyPieces.MakeMoveMeaning | src/chess/board/board.rs:245-255 | with the check on, a move is refused as illegal exactly when it is not in the side's list, and otherwise made as without the check |
| LegacyBBBoard.OnBoardStep | src/chess/board/board.rs:109-111 | a slot array is on the board from i exactly when slot i is empty or on the board and the rest are too |
| LegacyBBBoard.SetMenMeaning | src/chess/board/board.rs:109-133 | setting the men succeeds exactly when every man stands on the board; a kind's board then holds a square exactly when it held it before or a man of that kind stands there |
| LegacyBBBoard.AddOne | src/chess/board/board.rs:111-119 | or-ing in one man's bit and then the later men marks the same squares as marking from that man on |
| LegacyBBBoard.UpdateAux | src/chess/board/board.rs:188-194 | each side's board is the union of its kinds' boards and the all-men board the union of the two sides; nothing else changes |
| LegacyBBBoard.FromFenMeaning | src/chess/board/board.rs:91-138 | a FEN builds a board exactly when the list reader accepts it, the clock is at most 100 and every man is on the board; each kind's board then marks exactly that kind's men, the side boards are their unions, the clock is stored as 100 minus it, and e.p. and attacks are empty |
| LegacyBBBoard.Targets | src/chess/board/movegen.rs:26-28 | each target square becomes a normal, non-e.p. move of the kind from the origin, in order |
| LegacyBBBoard.StepBoard | src/chess/board/movegen.rs:17-25 | a kind may move to exactly the squares of its table that do not hold a man of its own side |
| LegacyBBBoard.TargetsMeaning | src/chess/board/movegen.rs:26-28 | a move is among the targets of a board exactly when it is a normal non-e.p. move of the kind from the origin to a square of the board |
| LegacyBBBoard.KindMovesFromMeaning | src/chess/board/movegen.rs:24-29 | a move is generated from a list of origins exactly when it starts on one of them and ends on its step board |
| LegacyBBBoard.KindMovesMeaning | src/chess/board/movegen.rs:24-62 | a kind's list holds exactly the normal moves of its men to the squares of their step boards |
| LegacyBBBoard.KindsMovesMeaning | src/chess/board/movegen.rs:23-62 | the moves of several kinds are exactly the moves of any of them |
| LegacyBBBoard.PseudoLegalMeaning | src/chess/board/movegen.rs:14-83 | the generator lists exactly the non-pawn normal moves to table squares not held by the side, and each castle whose right is held and whose path is empty |
| LegacyBBBoard.KindMovesFromAsWrittenMeaning | src/chess/board/movegen.rs:24-29 | walking the origins with this revision's iterator fails exactly when some origin's step board is exactly a8, and otherwise lists what the core iterator lists |
| LegacyBBBoard.KindMovesAsWrittenMeaning | src/chess/board/movegen.rs:24-62 | a kind's moves walked as written fail exactly when the kind's board, or the step board of one of its men, is exactly a8, and otherwise are the moves of `KindMoves` |
| LegacyBBBoard.KindsMovesAsWrittenMeaning | src/chess/board/movegen.rs:23-62 | several kinds walked as written fail exactly when one of them fails, and otherwise give the moves of `KindsMoves` |
| LegacyBBBoard.PseudoLegalAsWrittenMeaning | src/chess/board/movegen.rs:14-83 | the generator as written fails exactly when one of the five visited kinds fails, and otherwise lists what `PseudoLegal` lists |
| LegacyBBBoard.KingOnA8Fails | src/chess/board/movegen.rs:57 | a side whose king board is exactly a8 makes the generator as written fail |
| LegacyBBBoard.CastlePathsAreBetween | src/chess/board/movegen.rs:9-12 | the castling paths are f and g on the home rank for the short castle and b to d for the long one |
| OldestPieces.GetPos | src/board/piece.rs:66-69 | reading a square succeeds exactly when it indexes the rank-by-file array, and yields that square's cell |
| OldestPieces.StepMovesMeaning | src/board/piece.rs:64-71 | the step filter panics exactly when a candidate lies outside the array, and otherwise lists exactly the normal moves from the man's square to open candidates |
| OldestPieces.PseudoMovesMeaning | src/board/piece.rs:26-32 | any kind but king and knight is unimplemented; a king or knight lists exactly its normal moves to open candidates, never a castle nor a square of its own side |
| OldestPieces.KeepLegalMeaning | src/board/piece.rs:34-39 | the filter keeps exactly the moves after which the mover is not in check |
| OldestPieces.LegalMovesMeaning | src/board/piece.rs:34-39 | the legal list panics exactly when the pseudo-legal one does, and holds exactly the pseudo-legal moves that leave the mover out of check |
| OldestPieces.AsCharInjective | src/board/piece.rs:41-56 | two men share a glyph exactly when they are the same man, and White's glyphs are the outlined range U+2654 to U+2659 |

## Left out

- The magic-bitboard tables, `EP_ATTACKS` and the other attack lookups are not part of this model; the move generators take them as parameters. The game lemmas of `GameKeys` assume only that the pawn tables point one rank ahead, or two from the home rank for a push (`PawnTablesForward`).
- The 793 Zobrist random values are a parameter; only their slot layout is modelled.
- Output formatting that is only cosmetic (the board pictures, `Display` of `BitBoard`, the two-decimal float branch of `Evaluation`'s `Display`) is not modelled.
- The HTTP handlers, messages and `main` files of both servers and the `shakmat-wasm` bindings are glue and are not modelled; the Python harness's `requests` calls are replies given as parameters.
- `negamax`, `quiesence_search` and the timer-driven search loop of `searching.rs`, and the `engine.rs` wrapper, are not modelled; only the pure helpers of the search are.
- The random draws (the server's game key, the book's weighted draw) and the clock readings (`Instant`) are parameters.
- Overflow is modelled as the panic of a debug build. A release build of the Rust code wraps instead, and that behaviour is not modelled.
- Perft: the rayon parallel iterator and the shared `DashMap` of `perft.rs:26-34` are modelled as a sequential sum over a cache passed along. The order of the cache's inserts under concurrency and a `u64` overflow of the sum are not modelled.
- The positional and tempo terms of the evaluation (`calc_positional_score`, `calc_tempo`) are parameters of the evaluation. Only their bound is assumed.
- Sorting.SortBy: the model's sort is stable. The three `order_moves` use `sort_unstable_by_key`, which leaves the order of equally rated moves open. The model therefore fixes an order the source does not promise; only the permutation and the ascending keys are claimed for those call sites.
- BoardState.MenKey: keys each man with the corrected piece slot (`Zobrist.PieceSlot`), not the colliding slot of `zobrist_utils.rs:17`. So every key of the model is the key the program evidently intends, not the key it computes (see Findings).
- BoardState.ScratchKey: built on `MenKey`, with the same corrected piece slot.
- ChessBoard.FromFen: reads the placement with the corrected reader of `Fen`, which checks the file before the `u8` cast. On a placement whose top row is "K", 28 nines and "3k", the program stacks both kings on a8, while the model refuses it (see Findings).
- ChessBoardFacts.FromFenMeaning: states what the corrected reader builds; the as-written reader's wrap is stated by `Fen.WrapBoardStacksKings` only.
- Server.CreateGameMeaning: goes through `ChessBoard.FromFen`, so the FEN with 28 nines that the server would store with both kings on a8 is refused here. It states the registry the request leaves, not the poisoned mutex; `Server.LockedCreateKept` states that.
- Server.MakeMoveMeaning: states the registry a panicking request leaves, not the poisoned mutex that makes every later request panic; `Server.CrashPoisonsLater` states that.
- Server.MakeMoveKeepsGames: promises agreement of every game only when the move does not panic. A panic in the map refresh leaves the moved game with a new board and an old map; the source then never serves that game again, because the mutex is poisoned (`Server.LockedMoveKept`).
- Moves.FromNotation: reads the text as characters. `movement.rs:71-73` measure it in bytes and slice it at bytes 2 and 4, so text with a non-ASCII character across those cuts, such as "aé1a", panics in the source, where the model returns an error. The two agree on ASCII text.
- History.AddBonusMeaning: requires the cell plus the bonus to fit `i32`; the sum that does not panics in a debug build, which `History.AddBonusChecked` states.
- History.AddBonusPlain: requires the sum to fit `i32`, as `History.AddBonusMeaning`; the panic is stated by `History.AddBonusChecked`.
- History.MalusNeverAges: requires the sum to fit `i32`; the bound caps cells only from above, so a malus can still panic (`History.BoundedCellOverflowsDown`).
- History.AddBonusKeepsBound: requires the sum to fit `i32`; the panic is stated by `History.AddBonusChecked`.
- Searching.ApplyMalusesMeaning: requires every penalty to fit `i32` (`MalusesFit`); the panic is stated by `Searching.ApplyMalusesCheckedMeaning` and `Searching.RepeatedMalusOverflows`.
- Searching.UpdateHistoriesKillers: requires the update not to panic (`CanUpdate`); the panics on the bonus, the killer index and the penalties are stated by `Searching.UpdateHistoriesCheckedMeaning`.
- Searching.UpdateHistoriesScores: requires the update not to panic, as `Searching.UpdateHistoriesKillers`.
- Searching.UpdateHistoriesKeepsBound: requires the update not to panic, as `Searching.UpdateHistoriesKillers`.
- MoveOrdering.Rating: rates a capture of a king with the corrected victim value 1000. As written, `move_ordering.rs:80` gives 9999 and the capture score leaves `i32` (see Findings; `MoveOrdering.RatingAsWrittenMeaning` states the as-written rating).
- MoveOrdering.RatingInBand: is about the corrected rating; as written a king capture overflows instead of rating in the capture band.
- MoveOrdering.RateMove: rates with the corrected rating; as written it overflows on a king capture. It also requires the rating to be above `i32::MIN`, since the negation at `move_ordering.rs:56` panics there; `MoveOrdering.RateMoveCheckedMeaning` and `MoveOrdering.HistoryAtMinPanics` state both panics.
- MoveOrdering.OrderMoves: orders by the corrected rating; as written a list with a king capture overflows. It requires every rating above `i32::MIN`; `MoveOrdering.OrderMovesCheckedMeaning` states when ordering panics.
- MoveOrdering.OrderMovesMeaning: is about the corrected ordering, as `OrderMoves` above, and requires every rating above `i32::MIN`; `MoveOrdering.OrderMovesCheckedMeaning` states the panics.
- Repetition.IsDrawByRepetition: starts its window at the ply less the half-move clock, floored at 0. As written, `searching.rs:606` panics on the `u16` subtraction when the clock exceeds the ply (clock 10 at ply 0, from a FEN). `Repetition.IsDrawByRepetitionAsWritten` models that panic (see Findings).
- PieceEval.EvalRooksBounds: sums the rook scores in unbounded integers. `eval_rooks` sums in `i16`, which overflows once 64 rooks sit on open files (33280). No game reaches that many rooks.
- PieceEval.NoPawnsAllOpen: the same unbounded sum; the `i16` overflow at 64 rooks is not modelled.
- LegacyBBBoard.SetMenMeaning: the file of a man is used as read. `board.rs:111,124` cast it `as u8` (and `fen_utils.rs:81` to a coordinate type that is not part of this model), so a man read past file 255 (file 261 lands on file 5) is placed by the program and refused here.
- LegacyBBBoard.FromFenMeaning: inherits `SetMen`'s missing `as u8` cast.
- LegacyBBBoard.TargetsMeaning: is about the core iterator; the as-written walk is `PseudoLegalAsWritten`, which fails on a step board of exactly a8.
- LegacyBBBoard.KindMovesFromMeaning: is about the core iterator; `KindMovesFromAsWrittenMeaning` states when the as-written walk fails.
- LegacyBBBoard.KindMovesMeaning: is about the core iterator; `KindMovesAsWrittenMeaning` states when the as-written walk fails.
- LegacyBBBoard.KindsMovesMeaning: is about the core iterator; `KindsMovesAsWrittenMeaning` states when the as-written walk fails.
- LegacyBBBoard.PseudoLegalMeaning: is about the core iterator. The source's generator is `PseudoLegalAsWritten`, which fails with the king on a8 (`KingOnA8Fails`).
- Book.GetMove: the weighted draw is a parameter below the total weight. `WeightedIndex` sums the `u16` weights, and a total past 65535 is not modelled.
- GameKeys.EveryPrefixKeepsKey: assumes every castle of the game is played with no enemy man on the king's or rook's home square. Castling rights read from a FEN are not checked against the men, and with an enemy man on the king's home square `move_piece` puts the records out of step.
- MoveEffects.CastleWithoutKingPanics: a castle right without its king at home comes only from a FEN; the model follows the program and lets the castle panic, and claims no corrected behaviour.

## Findings

| source | as written | input that shows it | evidently intended | confidence | as-written member | corrected member |
|---|---|---|---|---|---|---|
| src/chess/board/bitboard.rs:57-58 | the iterator shifts by `trailing_zeros + 1` | the board `1 << 63`: the first step shifts a `u64` by 64 | yield square 63 and stop | high, not executed | LegacyBitBoards.AsWrittenFailsOnlyOnTopSquare | LegacyBitBoards.FixedIsPieceIndices |
| src/chess/board/movegen.rs:57-62 | the king's moves walk the king board with that iterator | a side whose king stands on a8 | list the king's moves | high, not executed | LegacyBBBoard.KingOnA8Fails | LegacyBBBoard.PseudoLegalMeaning |
| shakmat-core/src/zobrist/zobrist_utils.rs:17 | slot `64 * (to_index + colour) + square` | a white pawn and a black knight on the same square | slot `64 * (to_zobrist_index + colour) + square`, one per (colour, kind, square) | high, not executed | Zobrist.PieceSlotCollision | Zobrist.PieceSlotInjective |
| src/chess/game_elements/position.rs:37-38 | the rank error formats the file | file 0, rank 9 gives "Invalid rank: 0" | report the rank | high, not executed | Positions.RankErrorShowsFile | Positions.FromFileRankMeaning |
| shakmat-core/src/fen/fen_utils.rs:79 | the running file is cast to `u8` before the bound check | "K" + 28 nines + "3k" as the top row: both kings on a8 | refuse any file above 7 | medium, not executed | Fen.WrapBoardStacksKings | Fen.LoadBoardMeaning |
| shakmat-engine/src/search/pv_line.rs:21-25 | `clear` empties the line, then `moves[0] = mv` writes past its end | any update of any line | the line becomes the move followed by the child's line | high, not executed | PvLine.UpdateLineAsWrittenPanics | PvLine.UpdateLine |
| etc/compare_versions.py:84-89 | on a falsy move `turn_info` becomes `{"moves": []}`, which has no `"in_check"` key, and `turn_info["in_check"]` is read | an engine suggesting the empty move, or an opening line starting with "" | end the game as a draw | medium, not executed | Harness.FalsyMoveCrashes | Harness.FalsyMoveDraws |
| shakmat-engine/src/search/move_ordering.rs:80 | a king victim is worth 9999 on top of the capture base | a rook on h1 taking a king on h2 | the capture stays in the `i32` capture band | medium, not executed | MoveOrdering.CaptureScoreAsWrittenOverflows | MoveOrdering.CaptureScore |
| shakmat-engine/src/search.rs:44-69 | a fail low sets alpha to the minimum score and searches the same depth again, and a score at the minimum fails low again | a root whose side to move is already mated | the loop ends and returns the mate score | medium, not executed | OldSearch.MatedRootNeverEnds | OldSearch.CorrectedLoopEnds |
| shakmat-engine/src/search.rs:64-65 | the next beta is the score plus 30 in `i16` | a mate in one found at depth 1 | clamp the window to valid scores | medium, not executed | OldSearch.MateInOneOverflows | OldSearch.CorrectedLoopEnds |
| shakmat-engine/src/polyglot/book.rs:73 | `to == from - 2` on a `u8` square | a king on g1 stepping to h1 | leave the move as it is | high, not executed | Book.KingOnG1Panics | Book.CastleRewriteMeaning |
| shakmat-engine/src/time.rs:84 | `update` reads the clock for the time-up test, and `elapsed_micros` reads it again for the subtraction | a budget of 100 microseconds, readings at 99 and then 101 | read the clock once, so the time-up test covers the subtraction | medium, not executed | TimeManager.RemainingUnderflows | TimeManager.RemainingMeaning |
| shakmat-engine/src/search/searching.rs:606 | `current_ply - fifty_move_rule_counter` in `u16` | a FEN with half-move clock 10, searched at ply 0 | start the window at ply 0 | medium, not executed | Repetition.HalfMoveClockAboveUnderflows | Repetition.WindowStart |
