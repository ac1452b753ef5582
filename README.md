# ChessGame core in Dafny

This project models the rules engine and the game bookkeeping of a Swing chess
game. The game is played on the classic 8 x 8 board, or in "amusement mode" on
an enlarged 16 x 16 or 32 x 32 board. Four parts of the program are modelled.

- **The board engine (`GameLogic`).** An N x N board of optional pieces, the
  side to move and an undo stack of move records. It covers:
  - the two starting layouts;
  - the unchecked `movePiece`, the two undo operations and promotion;
  - pseudo-legal move generation for every piece;
  - the check test.
- **The external-engine helpers (`ChessAIController`).** The skill-to-depth
  table, the skill clamp, the FEN serialiser, the decoder of UCI move text and
  the parse of the engine's `bestmove` reply.
- **The built-in opponent (`AmusementChessAI`).** Its evaluation function, its
  move generator and its alpha-beta minimax. The minimax probes moves on the
  live board engine and takes them back.
- **The bookkeeping of `GameScreen`.** It covers:
  - the undo budget and undo policy;
  - the move log and its simplified algebraic notation;
  - replay of the log, whose turn it is, and which AI moves at which depth;
  - the AI's pawn promotion;
  - the fog-of-war visible set.

Modules and files:

- `chess_types.dfy` (`ChessTypes`) holds the value types: piece, move, move
  record and log entry.
- `rules.dfy` (`Rules`) states the board rules as functions on values. A
  position is a grid, its size, the side to move and the record stack. The
  transitions `MovePiece`, `UndoLast`, `UndoMove` and `Promote` act on
  positions.
- `game_logic.dfy` (`Logic`) is the board engine as a class. It keeps the
  board in an `array2` and mutates it in place. Every method is proved against
  the `Rules` function it implements.
- `uci.dfy` (`Uci`) holds the engine helpers. Each is paired with an inverse
  and a round-trip lemma:
  - the FEN serialiser with a FEN decoder written from the notation's
    definition;
  - the UCI decoder with an encoder.
- `pgn.dfy` (`Pgn`) holds the log notation. It comes with a reader of that
  notation and a round-trip lemma.
- `amusement_ai.dfy` (`AmusementAi`) holds the built-in opponent:
  - the search is specified by ghost functions that follow the source's loops
    move by move, including the alpha-beta cut-offs;
  - the methods run on the live `GameLogic` and are proved to return the
    specified value and to leave the board as they found it;
  - they also leave one record per probe on the undo stack, because the
    source's `undoMove` does not pop.
- `screen.dfy` (`Screen`) is the game screen as a class that drives one board
  engine.
- `seq_facts.dfy` (`SeqFacts`) holds small sequence lemmas shared by the
  proofs.

All line numbers below refer to `ChessGame_Top.java`.

## Model

| member | source | states |
|---|---|---|
| Rules.PieceAt | ChessGame_Top.java:1899-1902 | getPiece returns the square's content on the board and an empty square off it |
| Rules.SetupGrid | ChessGame_Top.java:1821-1842 | the opening grid has side 8m and every square holds the layout's piece for that square |
| Rules.AmusementLayout | ChessGame_Top.java:1844-1896 | on the board of side N = 8m, Black's back rank holds rook, knight, bishop, queen and king at columns 0, m, 2m, 3m and 4m, and bishop, knight and rook at N-1-2m, N-1-m and N-1. White's back rank mirrors it. Rows 1..m hold black pawns, rows N-1-m..N-2 hold white pawns, and the rows between are empty |
| Rules.OneKingEach | ChessGame_Top.java:1821-1896 | in every starting layout a square holds a king of a colour iff it is column 4m of that colour's back rank |
| Rules.RayEmptyStep | ChessGame_Top.java:2054-2061 | an empty on-board square is listed by addLines, and the scan continues past it |
| Rules.RayOccupiedStep | ChessGame_Top.java:2055-2060 | an occupied square ends the scan of addLines, and is listed only when it holds an enemy |
| Rules.RaySquares | ChessGame_Top.java:2052-2062 | a ray lists consecutive on-board squares along its direction, starting next to the piece |
| Rules.RayStops | ChessGame_Top.java:2052-2062 | the last square of a ray is on the board and not friendly. When the ray is empty or ends on an empty square, the next square along is off the board or friendly |
| Rules.RayFree | ChessGame_Top.java:2052-2062 | every square addLines lists is on the board and not held by a friendly piece |
| Rules.SlidesFree | ChessGame_Top.java:2025-2038 | rook, bishop and queen moves land only on on-board squares not held by a friend |
| Rules.JumpsFree | ChessGame_Top.java:2039-2046 | knight and king moves (checkMove) land only on on-board squares not held by a friend |
| Rules.PawnTargets | ChessGame_Top.java:1997-2024 | a pawn's destinations are free on-board squares, except its forward step off the board from the last row |
| Rules.ValidMovesTargets | ChessGame_Top.java:1991-2075 | getValidMoves lists only on-board squares not held by a friend, with that one pawn exception |
| Rules.PawnOverrunListed | ChessGame_Top.java:2015-2016 | a pawn on the last row in its direction does list the off-board square in front of it, because getPiece reports off-board squares as empty |
| Rules.RayLength | ChessGame_Top.java:2052-2062 | a ray is no longer than the distance to the board's edge |
| Rules.SlidesLength | ChessGame_Top.java:2025-2038 | each direction of a slider contributes fewer than 2N squares |
| Rules.SlidesWithin | ChessGame_Top.java:2025-2038 | the slides along k directions list at most k rays' worth of 2N squares |
| Rules.RayWithin | ChessGame_Top.java:2052-2062 | the ray a slider on the board casts along one direction is shorter than 2N |
| Rules.JumpsLength | ChessGame_Top.java:2039-2046 | a jump table yields at most one square per offset |
| Rules.ValidMovesLength | ChessGame_Top.java:1991-2050 | no piece has more than 16N destinations |
| Rules.ValidMoves | ChessGame_Top.java:1991-2050 | getValidMoves: nothing for an empty square, otherwise the pawn, slider or jump destinations of the piece in the source's order; ValidMovesTargets and ValidMovesLength state what they are and how many |
| Rules.AttackWitness | ChessGame_Top.java:1971-1978 | a piece of the attacking colour that lists the square attacks it |
| Rules.AnyBelowSpec | ChessGame_Top.java:1972-1981 | the scan over columns 0..c-1 finds a hit iff some column below c has one |
| Rules.NoRowHitBelow | ChessGame_Top.java:1971-1983 | a row scan that found nothing in rows 0..r-1 found nothing in each of those rows |
| Rules.NoRowHitNoAttack | ChessGame_Top.java:1971-1984 | a scan of every row without a hit proves that no piece of the colour attacks the square |
| Rules.FirstKingUnique | ChessGame_Top.java:1954-1985 | the first king in row-major order is unique, and the colour is in check iff that square is attacked |
| Rules.NoKingNoCheck | ChessGame_Top.java:1967 | a colour without a king is never in check |
| Rules.InCheck | ChessGame_Top.java:1952-1985 | isInCheck: the colour's first king in row-major order is attacked by a piece of the other colour; FirstKingUnique and NoKingNoCheck state its two cases |
| Rules.Start | ChessGame_Top.java:1821-1896 | the starting position is well formed: White to move, an empty stack, side 8m |
| Rules.ApplyGrid | ChessGame_Top.java:1912-1913 | moving a piece keeps a grid of the same side |
| Rules.MovePiece | ChessGame_Top.java:1905-1916 | movePiece keeps the position well formed: same side, and every stack record names on-board squares |
| Rules.UndoLast | ChessGame_Top.java:1918-1939 | undoLastMove keeps the position well formed |
| Rules.UndoMove | ChessGame_Top.java:1944-1949 | the five-argument undoMove keeps the position well formed |
| Rules.Promote | ChessGame_Top.java:1987-1989 | promotePiece keeps the position well formed |
| Rules.MoveUndoRoundTrip | ChessGame_Top.java:1905-1939 | a move, with or without a promotion afterwards, followed by undoLastMove restores every square, the side to move and the stack |
| Rules.ProbeRestores | ChessGame_Top.java:1905-1949 | movePiece followed by undoMove with the captured piece restores the grid and the side to move, and leaves the move's record on the stack |
| Rules.ProbeGrid | ChessGame_Top.java:1912-1913 | the grid part of a probe: moving and then putting the captured content back gives the original grid |
| Logic.GameLogic.constructor | ChessGame_Top.java:1813-1815 | a new engine holds the classic opening position |
| Logic.GameLogic.ResetBoard | ChessGame_Top.java:1821-1842 | resetBoard yields the classic 8 x 8 starting position with White to move and an empty stack |
| Logic.GameLogic.ResetAmusementBoard | ChessGame_Top.java:1844-1896 | resetAmusementBoard yields the enlarged starting position of side 8m |
| Logic.GameLogic.SetupMatches | ChessGame_Top.java:1844-1896 | after the placement steps every array square holds the layout's piece |
| Logic.GameLogic.PlaceBackRank | ChessGame_Top.java:1856-1882 | one colour's back-rank assignments set exactly that row |
| Logic.GameLogic.FillPawnRows | ChessGame_Top.java:1866-1893 | the pawn loops fill the pawn rows and change no other row |
| Logic.GameLogic.GetBoardSize | ChessGame_Top.java:1817-1819 | the side length is 8, 16 or 32 |
| Logic.GameLogic.GetPiece | ChessGame_Top.java:1899-1902 | getPiece is the bounds-checked lookup PieceAt |
| Logic.GameLogic.MovePiece | ChessGame_Top.java:1905-1916 | movePiece changes the board to Rules.MovePiece of the old position and returns the old target content |
| Logic.GameLogic.UndoLastMove | ChessGame_Top.java:1918-1939 | undoLastMove changes the state to Rules.UndoLast of the old position |
| Logic.GameLogic.UndoMove | ChessGame_Top.java:1944-1949 | undoMove changes the state to Rules.UndoMove of the old position |
| Logic.GameLogic.CanUndo | ChessGame_Top.java:1941 | canUndo: the undo stack is not empty |
| Logic.GameLogic.PromotePiece | ChessGame_Top.java:1987-1989 | promotePiece changes the state to Rules.Promote of the old position |
| Logic.GameLogic.IsInCheck | ChessGame_Top.java:1952-1985 | the result is true iff the colour's first king is attacked; without a king it is false |
| Logic.GameLogic.FindKing | ChessGame_Top.java:1954-1966 | the search returns the first king of the colour in row-major order, or -1 when there is none |
| Logic.GameLogic.IsAttackedBy | ChessGame_Top.java:1970-1984 | the scan answers true iff some piece of the colour lists the square |
| Logic.GameLogic.RowAttacker | ChessGame_Top.java:1972-1982 | the row scan returns a column whose piece of the colour lists the square, or none exists in that row |
| Logic.GameLogic.Lists | ChessGame_Top.java:1976-1980 | the innermost loop finds the square iff it is among the moves |
| Logic.GameLogic.GetValidMoves | ChessGame_Top.java:1991-2050 | the destinations are exactly Rules.ValidMoves, in the source's order |
| Logic.GameLogic.PawnMovesOf | ChessGame_Top.java:1997-2024 | the pawn case yields Rules.PawnMoves |
| Logic.GameLogic.PawnAdvanceOf | ChessGame_Top.java:1998-2020 | the forward steps yield Rules.PawnAdvance: one step, and two from the start row |
| Logic.GameLogic.AddAllLines | ChessGame_Top.java:2025-2038 | calling addLines for each direction appends Rules.Slides |
| Logic.GameLogic.AddLines | ChessGame_Top.java:2052-2062 | addLines appends exactly the ray along its direction |
| Logic.GameLogic.CheckMoves | ChessGame_Top.java:2039-2046 | calling checkMove for each offset appends Rules.Jumps |
| Logic.GameLogic.CheckCapture | ChessGame_Top.java:2070-2075 | checkCapture appends the square iff it is on the board and holds an enemy |
| Pgn.NatText | ChessGame_Top.java:961 | a number is written as one or more decimal digits |
| Pgn.NatTextRoundTrip | ChessGame_Top.java:961 | reading back the digits of a number gives the number |
| Pgn.IntText | ChessGame_Top.java:961 | an int appended to a string is never empty |
| Pgn.TrailingDigits | ChessGame_Top.java:961 | the count of trailing characters that are all digits |
| Pgn.TrailingDigitsAppend | ChessGame_Top.java:961 | digits appended to a text not ending in a digit are exactly its trailing digits |
| Pgn.ParseDigits | ChessGame_Top.java:961 | the reader splits off exactly the appended rank digits |
| Pgn.ParseSignOf | ChessGame_Top.java:961 | a minus sign before the digits is read as a negative rank |
| Pgn.ParseParts | ChessGame_Top.java:948-963 | a text made of head, file, sign and digits is read as those parts |
| Pgn.ParseHeadOf | ChessGame_Top.java:950-960 | the piece letter and the capture mark are read back as the kind and the capture flag |
| Pgn.NotationShape | ChessGame_Top.java:948-963 | a notation is the piece letter, the capture mark, the file letter, an optional sign and the rank digits |
| Pgn.Notation | ChessGame_Top.java:948-963 | toPGNNotation: the piece letter, "x" when something was captured, the file letter 'a' plus the column and the rank 8 minus the row; NotationShape, NotationRoundTrip and NotationInjective state its shape and that it reads back |
| Pgn.ParseFront | ChessGame_Top.java:950-961 | the front of a notation is read back as kind, capture flag and column |
| Pgn.NotationRoundTrip | ChessGame_Top.java:948-963 | the reader of a toPGNNotation string recovers the mover's kind (none for a pawn), whether something was captured, the column and the rank 8 - row |
| Pgn.NotationInjective | ChessGame_Top.java:948-963 | two moves with the same notation agree on target square, capture flag and the mover's kind |
| Uci.SkillToDepth | ChessGame_Top.java:2174-2184 | mapSkillLevelToDepth always yields a depth from 2 to 22 |
| Uci.SkillToDepthMonotone | ChessGame_Top.java:2174-2184 | a higher skill never asks for a shallower search |
| Uci.SkillTable | ChessGame_Top.java:2164-2184 | skills 5, 10 and 15 search exactly that deep, 0 and below search 2, 20 and above search 22, and every level in between lies within 2 below and 3 above its skill |
| Uci.ClampSkill | ChessGame_Top.java:2154-2162 | the level sent to the engine lies in 0..20 and equals the request when that is in range |
| Uci.Digit | ChessGame_Top.java:2263 | the run length is written as its decimal digit |
| Uci.RankFields | ChessGame_Top.java:2255-2286 | the placement has eight rank fields, one per row from the top |
| Uci.RankText | ChessGame_Top.java:2256-2282 | one rank of toFEN: runs of empty squares become their count and pieces their letters; RankRoundTrip states that the field decodes back to the rank |
| Uci.Placement | ChessGame_Top.java:2254-2285 | the eight rank fields of toFEN joined by '/'; PlacementShape and FenRoundTrip state that the placement decodes back to the board |
| Uci.ToFen | ChessGame_Top.java:2248-2293 | toFEN refuses exactly the boards that are not 8 x 8 |
| Uci.Nones | ChessGame_Top.java:2256-2264 | a run of k empty squares |
| Uci.Split | ChessGame_Top.java:2283-2285 | splitting at '/' yields at least one field |
| Uci.ExpandConcat | ChessGame_Top.java:2255-2286 | decoding a concatenation decodes the parts |
| Uci.CharPieceInverse | ChessGame_Top.java:2266-2276 | the FEN letter of a piece decodes back to that piece and is neither a digit nor '/' |
| Uci.ExpandRun | ChessGame_Top.java:2262-2264 | the digit of a run of empty squares decodes to that many empty squares |
| Uci.ExpandPiece | ChessGame_Top.java:2266-2277 | a piece letter decodes to that piece |
| Uci.RankEmptyStep | ChessGame_Top.java:2259-2260 | an empty square adds one to the pending run and the decoding still matches |
| Uci.RankPieceStep | ChessGame_Top.java:2261-2278 | a piece flushes the pending run and the decoding still matches |
| Uci.RankRoundTrip | ChessGame_Top.java:2255-2282 | a rank field decodes to exactly the pending empty squares followed by the rank's squares |
| Uci.RankRunsCollapsed | ChessGame_Top.java:2256-2282 | a rank field never has two adjacent digits and never contains '/' |
| Uci.SplitField | ChessGame_Top.java:2283-2285 | splitting a text that begins with a field without '/' |
| Uci.SplitJoin | ChessGame_Top.java:2283-2285 | splitting the joined rank fields gives the fields back |
| Uci.DecodeRanksOf | ChessGame_Top.java:2255-2286 | eight fields that each decode to a row decode to the grid |
| Uci.PlacementShape | ChessGame_Top.java:2254-2286 | the placement of an 8 x 8 grid is eight '/'-separated fields and decodes back to the grid |
| Uci.FenRoundTrip | ChessGame_Top.java:2248-2293 | toFEN of an 8 x 8 board decodes back to the same squares and the same side to move |
| Uci.RankTextFull | ChessGame_Top.java:2266-2277 | a rank without empty squares is the string of its pieces' letters |
| Uci.RankTextEmpty | ChessGame_Top.java:2280-2282 | a run of empty squares that closes a rank is written as one digit |
| Uci.PieceRank | ChessGame_Top.java:2266-2277 | a rank of pieces only is written as the given letters |
| Uci.StartFen | ChessGame_Top.java:2248-2293 | after resetBoard the FEN is the standard starting placement with White to move |
| Uci.StartPlacement | ChessGame_Top.java:2254-2286 | the placement of the classic opening grid is the standard one |
| Uci.UciToMove | ChessGame_Top.java:2299-2323 | uciToMove refuses text shorter than four characters and only yields moves whose two squares are on the board |
| Uci.SquareText | ChessGame_Top.java:2302-2311 | a square's text is two characters |
| Uci.MoveToUci | ChessGame_Top.java:2299-2311 | a move's text is four characters |
| Uci.UciRoundTrip | ChessGame_Top.java:2299-2323 | encoding an on-board move and decoding it, whatever follows (a promotion letter), gives the move back |
| Uci.UciDecodeEncode | ChessGame_Top.java:2299-2323 | a decoded move encodes back to the first four characters of the text |
| Uci.UciSquaresOnClassicBoard | ChessGame_Top.java:2302-2317 | on the 8 x 8 board a text is accepted iff its squares are files a-h and ranks 1-8 |
| Uci.SkipWord | ChessGame_Top.java:2224 | skipping a word drops a non-whitespace prefix and stops at whitespace |
| Uci.SkipSpace | ChessGame_Top.java:2224 | skipping whitespace drops a whitespace prefix and stops at a non-space |
| Uci.Word | ChessGame_Top.java:2224 | a word is the longest whitespace-free prefix |
| Uci.BestMoveToken | ChessGame_Top.java:2224-2230 | the parsed move token is a non-empty word and never the null move 0000 |
| Uci.KeywordIsWord | ChessGame_Top.java:2213 | the reply keyword contains no whitespace |
| Uci.BestMoveTokenOf | ChessGame_Top.java:2224-2230 | a reply "bestmove <t> ..." yields exactly the token t |
| Uci.SkipWordPrefix | ChessGame_Top.java:2224 | skipping a word in front of whitespace leaves the rest |
| Uci.SkipSpacePrefix | ChessGame_Top.java:2224 | skipping whitespace in front of a non-space leaves the rest |
| Uci.WordPrefix | ChessGame_Top.java:2224 | the word in front of whitespace is read whole |
| Uci.FindBestMoveLine | ChessGame_Top.java:2210-2217 | the chosen line is a reply line starting with bestmove; none means no line does |
| Uci.EngineMove | ChessGame_Top.java:2191-2236 | a move obtained from the engine has both squares on the board, and boards other than 8 x 8 are refused |
| Uci.MoveTextIsToken | ChessGame_Top.java:2224-2230 | the text of an on-board move is one token and not 0000 |
| Uci.BestMoveLineOf | ChessGame_Top.java:2213-2230 | the reply line naming a move carries that move's text as its token |
| Uci.EngineMoveOf | ChessGame_Top.java:2191-2236 | an engine that answers bestmove with the text of an on-board move yields that move |
| Uci.FirstLineAfter | ChessGame_Top.java:2210-2217 | the first bestmove line after lines without one is chosen |
| AmusementAi.PieceValue | ChessGame_Top.java:2514-2523 | piece values lie in 10..900; only the king is worth 900 and only the pawn 10 |
| AmusementAi.CenterBonus | ChessGame_Top.java:2478-2484 | the centre bonus lies in 0..5 |
| AmusementAi.CenterBonusPeak | ChessGame_Top.java:2478-2484 | the centre square earns the full bonus of 5 |
| AmusementAi.CenterBonusMonotone | ChessGame_Top.java:2478-2484 | a square no farther from the centre earns at least as much |
| AmusementAi.CenterBonusFar | ChessGame_Top.java:2478-2484 | squares a board width or more from the centre earn nothing |
| AmusementAi.PawnAdvanceShape | ChessGame_Top.java:2486-2494 | the colours are scored as mirror images, each step forward adds 2, and on the board the bonus lies in 2..2N |
| AmusementAi.PawnAdvanceBonus | ChessGame_Top.java:2486-2494 | getPawnAdvanceBonus: twice N minus the row for White, twice N minus the distance from row N-1 for Black; PawnAdvanceShape states its shape |
| AmusementAi.KingSafety | ChessGame_Top.java:2496-2512 | the king-safety bonus is a multiple of 3, at most 3 per neighbour |
| AmusementAi.KingSafetyStep | ChessGame_Top.java:2498-2510 | one more neighbour adds 3 if it is an on-board friend and nothing otherwise |
| AmusementAi.KingSafetyAlone | ChessGame_Top.java:2496-2512 | a king without a friendly neighbour gets no bonus |
| AmusementAi.CellScoreSign | ChessGame_Top.java:2429-2464 | Black's pieces add at least their value and White's subtract at least theirs; on the 8 x 8 board a square scores exactly plus or minus its value |
| AmusementAi.CellScore | ChessGame_Top.java:2429-2464 | one square's part of evaluateBoard: material, and above 8 x 8 the centre, pawn-advance, mobility and king-safety bonuses, added for Black and subtracted for White; CellScoreSign and CellScoreBound state its sign and size |
| AmusementAi.CellScoreBound | ChessGame_Top.java:2429-2464 | no square scores more than 2100 either way |
| AmusementAi.RowScoreBound | ChessGame_Top.java:2428-2464 | a row of k squares scores at most 2100k either way |
| AmusementAi.BoardScoreBound | ChessGame_Top.java:2427-2465 | k rows score at most k times the row bound |
| AmusementAi.EvaluateBound | ChessGame_Top.java:2422-2476 | every evaluation lies strictly between the two no-moves scores, so no int overflow occurs |
| AmusementAi.Evaluate | ChessGame_Top.java:2422-2476 | evaluateBoard: the sum over all squares in row-major order, plus 50 when White is in check and minus 50 when Black is; EvaluateBound bounds it |
| AmusementAi.DestTable | ChessGame_Top.java:2532 | the destinations of every square, one list per square |
| AmusementAi.DestTableAt | ChessGame_Top.java:2532 | the table entry of a square is its getValidMoves list |
| AmusementAi.ListedGenerated | ChessGame_Top.java:2525-2540 | a move is listed by the table iff it is generated from the piece's destinations |
| AmusementAi.AllMoves | ChessGame_Top.java:2525-2540 | the corrected generator yields only moves movePiece can play |
| AmusementAi.AllMovesAsWritten | ChessGame_Top.java:2525-2540 | generateAllMoves as written: one move per getValidMoves destination of each of the side's pieces, in row-major order, off-board targets included; AllMovesAsWrittenExact states its contents |
| AmusementAi.ScanUnfold | ChessGame_Top.java:2528-2538 | one step of the three nested loops |
| AmusementAi.ScanSkip | ChessGame_Top.java:2530-2531 | a square without a piece of the side adds nothing |
| AmusementAi.AllListedConcat | ChessGame_Top.java:2534 | appending listed moves keeps every move listed |
| AmusementAi.EmitSound | ChessGame_Top.java:2533-2535 | the moves added for one destination are listed |
| AmusementAi.ScanSound | ChessGame_Top.java:2525-2540 | every generated move is listed by the table |
| AmusementAi.ScanPlayable | ChessGame_Top.java:2525-2540 | with off-board destinations skipped, every generated move is playable |
| AmusementAi.ScanComplete | ChessGame_Top.java:2525-2540 | every listed move that the scan has passed is in its output |
| AmusementAi.ScanExact | ChessGame_Top.java:2525-2540 | the generator over any table yields exactly the moves the table allows |
| AmusementAi.AllMovesExact | ChessGame_Top.java:2525-2540 | the corrected generator yields exactly the on-board moves of the side's pieces |
| AmusementAi.AllMovesAsWrittenExact | ChessGame_Top.java:2525-2540 | the generator as written yields every destination of the side's pieces, whether on the board or not |
| AmusementAi.DestTableOnBoard | ChessGame_Top.java:1991-2050 | without a pawn of the side on the last row in its direction, every destination getValidMoves lists for the side's pieces is on the board |
| AmusementAi.ScanAgree | ChessGame_Top.java:2525-2540 | when every destination of the side's pieces is on the board, the loops as written and corrected build the same list at every point of the scan |
| AmusementAi.AllMovesAgree | ChessGame_Top.java:2525-2540 | the generator as written and the corrected one give the same list, in the same order, iff no pawn of the side stands on the last row in its direction |
| AmusementAi.OffBoardPawnMove | ChessGame_Top.java:2015-2016 | a pawn on its last row yields, as written, a move whose target is off the board |
| AmusementAi.SearchBound | ChessGame_Top.java:2385-2420 | every minimax score lies between the two no-moves scores |
| AmusementAi.Search | ChessGame_Top.java:2385-2386 | minimax: the evaluation at depth 0, otherwise Branch; SearchBound bounds its score |
| AmusementAi.Branch | ChessGame_Top.java:2387-2420 | minimax below depth 0 over the corrected generator's moves: the no-moves score, or the minimising loop for White and the maximising loop for Black |
| AmusementAi.MinLoop | ChessGame_Top.java:2395-2406 | the minimising loop: each reply searched with Black to move, minEval and beta lowered, a stop once beta <= alpha, and each probe's record kept |
| AmusementAi.MaxLoop | ChessGame_Top.java:2407-2419 | the maximising loop: each reply searched with White to move, maxEval and alpha raised, a stop once beta <= alpha, and each probe's record kept |
| AmusementAi.MinLoopBound | ChessGame_Top.java:2395-2406 | the minimising loop's score lies between the two no-moves scores |
| AmusementAi.MaxLoopBound | ChessGame_Top.java:2407-2419 | the maximising loop's score lies between the two no-moves scores |
| AmusementAi.RootEvals | ChessGame_Top.java:2370-2381 | the root loop computes one score per move |
| AmusementAi.RootLoop | ChessGame_Top.java:2369-2381 | findBestMove's loop: each move scored with the other side to move and an open beta, the best replaced only on a strictly larger score |
| AmusementAi.BestChoice | ChessGame_Top.java:2360-2383 | findBestMove over Black's moves from the corrected generator: no move when there are none, otherwise the root loop; BestChoiceSpec states which move it picks |
| AmusementAi.RootEvalsBound | ChessGame_Top.java:2370-2381 | every root score lies between the two no-moves scores |
| AmusementAi.MaxOf | ChessGame_Top.java:2375-2378 | the largest score occurs in the list and bounds it |
| AmusementAi.FirstMax | ChessGame_Top.java:2375-2378 | the first index holding the largest score |
| AmusementAi.RootLoopPicks | ChessGame_Top.java:2370-2382 | the root loop never cuts off and picks the first move with the highest score |
| AmusementAi.RootLoopRecords | ChessGame_Top.java:2370-2373 | every probed root move leaves at least its record on the undo stack |
| AmusementAi.FirstMaxStep | ChessGame_Top.java:2375-2378 | one step of the strict-improvement choice |
| AmusementAi.MaxOfCons | ChessGame_Top.java:2375-2378 | the largest score and its first index after putting a score in front |
| AmusementAi.BestChoiceSpec | ChessGame_Top.java:2360-2383 | findBestMove over the corrected generator returns no move iff Black has no on-board move, and otherwise the first of Black's moves with the highest minimax score; the source's throw on an off-board move is admitted under Left out |
| AmusementAi.KingSafetyBonus | ChessGame_Top.java:2496-2512 | getKingSafetyBonus's loops compute KingSafety over the eight neighbours |
| AmusementAi.EvaluateBoard | ChessGame_Top.java:2422-2476 | evaluateBoard computes Evaluate of the board, whose bound EvaluateBound states |
| AmusementAi.ScoreSquare | ChessGame_Top.java:2429-2463 | the inner-loop body adds CellScore of the square |
| AmusementAi.GenerateAllMoves | ChessGame_Top.java:2525-2540 | the corrected generator's loops compute AllMoves, whose contents AllMovesExact states; the off-board move the source keeps is admitted under Left out, and AllMovesAgree says when the two lists coincide |
| AmusementAi.MovesOfRow | ChessGame_Top.java:2529-2537 | the middle loop extends the scan to the end of the row |
| AmusementAi.MovesOfSquare | ChessGame_Top.java:2530-2536 | one square's moves extend the scan past that square |
| AmusementAi.MovesToDests | ChessGame_Top.java:2533-2535 | the innermost loop adds one move per on-board destination |
| AmusementAi.ProbeMove | ChessGame_Top.java:2399-2401 | a probe returns the reply's minimax score, restores the grid and side to move, and leaves the probe's and the reply's records on the stack |
| AmusementAi.Minimax | ChessGame_Top.java:2385-2420 | minimax over the corrected generator returns Search's score, restores the grid and side to move, and pushes exactly Search's records; the source's throw is admitted under Left out |
| AmusementAi.MinimizeOver | ChessGame_Top.java:2395-2406 | the minimising loop returns MinLoop's score and restores the board |
| AmusementAi.MaximizeOver | ChessGame_Top.java:2407-2419 | the maximising loop returns MaxLoop's score and restores the board |
| AmusementAi.StackStep | ChessGame_Top.java:2399-2401 | the stack after a probe is the records so far, the probe's record and the reply's records |
| AmusementAi.MinTurn | ChessGame_Top.java:2398-2405 | one iteration of the minimising loop: probe, lower beta, and cut off when beta <= alpha |
| AmusementAi.MaxTurn | ChessGame_Top.java:2410-2417 | one iteration of the maximising loop: probe, raise alpha, and cut off when beta <= alpha |
| AmusementAi.RootTurn | ChessGame_Top.java:2370-2381 | one iteration of findBestMove's loop: probe the move, take it as the best on a strictly larger score, raise alpha, and leave the board as it was with the probe's records on the stack; the result is RootLoop unfolded by one move |
| AmusementAi.MinLoopStep | ChessGame_Top.java:2398-2405 | the minimising loop unfolded by one move |
| AmusementAi.PlayableSuffix | ChessGame_Top.java:2398 | the moves left to try are still playable |
| AmusementAi.MaxLoopStep | ChessGame_Top.java:2410-2417 | the maximising loop unfolded by one move |
| AmusementAi.RootLoopStep | ChessGame_Top.java:2370-2381 | the root loop unfolded by one move |
| AmusementAi.FindBestMove | ChessGame_Top.java:2360-2383 | findBestMove over the corrected generator returns BestChoice's move and restores the grid and side to move, leaving the probes' records on the stack; the source's throw is admitted under Left out |
| Screen.UndoPolicy | ChessGame_Top.java:706-731 | an undo keeps the position well formed |
| Screen.UndoPolicyPops | ChessGame_Top.java:706-731 | an undo pops one record while the AI thinks, one or two otherwise, and hands the turn back to White unless the stack runs empty |
| Screen.MoveThenPromote | ChessGame_Top.java:1905-1916 | a move followed by an optional promotion keeps the position well formed |
| Screen.UndoTakesBackExchange | ChessGame_Top.java:706-731 | with White to move, a player's move and the reply, each possibly promoted, are both taken back by one undo |
| Screen.UndoWhileThinking | ChessGame_Top.java:709-712 | while the AI thinks an undo takes back exactly the player's move |
| Screen.AiDepth | ChessGame_Top.java:1038-1050 | the variant AI's depth is the table depth, capped at 4 on boards larger than 8 x 8 |
| Screen.UseVariantAi | ChessGame_Top.java:1042 | performAIMove uses the variant AI in amusement mode, on boards other than 8 x 8, or without an engine |
| Screen.AiDepthMonotone | ChessGame_Top.java:1038-1050 | a higher skill never searches shallower, and on a big board every skill from 1 searches 4 plies |
| Rules.PawnTargetRow | ChessGame_Top.java:1997-2024 | every pawn move goes one or two rows forward in the pawn's direction |
| Screen.Promotes | ChessGame_Top.java:1515-1519 | the player's promotion rule: a white pawn on row 0 or a black pawn on row N-1 |
| Screen.AiPromotesAsWritten | ChessGame_Top.java:1091-1092 | applyAIMove's promotion rule as written: a black pawn on row 0 or a white pawn on row N-1 |
| Screen.AiPromotionAsWrittenMissed | ChessGame_Top.java:1088-1093 | the AI's promotion rule as written never fires for a black pawn's move, since such a move never lands on row 0 |
| Screen.AfterAiMove | ChessGame_Top.java:1068-1105 | applyAIMove's effect after a successful move, with the corrected promotion row, keeps the position well formed; the as-written row is admitted under Left out |
| Screen.AfterAi | ChessGame_Top.java:1068-1105 | applyAIMove, with the corrected promotion row, keeps the position well formed whether or not there is a playable move; the as-written row is admitted under Left out |
| Screen.AiPromotesAtFarRow | ChessGame_Top.java:1083-1093 | with the corrected rule, a black pawn the AI moves onto row N-1 becomes a black queen, and one undo still restores the position |
| Screen.UndoAfterVariantAi | ChessGame_Top.java:706-731 | after a variant-AI turn that left probe records, an undo takes back the AI's move and a probe record, leaving the player's move on the stack |
| Screen.VariantAiTurnThenUndo | ChessGame_Top.java:1038-1050 | after the variant AI's actual turn, the undo that follows keeps the player's move on the stack |
| Screen.UndoAfterVariantAiCells | ChessGame_Top.java:1918-1939 | the second pop of that undo applies the left-over probe record to the live board: its target gets the record's captured content and its source the record's mover |
| Screen.Rebuild | ChessGame_Top.java:989-1010 | the rebuild of a log prefix is a well-formed position |
| Screen.RebuildNext | ChessGame_Top.java:978-986 | replayNext's step from a complete rebuild lands on the rebuild of the next prefix |
| Screen.RebuildPrefix | ChessGame_Top.java:989-1000 | a complete rebuild of k moves completes every shorter prefix |
| Screen.RebuildStuck | ChessGame_Top.java:994-997 | once a logged move cannot be played, the rest of the log changes nothing |
| Screen.RebuildRecords | ChessGame_Top.java:989-1010 | a complete rebuild of k moves has k records naming the logged squares, on an 8 x 8 board, with the side to move alternating from White |
| Screen.RebuildStep | ChessGame_Top.java:994-997 | a complete rebuild of k moves is the rebuild of k - 1 moves plus one record for log entry k - 1 |
| Screen.AddAllSpec | ChessGame_Top.java:1141-1163 | adding squares with the duplicate check keeps the list duplicate-free and adds exactly the new squares |
| Screen.RangeSpec | ChessGame_Top.java:1134-1168 | the scan up to a square holds each square once, and exactly those that an earlier piece of the side occupies or may move to |
| Screen.AttackRangeExact | ChessGame_Top.java:1134-1168 | the fog-of-war set lists each square once, and a square is in it iff a piece of the side stands on it or lists it |
| Screen.AttackRange | ChessGame_Top.java:1134-1168 | getAttackRange: the side's destinations and own squares in the order the row-major scan meets them, each once; AttackRangeExact states its contents |
| Screen.GameScreen.constructor | ChessGame_Top.java:624-689 | a new screen has the opening position, skill 5, three undos, an empty log and no replay |
| Screen.GameScreen.StartNewGame | ChessGame_Top.java:736-801 | startNewGame resets the session and sends the clamped skill to a running engine; it sets up the enlarged board of the drawn multiplier in amusement mode and the classic board otherwise |
| Screen.GameScreen.ResetSession | ChessGame_Top.java:736-748 | the mode, the difficulty, three undos, an empty log and capture list, and no replay |
| Screen.GameScreen.ResetPieces | ChessGame_Top.java:750-777 | the variant board of the multiplier in amusement mode, the classic board otherwise |
| Screen.GameScreen.Undo | ChessGame_Top.java:706-731 | with budget left and a non-empty stack, undo applies UndoPolicy and spends one undo; otherwise nothing changes |
| Screen.GameScreen.RecordMove | ChessGame_Top.java:935-945 | outside replay mode the log gains the move's entry with its notation and the captured piece is pushed; in replay mode nothing changes |
| Screen.GameScreen.ApplyAiMove | ChessGame_Top.java:1068-1105 | applyAIMove satisfies AiMoveApplied: the position is AfterAi's (corrected promotion row, admitted under Left out); the AI wins iff the played move takes a king and, for a self-move, only in replay mode; outside replay mode a move that lands is logged and its captured piece pushed, and otherwise log and capture list stay as they were |
| Screen.GameScreen.PlayAiMove | ChessGame_Top.java:1070-1094 | playing the checked move satisfies AiMoveApplied for that move: AfterAiMove's position (corrected promotion row, admitted under Left out), the win, the log entry and the captured piece |
| Screen.GameScreen.PerformAiMove | ChessGame_Top.java:1038-1066 | the move chosen by AiChoice (the variant AI at AiDepth in amusement mode, off 8 x 8 or without an engine, otherwise the engine's reply) is applied as AiMoveApplied states, from the position with the search's records on the stack: position, log, capture list and win; the corrected generator and promotion row are admitted under Left out |
| Screen.GameScreen.ChooseAiMove | ChessGame_Top.java:1039-1048 | the move performAIMove hands to applyAIMove is AiChoice's, and the board is left with the same squares and turn and the search's records pushed |
| Screen.AiChoice | ChessGame_Top.java:1042-1048 | the variant AI's BestChoice at AiDepth when UseVariantAi holds, otherwise the engine's reply with no records |
| Screen.AiMoveApplied | ChessGame_Top.java:1068-1105 | applyAIMove's effect: position AfterAi, a win iff a king is taken past recordMove, and the log entry and captured piece recorded iff the move lands outside replay mode |
| Screen.GameScreen.GetAttackRange | ChessGame_Top.java:1134-1168 | the loops compute AttackRange, whose contents AttackRangeExact states |
| Screen.GameScreen.AddDestinations | ChessGame_Top.java:1141-1153 | the destination loop appends each square not yet present |
| Screen.GameScreen.Contains | ChessGame_Top.java:1144-1150 | the linear search finds a square iff it is in the list |
| Screen.GameScreen.StartReplay | ChessGame_Top.java:966-975 | with an empty log nothing changes; otherwise the cursor goes to 0 on the classic opening position, in sync with the log |
| Screen.GameScreen.ReplayNext | ChessGame_Top.java:978-986 | the move under the cursor is played and the cursor advances when it can be; otherwise nothing changes; the board stays in sync with the log |
| Screen.GameScreen.PlayLogged | ChessGame_Top.java:980-981 | a logged move is played iff movePiece can play it, and nothing changes otherwise |
| Screen.GameScreen.ReplayPrev | ChessGame_Top.java:989-1000 | the cursor steps back and the board is the rebuild of the prefix; the board stays in sync with the log |
| Screen.GameScreen.StopReplay | ChessGame_Top.java:1003-1010 | replay ends and the board is the rebuild of the whole log |
| Screen.GameScreen.ReplayLog | ChessGame_Top.java:991-997 | reset and play the first moves of the log: the board is their rebuild |
| Screen.GameScreen.PlayLog | ChessGame_Top.java:993-996 | the replay loop from the opening position yields the rebuild of the prefix |
| Screen.TurnsPartition | ChessGame_Top.java:1018-1036 | in replay mode nobody moves; against the AI exactly one of the player and the AI is due; against a human the player always may move |
| Screen.GameScreen.IsPlayerTurn | ChessGame_Top.java:1120-1127 | isPlayerTurn: false in replay mode, true against a human, and White's turn against the AI; TurnsPartition relates it to the AI's turn |
| Screen.GameScreen.AiTurnDue | ChessGame_Top.java:1029 | onTurnEnd starts the AI's timer when playing the AI, Black is to move and replay mode is off; TurnsPartition relates it to isPlayerTurn |

## Left out

- The user interface is not part of this model: Swing painting, dialogs, sounds, the screen shake, the timers and the clocks.
- Fog-of-war opacity and its animation are left out; they are floating-point timing only affecting display. The visible set itself (getAttackRange) is modelled.
- The flash skill's cooldown and the captured-piece display are left out.
- `handleWin` is UI; the model returns the AI's win as a boolean instead.
- `Random` is not modelled. The amusement multiplier of startNewGame is a parameter.
- The external engine process is not modelled: starting it, sending UCI commands and reading lines, including its threads and the Swing event queue. The engine's reply lines (`Uci.EngineMove`), or the move they yield (`Screen.GameScreen.PerformAiMove`), are parameters.
- Where the model keeps a Java exception of the source, it is modelled as "stop, nothing changed": in replay, and in applyAIMove. movePiece reads both squares before it writes anything, so an off-board index or an empty source square aborts before any mutation. A self-move empties its square; outside replay mode recordMove then throws on the missing piece, so nothing is logged and no win is reported, while in replay mode recordMove returns at once (line 936) and the win check still runs. The exception the variant AI's search can throw is not modelled, as the lines below say.
- The variant AI's search uses the corrected generator `AllMoves` (the second finding). The source's findBestMove and minimax call generateAllMoves as written (lines 2362 and 2389). When a position the search reaches has a pawn of the side to move on its last row, the source lists that pawn's step off the board, and movePiece (line 1907) throws ArrayIndexOutOfBoundsException out of performAIMove. The probes around it are then never taken back, so their moves stay applied to the board and their records stay on the stack. Probes never promote, so this happens at depth 3 or more even when no such pawn stands on the live board. `AmusementAi.AllMovesAgree` proves the two generators give the same list exactly when no such pawn stands on the board, so at every search node without such a pawn the two generators give the same list. No lemma relates the two searches as a whole.
- Branch: lists the side's moves with the corrected generator, where the source's minimax (line 2389) throws on a pawn of the side to move on its last row.
- BestChoice: lists Black's moves with the corrected generator, where the source's findBestMove (line 2362) throws on a black pawn on row N-1.
- BestChoiceSpec: states the choice of the corrected search; the source's findBestMove throws instead of returning whenever a searched position has a pawn of the side to move on its last row.
- GenerateAllMoves: skips the off-board destinations that generateAllMoves (lines 2533-2535) turns into moves.
- Minimax: searches the corrected generator's moves and always restores the board, where the source's minimax throws with the enclosing probes left applied.
- FindBestMove: always returns and restores the board, where the source's findBestMove throws ArrayIndexOutOfBoundsException when the search reaches a pawn on its last row.
- PerformAiMove: its variant branch uses the corrected search and the corrected promotion row; the source's performAIMove throws out of the search in the cases above, and as written never promotes the AI's pawn.
- AfterAiMove: promotes by the player's rule `Screen.Promotes`, so a black pawn reaching row N-1 becomes a queen (the first finding). applyAIMove as written (lines 1091-1092) uses `Screen.AiPromotesAsWritten` and leaves that pawn a pawn; `Screen.AiPromotionAsWrittenMissed` states this.
- AfterAi: inherits the corrected promotion row of AfterAiMove.
- ApplyAiMove: the position it leaves follows AfterAi, with the corrected promotion row.
- PlayAiMove: promotes by the player's rule where applyAIMove as written (lines 1091-1092) does not.
- Replay always rebuilds the classic 8 x 8 opening position, even for a log recorded in amusement mode; the model does the same.
- Undo does not trim the move log; the model does the same.
- The source's `MoveRecord` holds a reference to the moved piece and its old type, so that undo can revert a promotion through the shared object. The model stores the piece's value before the move, which has the same effect on the board. Aliasing between pieces is not modelled.
- Pgn.Notation: it requires the column to be below 32, the largest board side, so that the file character stays within the letters the reader accepts.
- Uci.StartFen: it states the starting FEN as the join of the eight standard rank fields, not as one literal string.
- Rules.SlidesLength: it states an upper bound on the number of slider destinations, not their exact count.
- The source's `GameLogic.getValidMoves` returns `java.awt.Point` values with x as the column. The model uses `Square(row, col)` throughout.
- The human move handler of the board component is not part of this model, apart from its promotion rule (`Screen.Promotes`, lines 1513-1520).

## Findings

| source | as written | input that shows it | evidently intended | confidence | as-written member | corrected member |
|---|---|---|---|---|---|---|
| ChessGame_Top.java:1088-1093 | applyAIMove promotes a black pawn on row 0 and a white pawn on row N-1 | a black pawn on row N-2 moved by the AI to row N-1 stays a pawn | a pawn promotes on the last row in its direction, as in the player's handler at lines 1513-1520: row N-1 for Black | not executed | Screen.AiPromotionAsWrittenMissed | Screen.AiPromotesAtFarRow |
| ChessGame_Top.java:2525-2540 | generateAllMoves turns every getValidMoves destination into a move, including a pawn's step off the board from its last row (getPiece reports off-board squares as empty, lines 2015-2016) | a black pawn on row N-1 of the variant board yields the move to row N, and movePiece then indexes outside the array | only on-board destinations become moves | not executed | AmusementAi.OffBoardPawnMove | AmusementAi.AllMovesExact |
