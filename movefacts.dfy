/** What the move rules allow and what a legal move does to the board,
    stated for every state and pair of squares, and for the opening
    position FilledBoard builds. */
module MoveFacts {
  import opened Wrappers
  import opened Geometry
  import opened Pieces
  import opened Grids
  import opened Boards
  import opened Rules

  /** Every legal move other than castling is a single swap of the two
      cells: whatever stood on the destination, whoever owns it, ends up on
      the origin square, and no other cell changes. */
  lemma MoveSwapsEndpoints(s: State, pos1: Position, pos2: Position)
    requires Movable(s, pos1)
    requires Mover(s, pos1).pieceType != "K" || NextTo(pos1, pos2)
    requires MoveOutcome(s, pos1, pos2).Some?
    ensures var t := MoveOutcome(s, pos1, pos2).value;
            Cell(t.spaces, pos2) == Cell(s.spaces, pos1) &&
            Cell(t.spaces, pos1) == Cell(s.spaces, pos2) &&
            forall q: Position :: q != pos1 && q != pos2 ==> Cell(t.spaces, q) == Cell(s.spaces, q)
  {
  }

  /** A knight jumps one row and two columns, or two rows and one column,
      whatever stands between or on the destination. */
  lemma KnightJumps(s: State, pos1: Position, pos2: Position)
    requires Movable(s, pos1) && Mover(s, pos1).pieceType == "N"
    ensures MoveOutcome(s, pos1, pos2).Some? <==>
              (Abs(pos1.x - pos2.x) == 1 && Abs(pos1.y - pos2.y) == 2) ||
              (Abs(pos1.x - pos2.x) == 2 && Abs(pos1.y - pos2.y) == 1)
    ensures MoveOutcome(s, pos1, pos2).Some? ==>
              MoveOutcome(s, pos1, pos2).value == SwapState(s, pos1, pos2, "move")
  {
  }

  /** A rook moves along its row or its column over empty squares, and
      records which of the two it used. */
  lemma RookSlides(s: State, pos1: Position, pos2: Position)
    requires Movable(s, pos1) && Mover(s, pos1).pieceType == "R"
    ensures MoveOutcome(s, pos1, pos2).Some? <==>
              (pos1.x == pos2.x && ClearRank(s.spaces, pos1, pos2)) ||
              (pos1.x != pos2.x && pos1.y == pos2.y && ClearFile(s.spaces, pos1, pos2))
    ensures MoveOutcome(s, pos1, pos2).Some? ==>
              MoveOutcome(s, pos1, pos2).value ==
                SwapState(s, pos1, pos2, if pos1.x == pos2.x then "rank" else "file")
  {
  }

  /** A bishop moves along a diagonal over empty squares. */
  lemma BishopSlides(s: State, pos1: Position, pos2: Position)
    requires Movable(s, pos1) && Mover(s, pos1).pieceType == "B"
    ensures MoveOutcome(s, pos1, pos2).Some? <==>
              pos1 != pos2 && Abs(pos1.x - pos2.x) == Abs(pos1.y - pos2.y) &&
              ClearDiagonal(s.spaces, pos1, pos2)
    ensures MoveOutcome(s, pos1, pos2).Some? ==>
              MoveOutcome(s, pos1, pos2).value == SwapState(s, pos1, pos2, "move")
  {
  }

  /** A queen moves like a rook or a bishop, and no move is ever recorded in
      its history, nor in any other piece's. */
  lemma QueenSlides(s: State, pos1: Position, pos2: Position)
    requires Movable(s, pos1) && Mover(s, pos1).pieceType == "Q"
    ensures MoveOutcome(s, pos1, pos2).Some? <==>
              (pos1.x == pos2.x && ClearRank(s.spaces, pos1, pos2)) ||
              (pos1.x != pos2.x && pos1.y == pos2.y && ClearFile(s.spaces, pos1, pos2)) ||
              (pos1.x != pos2.x && Abs(pos1.x - pos2.x) == Abs(pos1.y - pos2.y) &&
               ClearDiagonal(s.spaces, pos1, pos2))
    ensures MoveOutcome(s, pos1, pos2).Some? ==> MoveOutcome(s, pos1, pos2).value.pieces == s.pieces
  {
  }

  /** A king steps to any neighbouring square. */
  lemma KingSteps(s: State, pos1: Position, pos2: Position)
    requires Movable(s, pos1) && Mover(s, pos1).pieceType == "K"
    requires Abs(pos1.x - pos2.x) <= 1 && Abs(pos1.y - pos2.y) <= 1
    ensures MoveOutcome(s, pos1, pos2) == Some(SwapState(s, pos1, pos2, "move"))
  {
  }

  /** Any other king move is castling: an unmoved king goes two columns
      along its row towards an unmoved rook on the edge square of that side,
      with nothing between king and rook. */
  lemma CastlingNeeds(s: State, pos1: Position, pos2: Position)
    requires Movable(s, pos1) && Mover(s, pos1).pieceType == "K"
    requires !NextTo(pos1, pos2) && MoveOutcome(s, pos1, pos2).Some?
    ensures Mover(s, pos1).moves == []
    ensures pos1.x == pos2.x && Abs(pos1.y - pos2.y) == 2
    ensures var rookSquare := Position(pos1.x, if pos1.y > pos2.y then 0 else 7);
            Cell(s.spaces, rookSquare).Some? &&
            s.pieces[Cell(s.spaces, rookSquare).value].pieceType == "R" &&
            s.pieces[Cell(s.spaces, rookSquare).value].moves == [] &&
            ClearRank(s.spaces, pos1, rookSquare)
  {
  }

  /** After castling the king stands on its destination, the rook on the
      square the king passed over, both origin squares are empty and both
      pieces record "castle". This holds whenever the rook did not already
      stand on the king's destination. */
  lemma CastlingResult(s: State, pos1: Position, pos2: Position)
    requires Movable(s, pos1) && Mover(s, pos1).pieceType == "K"
    requires !NextTo(pos1, pos2) && MoveOutcome(s, pos1, pos2).Some?
    requires CastleSquares(pos1, pos2).0 != pos2
    ensures var t := MoveOutcome(s, pos1, pos2).value;
            var (rookFrom, rookTo) := CastleSquares(pos1, pos2);
            var king, rook := Cell(s.spaces, pos1).value, Cell(s.spaces, rookFrom).value;
            Cell(t.spaces, pos2) == Some(king) && Cell(t.spaces, rookTo) == Some(rook) &&
            Cell(t.spaces, pos1).None? && Cell(t.spaces, rookFrom).None? &&
            t.pieces[king] == Record(s.pieces[king], "castle") &&
            t.pieces[rook] == Record(s.pieces[rook], "castle")
  {
  }

  /** The converse of CastlingNeeds: an unmoved king two columns along its
      row from its destination, with an unmoved rook on the edge square of
      that side and nothing between them, may castle. */
  lemma CastlingAllowed(s: State, pos1: Position, pos2: Position)
    requires Movable(s, pos1) && Mover(s, pos1).pieceType == "K" && Mover(s, pos1).moves == []
    requires pos1.x == pos2.x && Abs(pos1.y - pos2.y) == 2
    requires var rookSquare := Position(pos1.x, if pos1.y > pos2.y then 0 else 7);
             Cell(s.spaces, rookSquare).Some? &&
             s.pieces[Cell(s.spaces, rookSquare).value].pieceType == "R" &&
             s.pieces[Cell(s.spaces, rookSquare).value].moves == [] &&
             ClearRank(s.spaces, pos1, rookSquare)
    ensures MoveOutcome(s, pos1, pos2).Some?
  {
  }

  /** When the king starts on column 2 and castles west (or on column 5 and
      castles east), the rook already stands on the king's destination. The
      first swap puts the rook on the king's origin square and the second
      moves the king on to the square beside it: the king ends beside the
      edge, the destination is empty, the king records "castle" twice and
      the rook records nothing. */
  lemma CastlingOntoRook(s: State, pos1: Position, pos2: Position)
    requires Movable(s, pos1) && Mover(s, pos1).pieceType == "K"
    requires !NextTo(pos1, pos2) && MoveOutcome(s, pos1, pos2).Some?
    requires CastleSquares(pos1, pos2).0 == pos2
    ensures pos2.y == 0 || pos2.y == 7
    ensures var t := MoveOutcome(s, pos1, pos2).value;
            var king, rook := Cell(s.spaces, pos1).value, Cell(s.spaces, pos2).value;
            Cell(t.spaces, CastleSquares(pos1, pos2).1) == Some(king) &&
            Cell(t.spaces, pos1) == Some(rook) && Cell(t.spaces, pos2).None? &&
            t.pieces[king].moves == s.pieces[king].moves + ["castle", "castle"] &&
            t.pieces[rook] == s.pieces[rook]
  {
    var (rookFrom, rookTo) := CastleSquares(pos1, pos2);
    var king, rook := Cell(s.spaces, pos1).value, Cell(s.spaces, pos2).value;
    var kingMoved := SwapState(s, pos1, pos2, "castle");
    assert MoveOutcome(s, pos1, pos2) == Some(SwapState(kingMoved, rookFrom, rookTo, "castle"));
    assert Cell(s.spaces, rookTo).None?;
    assert kingMoved.pieces[king].moves == s.pieces[king].moves + ["castle"];
  }

  /** The opening position with the bishop f1 and the knight g1 taken off:
      White castles king side, e1 to g1, and ends with the king on g1 and
      the rook on f1, both recording "castle". */
  lemma OpeningCastleKingSide(s: State)
    requires StandardPosition(s)
    ensures var f1, g1 := Position(7, 5), Position(7, 6);
            var u := AssignState(AssignState(s, f1, None), g1, None);
            Movable(u, Position(7, 4)) && MoveOutcome(u, Position(7, 4), g1).Some? &&
            var t := MoveOutcome(u, Position(7, 4), g1).value;
            Cell(t.spaces, g1) == Cell(s.spaces, Position(7, 4)) &&
            Cell(t.spaces, f1) == Cell(s.spaces, Position(7, 7)) &&
            LastMove(t.pieces[Cell(t.spaces, g1).value]) == "castle" &&
            LastMove(t.pieces[Cell(t.spaces, f1).value]) == "castle"
  {
    var e1, f1, g1, h1 := Position(7, 4), Position(7, 5), Position(7, 6), Position(7, 7);
    var u := AssignState(AssignState(s, f1, None), g1, None);
    assert Cell(u.spaces, e1) == Cell(s.spaces, e1) && Cell(u.spaces, h1) == Cell(s.spaces, h1);
    assert Cell(s.spaces, e1).Some? && Cell(s.spaces, h1).Some?;
    assert BackRank[4] == "K" && BackRank[7] == "R";
    assert u.pieces == s.pieces;
    CastlingAllowed(u, e1, g1);
    CastlingResult(u, e1, g1);
  }

  /** A pawn only ever moves towards its owner's direction. */
  lemma PawnMovesForward(s: State, pos1: Position, pos2: Position)
    requires Movable(s, pos1) && Mover(s, pos1).pieceType == "P"
    requires MoveOutcome(s, pos1, pos2).Some?
    ensures Mover(s, pos1).player.direction == FileDirection(pos1, pos2)
  {
  }

  /** One square straight ahead is legal exactly when it is empty. */
  lemma PawnStep(s: State, pos1: Position, pos2: Position)
    requires Movable(s, pos1) && Mover(s, pos1).pieceType == "P"
    requires Mover(s, pos1).player.direction == FileDirection(pos1, pos2)
    requires Abs(pos1.x - pos2.x) == 1 && pos1.y == pos2.y
    ensures MoveOutcome(s, pos1, pos2) ==
              if Cell(s.spaces, pos2).None? then Some(SwapState(s, pos1, pos2, "move")) else None
  {
  }

  /** One square diagonally ahead onto an occupied square is a capture of
      any piece, the mover's own included; the captured piece is not removed
      but moved to the pawn's origin square. */
  lemma PawnTakes(s: State, pos1: Position, pos2: Position)
    requires Movable(s, pos1) && Mover(s, pos1).pieceType == "P"
    requires Mover(s, pos1).player.direction == FileDirection(pos1, pos2)
    requires Abs(pos1.x - pos2.x) == 1 && Abs(pos1.y - pos2.y) == 1
    requires Cell(s.spaces, pos2).Some?
    ensures MoveOutcome(s, pos1, pos2) == Some(SwapState(s, pos1, pos2, "take"))
    ensures Cell(MoveOutcome(s, pos1, pos2).value.spaces, pos1) == Cell(s.spaces, pos2)
  {
  }

  /** En passant: a diagonal step onto an empty square is legal when the
      square beside the pawn holds a pawn whose last move was a double
      step, and that pawn stays on the board. */
  lemma EnPassantKeepsPassedPawn(s: State, pos1: Position, pos2: Position)
    requires Movable(s, pos1) && Mover(s, pos1).pieceType == "P"
    requires Mover(s, pos1).player.direction == FileDirection(pos1, pos2)
    requires Abs(pos1.x - pos2.x) == 1 && Abs(pos1.y - pos2.y) == 1
    requires Cell(s.spaces, pos2).None?
    ensures var passed := Cell(s.spaces, EnPassantSquare(pos1, pos2));
            MoveOutcome(s, pos1, pos2).Some? <==>
              passed.Some? && s.pieces[passed.value].pieceType == "P" &&
              LastMove(s.pieces[passed.value]) == "double"
    ensures MoveOutcome(s, pos1, pos2).Some? ==>
              var t := MoveOutcome(s, pos1, pos2).value;
              t == SwapState(s, pos1, pos2, "En passant") &&
              Cell(t.spaces, EnPassantSquare(pos1, pos2)) == Cell(s.spaces, EnPassantSquare(pos1, pos2))
  {
    assert MoveOutcome(s, pos1, pos2) == PawnMove(s, pos1, pos2);
    assert NextTo(pos1, pos2) && OrientatedTo(pos1, pos2) == "diagonal";
    assert EnPassantSquare(pos1, pos2) != pos1 && EnPassantSquare(pos1, pos2) != pos2;
  }

  /** An unmoved pawn may go two squares straight ahead when the square it
      passes is empty; the destination itself is not examined. */
  lemma DoubleStep(s: State, pos1: Position, pos2: Position)
    requires Movable(s, pos1) && Mover(s, pos1).pieceType == "P" && Mover(s, pos1).moves == []
    requires Mover(s, pos1).player.direction == FileDirection(pos1, pos2)
    requires Abs(pos1.x - pos2.x) == 2 && pos1.y == pos2.y
    ensures MoveOutcome(s, pos1, pos2) ==
              if Cell(s.spaces, Position((pos1.x + pos2.x) / 2, pos1.y)).None?
              then Some(SwapState(s, pos1, pos2, "double")) else None
  {
    assert MoveOutcome(s, pos1, pos2) == PawnMove(s, pos1, pos2);
    assert !NextTo(pos1, pos2) && OrientatedTo(pos1, pos2) == "file";
    assert ClearFile(s.spaces, pos1, pos2) <==> s.spaces[(pos1.x + pos2.x) / 2][pos1.y].None?;
  }

  /** The converse of the pawn lemmas: every legal pawn move is one square
      straight ahead onto an empty square, one square diagonally ahead onto
      an occupied square or past a pawn whose last move was a double step,
      or, for an unmoved pawn, two squares straight ahead over an empty
      square. */
  lemma PawnCases(s: State, pos1: Position, pos2: Position)
    requires Movable(s, pos1) && Mover(s, pos1).pieceType == "P"
    requires MoveOutcome(s, pos1, pos2).Some?
    ensures Mover(s, pos1).player.direction == FileDirection(pos1, pos2)
    ensures var passed := Cell(s.spaces, EnPassantSquare(pos1, pos2));
            (Abs(pos1.x - pos2.x) == 1 && pos1.y == pos2.y && Cell(s.spaces, pos2).None?) ||
            (Abs(pos1.x - pos2.x) == 1 && Abs(pos1.y - pos2.y) == 1 &&
             (Cell(s.spaces, pos2).Some? ||
              (passed.Some? && s.pieces[passed.value].pieceType == "P" &&
               LastMove(s.pieces[passed.value]) == "double"))) ||
            (Abs(pos1.x - pos2.x) == 2 && pos1.y == pos2.y && Mover(s, pos1).moves == [] &&
             Cell(s.spaces, Position((pos1.x + pos2.x) / 2, pos1.y)).None?)
  {
    assert MoveOutcome(s, pos1, pos2) == PawnMove(s, pos1, pos2);
    if !NextTo(pos1, pos2) {
      assert ClearFile(s.spaces, pos1, pos2) ==> s.spaces[(pos1.x + pos2.x) / 2][pos1.y].None?;
    }
  }

  /** A pawn that has moved before can only step to a neighbouring square. */
  lemma MovedPawnSteps(s: State, pos1: Position, pos2: Position)
    requires Movable(s, pos1) && Mover(s, pos1).pieceType == "P" && Mover(s, pos1).moves != []
    requires !NextTo(pos1, pos2)
    ensures MoveOutcome(s, pos1, pos2).None?
  {
  }

  /** In the opening position White's pawn e2-e4 is a legal double step. */
  lemma OpeningDoubleStep(s: State)
    requires StandardPosition(s)
    ensures Movable(s, Position(6, 4))
    ensures MoveOutcome(s, Position(6, 4), Position(4, 4)).Some?
    ensures var t, pawn := MoveOutcome(s, Position(6, 4), Position(4, 4)).value, Cell(s.spaces, Position(6, 4));
            Cell(t.spaces, Position(4, 4)) == pawn && Cell(t.spaces, Position(6, 4)).None? &&
            LastMove(t.pieces[pawn.value]) == "double"
  {
    var e2, e3, e4 := Position(6, 4), Position(5, 4), Position(4, 4);
    assert Cell(s.spaces, e2).Some? && Cell(s.spaces, e3).None? && Cell(s.spaces, e4).None?;
    DoubleStep(s, e2, e4);
  }

  /** In the opening position the knight g1 can jump over its pawns to f3,
      while the bishop c1 is shut in by the pawn on d2. */
  lemma OpeningKnightAndBishop(s: State)
    requires StandardPosition(s)
    ensures Movable(s, Position(7, 6)) && MoveOutcome(s, Position(7, 6), Position(5, 5)).Some?
    ensures Movable(s, Position(7, 2)) && MoveOutcome(s, Position(7, 2), Position(5, 4)).None?
  {
    var g1, f3, c1, d2, e3 := Position(7, 6), Position(5, 5), Position(7, 2), Position(6, 3), Position(5, 4);
    assert Cell(s.spaces, g1).Some? && Cell(s.spaces, c1).Some? && Cell(s.spaces, d2).Some?;
    assert BackRank[6] == "N" && BackRank[2] == "B";
    KnightJumps(s, g1, f3);
    assert DiagonalStep(c1, e3, 1) == d2;
    BishopSlides(s, c1, e3);
  }

  /** A rook moved onto its own square is a legal move: the board stays the
      same and the rook records "rank". */
  lemma RookStandsStill(s: State, pos1: Position)
    requires Movable(s, pos1) && Mover(s, pos1).pieceType == "R"
    ensures MoveOutcome(s, pos1, pos1).Some?
    ensures MoveOutcome(s, pos1, pos1).value.spaces == s.spaces
    ensures MoveOutcome(s, pos1, pos1).value.pieces[Cell(s.spaces, pos1).value] == Record(Mover(s, pos1), "rank")
  {
    var t := MoveOutcome(s, pos1, pos1).value;
    forall x | 0 <= x < 8
      ensures t.spaces[x] == s.spaces[x]
    {
      forall y | 0 <= y < 8
        ensures t.spaces[x][y] == s.spaces[x][y]
      {
        assert Cell(t.spaces, Position(x, y)) == Cell(s.spaces, Position(x, y));
      }
    }
  }
}
