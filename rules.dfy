/** The move rules (piece.go) and the move entry point (board.go). Each rule
    decides legality from the state before the move and, only when the move
    is legal, changes the board through one or two swaps. The rules are
    stated as functions on board states; Move carries them out in place on a
    Board, and the lemmas state what the rules allow and what they change. */
module Rules {
  import opened Wrappers
  import opened Geometry
  import opened Pieces
  import opened Grids
  import opened Boards

  /** Placeholder for check detection: no king is ever in check. */
  function InCheck(s: State, pos: Position): (r: bool)
    ensures !r
  {
    false
  }

  /** A legal move can start at `pos1`: it holds a piece. */
  ghost predicate Movable(s: State, pos1: Position)
  {
    ValidState(s) && Cell(s.spaces, pos1).Some?
  }

  ghost function Mover(s: State, pos1: Position): Piece
    requires Movable(s, pos1)
  {
    s.pieces[Cell(s.spaces, pos1).value]
  }

  /** Pieces keep their owner and type, histories only grow, and the table
      keeps its size. */
  ghost predicate SamePieces(s: State, t: State)
  {
    |t.pieces| == |s.pieces| &&
    forall i :: 0 <= i < |s.pieces| ==>
      t.pieces[i].player == s.pieces[i].player &&
      t.pieces[i].pieceType == s.pieces[i].pieceType &&
      s.pieces[i].moves <= t.pieces[i].moves
  }

  /** A legal outcome is a valid state with the same occupants and the same
      pieces, histories possibly longer. */
  ghost predicate Conserves(s: State, r: Option<State>)
  {
    r.Some? ==>
      ValidState(r.value) &&
      Occupants(r.value.spaces) == Occupants(s.spaces) &&
      SamePieces(s, r.value)
  }

  /** A swap conserves the state. */
  lemma SwapConserves(s: State, pos1: Position, pos2: Position, tag: string)
    requires ValidState(s)
    ensures Conserves(s, Some(SwapState(s, pos1, pos2, tag)))
  {
    var t := SwapState(s, pos1, pos2, tag);
    forall i | 0 <= i < |s.pieces|
      ensures s.pieces[i].moves <= t.pieces[i].moves
    {
      if Cell(s.spaces, pos1) == Some(i) && tag != "" {
        assert t.pieces[i].moves[..|s.pieces[i].moves|] == s.pieces[i].moves;
      }
    }
  }

  /** Two steps that each conserve the state conserve it together. */
  lemma ConservesThrough(s: State, t: State, u: State)
    requires Conserves(s, Some(t)) && Conserves(t, Some(u))
    ensures Conserves(s, Some(u))
  {
    forall i | 0 <= i < |s.pieces|
      ensures s.pieces[i].moves <= u.pieces[i].moves
    {
      assert s.pieces[i].moves <= t.pieces[i].moves <= u.pieces[i].moves;
    }
  }

  /** The rook's square and the square it lands on when a king on `pos1`
      castles to `pos2`: the edge column on the side of the move, and the
      square next to `pos2` towards the king. */
  function CastleSquares(pos1: Position, pos2: Position): (c: (Position, Position))
    ensures pos1.y > pos2.y ==> c == (Position(pos1.x, 0), Position(pos1.x, pos2.y + 1))
    ensures pos1.y < pos2.y ==> c == (Position(pos1.x, 7), Position(pos1.x, pos2.y - 1))
  {
    match RankDirection(pos1, pos2)
    case "W" => (Position(pos1.x, 0), Position(pos1.x, pos2.y + 1))
    case "E" => (Position(pos1.x, 7), Position(pos1.x, pos2.y - 1))
    case _ => (Position(0, 0), Position(0, 0))
  }

  /** The square beside `pos1`, on its row, towards the column of `pos2`:
      where an en passant capture looks for the pawn it passes. */
  function EnPassantSquare(pos1: Position, pos2: Position): (q: Position)
    ensures pos1.y != pos2.y ==> q.x == pos1.x && Abs(q.y - pos1.y) == 1
    ensures pos1.y != pos2.y ==> Abs(q.y - pos2.y) == Abs(pos1.y - pos2.y) - 1
  {
    match RankDirection(pos1, pos2)
    case "W" => Position(pos1.x, pos1.y - 1)
    case "E" => Position(pos1.x, pos1.y + 1)
    case _ => Position(0, 0)
  }

  ghost function RookMove(s: State, pos1: Position, pos2: Position): (r: Option<State>)
    requires Movable(s, pos1)
    ensures Conserves(s, r)
  {
    match OrientatedTo(pos1, pos2)
    case "rank" => if ClearRank(s.spaces, pos1, pos2) then Some(SwapState(s, pos1, pos2, "rank")) else None
    case "file" => if ClearFile(s.spaces, pos1, pos2) then Some(SwapState(s, pos1, pos2, "file")) else None
    case _ => None
  }

  ghost function BishopMove(s: State, pos1: Position, pos2: Position): (r: Option<State>)
    requires Movable(s, pos1)
    ensures Conserves(s, r)
  {
    if OrientatedTo(pos1, pos2) == "diagonal" && ClearDiagonal(s.spaces, pos1, pos2) then
      Some(SwapState(s, pos1, pos2, "move"))
    else None
  }

  ghost function KnightMove(s: State, pos1: Position, pos2: Position): (r: Option<State>)
    requires Movable(s, pos1)
    ensures Conserves(s, r)
  {
    var (xDistance, yDistance) := GetDistances(pos1, pos2);
    if (xDistance == 1 && yDistance == 2) || (yDistance == 1 && xDistance == 2) then
      Some(SwapState(s, pos1, pos2, "move"))
    else None
  }

  /** A step to a neighbouring square, or castling. */
  ghost function KingMove(s: State, pos1: Position, pos2: Position): (r: Option<State>)
    requires Movable(s, pos1)
    ensures Conserves(s, r)
  {
    if NextTo(pos1, pos2) then Some(SwapState(s, pos1, pos2, "move"))
    else if |Mover(s, pos1).moves| == 0 && !InCheck(s, pos1) then
      var (xDistance, yDistance) := GetDistances(pos1, pos2);
      if yDistance == 2 && xDistance == 0 then Castle(s, pos1, pos2) else None
    else None
  }

  /** Castling, once the king is known to be unmoved and two columns away
      along its row: an unmoved rook on the edge square of that side, nothing
      between king and rook; then the king goes to `pos2` and the rook to the
      square beside it. */
  ghost function Castle(s: State, pos1: Position, pos2: Position): (r: Option<State>)
    requires ValidState(s)
    ensures Conserves(s, r)
  {
    var (castlePos1, castlePos2) := CastleSquares(pos1, pos2);
    var castle := Cell(s.spaces, castlePos1);
    var posDir := RankDirection(pos1, pos2);
    var castleDir := RankDirection(pos1, castlePos1);
    if castle.Some? &&
       s.pieces[castle.value].pieceType == "R" &&
       |s.pieces[castle.value].moves| == 0 &&
       OrientatedTo(pos1, castlePos1) == "rank" &&
       posDir == castleDir &&
       ClearRank(s.spaces, pos1, castlePos1)
    then
      var kingMoved := SwapState(s, pos1, pos2, "castle");
      var t := SwapState(kingMoved, castlePos1, castlePos2, "castle");
      SwapConserves(s, pos1, pos2, "castle");
      SwapConserves(kingMoved, castlePos1, castlePos2, "castle");
      ConservesThrough(s, kingMoved, t);
      Some(t)
    else None
  }

  /** Rook and bishop lines, with an empty tag, so the queen's history never
      changes. */
  ghost function QueenMove(s: State, pos1: Position, pos2: Position): (r: Option<State>)
    requires Movable(s, pos1)
    ensures Conserves(s, r)
  {
    match OrientatedTo(pos1, pos2)
    case "rank" => if ClearRank(s.spaces, pos1, pos2) then Some(SwapState(s, pos1, pos2, "")) else None
    case "file" => if ClearFile(s.spaces, pos1, pos2) then Some(SwapState(s, pos1, pos2, "")) else None
    case "diagonal" =>
      if ClearDiagonal(s.spaces, pos1, pos2) then Some(SwapState(s, pos1, pos2, "")) else None
    case _ => None
  }

  /** Forward in the owner's direction: one square straight onto an empty
      square, one square diagonally onto an occupied square or past a pawn
      whose last move was a double step, or, unmoved, two squares straight
      with the square between empty. */
  ghost function PawnMove(s: State, pos1: Position, pos2: Position): (r: Option<State>)
    requires Movable(s, pos1)
    ensures Conserves(s, r)
  {
    var piece2 := Cell(s.spaces, pos2);
    if Mover(s, pos1).player.direction == FileDirection(pos1, pos2) then
      if NextTo(pos1, pos2) then
        match OrientatedTo(pos1, pos2)
        case "file" =>
          if piece2.None? then
            SwapConserves(s, pos1, pos2, "move");
            Some(SwapState(s, pos1, pos2, "move"))
          else None
        case "diagonal" =>
          if piece2.Some? then
            SwapConserves(s, pos1, pos2, "take");
            Some(SwapState(s, pos1, pos2, "take"))
          else
            var piece3 := Cell(s.spaces, EnPassantSquare(pos1, pos2));
            if piece3.Some? && s.pieces[piece3.value].pieceType == "P" &&
               LastMove(s.pieces[piece3.value]) == "double"
            then
              SwapConserves(s, pos1, pos2, "En passant");
              Some(SwapState(s, pos1, pos2, "En passant"))
            else None
        case _ => None
      else if |Mover(s, pos1).moves| == 0 then
        if OrientatedTo(pos1, pos2) == "file" then
          var (xDistance, _) := GetDistances(pos1, pos2);
          if xDistance == 2 && ClearFile(s.spaces, pos1, pos2) then
            SwapConserves(s, pos1, pos2, "double");
            Some(SwapState(s, pos1, pos2, "double"))
          else None
        else None
      else None
    else None
  }

  /** The outcome of moving the piece on `pos1` to `pos2`: the new state when
      the move is legal, nothing when it is not. A legal move only permutes
      the cells and appends to histories. */
  ghost function MoveOutcome(s: State, pos1: Position, pos2: Position): (r: Option<State>)
    requires Movable(s, pos1)
    ensures Conserves(s, r)
  {
    match Mover(s, pos1).pieceType
    case "R" => RookMove(s, pos1, pos2)
    case "B" => BishopMove(s, pos1, pos2)
    case "N" => KnightMove(s, pos1, pos2)
    case "K" => KingMove(s, pos1, pos2)
    case "Q" => QueenMove(s, pos1, pos2)
    case "P" => PawnMove(s, pos1, pos2)
    case _ => None
  }

  /** Piece.move: decides legality and, only for a legal move, swaps the
      cells on the board (recording the move on the moving piece). */
  method Move(b: Board, pos1: Position, pos2: Position) returns (moved: bool)
    requires b.Valid() && Cell(b.spaces, pos1).Some?
    modifies b
    ensures b.Valid() && b.players == old(b.players)
    ensures moved == MoveOutcome(old(b.Snapshot()), pos1, pos2).Some?
    ensures b.Snapshot() == if moved then MoveOutcome(old(b.Snapshot()), pos1, pos2).value else old(b.Snapshot())
  {
    var p := b.pieces[b.GetPiece(pos1).value];
    var piece2 := b.GetPiece(pos2);
    match p.pieceType {
      case "R" =>
        match OrientatedTo(pos1, pos2) {
          case "rank" =>
            var empty := b.CheckEmptySpacesRank(pos1, pos2);
            if empty {
              b.Swap(pos1, pos2, "rank");
              return true;
            }
          case "file" =>
            var empty := b.CheckEmptySpacesFile(pos1, pos2);
            if empty {
              b.Swap(pos1, pos2, "file");
              return true;
            }
          case _ =>
        }
      case "B" =>
        if OrientatedTo(pos1, pos2) == "diagonal" {
          var empty := b.CheckEmptySpacesDiagonal(pos1, pos2);
          if empty {
            b.Swap(pos1, pos2, "move");
            return true;
          }
        }
      case "N" =>
        var (xDistance, yDistance) := GetDistances(pos1, pos2);
        if (xDistance == 1 && yDistance == 2) || (yDistance == 1 && xDistance == 2) {
          b.Swap(pos1, pos2, "move");
          return true;
        }
      case "K" =>
        moved := MoveKing(b, pos1, pos2);
        return;
      case "Q" =>
        match OrientatedTo(pos1, pos2) {
          case "rank" =>
            var empty := b.CheckEmptySpacesRank(pos1, pos2);
            if empty {
              b.Swap(pos1, pos2, "");
              return true;
            }
          case "file" =>
            var empty := b.CheckEmptySpacesFile(pos1, pos2);
            if empty {
              b.Swap(pos1, pos2, "");
              return true;
            }
          case "diagonal" =>
            var empty := b.CheckEmptySpacesDiagonal(pos1, pos2);
            if empty {
              b.Swap(pos1, pos2, "");
              return true;
            }
          case _ =>
        }
      case "P" =>
        moved := MovePawn(b, pos1, pos2);
        return;
      case _ =>
    }
    return false;
  }

  /** The king branch of Piece.move. */
  method MoveKing(b: Board, pos1: Position, pos2: Position) returns (moved: bool)
    requires b.Valid() && Cell(b.spaces, pos1).Some?
    requires b.pieces[Cell(b.spaces, pos1).value].pieceType == "K"
    modifies b
    ensures b.Valid() && b.players == old(b.players)
    ensures moved == KingMove(old(b.Snapshot()), pos1, pos2).Some?
    ensures b.Snapshot() == if moved then KingMove(old(b.Snapshot()), pos1, pos2).value else old(b.Snapshot())
  {
    var p := b.pieces[b.GetPiece(pos1).value];
    if NextTo(pos1, pos2) {
      b.Swap(pos1, pos2, "move");
      return true;
    } else if |p.moves| == 0 && !InCheck(State(b.spaces, b.pieces), pos1) {
      var (xDistance, yDistance) := GetDistances(pos1, pos2);
      if yDistance == 2 && xDistance == 0 {
        var (castlePos1, castlePos2) := CastleSquares(pos1, pos2);
        var castle := b.GetPiece(castlePos1);
        var posDir := RankDirection(pos1, pos2);
        var castleDir := RankDirection(pos1, castlePos1);
        if castle.Some? && b.pieces[castle.value].pieceType == "R" && |b.pieces[castle.value].moves| == 0 &&
           OrientatedTo(pos1, castlePos1) == "rank" && posDir == castleDir {
          var empty := b.CheckEmptySpacesRank(pos1, castlePos1);
          if empty {
            b.Swap(pos1, pos2, "castle");
            b.Swap(castlePos1, castlePos2, "castle");
            return true;
          }
        }
      }
    }
    return false;
  }

  /** The pawn branch of Piece.move. */
  method MovePawn(b: Board, pos1: Position, pos2: Position) returns (moved: bool)
    requires b.Valid() && Cell(b.spaces, pos1).Some?
    modifies b
    ensures b.Valid() && b.players == old(b.players)
    ensures moved == PawnMove(old(b.Snapshot()), pos1, pos2).Some?
    ensures b.Snapshot() == if moved then PawnMove(old(b.Snapshot()), pos1, pos2).value else old(b.Snapshot())
  {
    var p := b.pieces[b.GetPiece(pos1).value];
    var piece2 := b.GetPiece(pos2);
    if p.player.direction == FileDirection(pos1, pos2) {
      if NextTo(pos1, pos2) {
        match OrientatedTo(pos1, pos2) {
          case "file" =>
            if piece2.None? {
              b.Swap(pos1, pos2, "move");
              return true;
            }
          case "diagonal" =>
            if piece2.Some? {
              b.Swap(pos1, pos2, "take");
              return true;
            }
            var pos3 := EnPassantSquare(pos1, pos2);
            var piece3 := b.GetPiece(pos3);
            if piece3.Some? {
              if b.pieces[piece3.value].pieceType == "P" && LastMove(b.pieces[piece3.value]) == "double" {
                b.Swap(pos1, pos2, "En passant");
                return true;
              }
            }
          case _ =>
        }
      } else if |p.moves| == 0 {
        if OrientatedTo(pos1, pos2) == "file" {
          var (xDistance, _) := GetDistances(pos1, pos2);
          if xDistance == 2 {
            var empty := b.CheckEmptySpacesFile(pos1, pos2);
            if empty {
              b.Swap(pos1, pos2, "double");
              return true;
            }
          }
        }
      }
    }
    return false;
  }

  /** Board.MovePiece: parses both coordinates (the first one first), then
      moves the piece on the first square if there is one. A legal move and
      an illegal one both report no error. */
  method MovePiece(b: Board, posString1: seq<Byte>, posString2: seq<Byte>) returns (err: Option<Error>)
    requires b.Valid()
    modifies b
    ensures b.Valid() && b.players == old(b.players)
    ensures !IsSquare(posString1) ==> err == Some(BadPosition(posString1)) && b.Snapshot() == old(b.Snapshot())
    ensures IsSquare(posString1) && !IsSquare(posString2) ==>
              err == Some(BadPosition(posString2)) && b.Snapshot() == old(b.Snapshot())
    ensures IsSquare(posString1) && IsSquare(posString2) ==>
              var pos1, pos2, s := SquareOf(posString1), SquareOf(posString2), old(b.Snapshot());
              err == None &&
              b.Snapshot() == if Cell(s.spaces, pos1).None? || MoveOutcome(s, pos1, pos2).None? then s
                              else MoveOutcome(s, pos1, pos2).value
  {
    var xy1 := ToXY(posString1);
    if xy1.Err? {
      return Some(xy1.error);
    }
    var pos1 := xy1.value;
    var xy2 := ToXY(posString2);
    if xy2.Err? {
      return Some(xy2.error);
    }
    var pos2 := xy2.value;
    var piece1 := b.GetPiece(pos1);
    if piece1.None? {
      return None;
    }
    var moved := Move(b, pos1, pos2);
    return None;
  }
}
