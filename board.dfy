/** The board (board.go): coordinate parsing, the grid held in place by a
    class, the path checks, the two mutation primitives and the standard
    starting position. */
module Boards {
  import opened Wrappers
  import opened Geometry
  import opened Pieces
  import opened Grids

  /** The only error of this layer: a malformed coordinate, carrying the text. */
  datatype Error = BadPosition(pos: seq<Byte>)

  /** A coordinate is two bytes, a letter `a`-`h` then a digit `1`-`8`. */
  predicate IsSquare(s: seq<Byte>)
  {
    |s| == 2 && 'a' as int <= s[0] <= 'h' as int && '1' as int <= s[1] <= '8' as int
  }

  /** The position a well-formed coordinate names. */
  function SquareOf(s: seq<Byte>): Position
    requires IsSquare(s)
  {
    Position(7 - (s[1] - '1' as int), s[0] - 'a' as int)
  }

  /** Parses algebraic notation: the letter gives the column, the digit the
      row counted from rank 8. The subtractions are on bytes, so characters
      below `a` or `1` wrap round to large values and are refused as well. */
  function ToXY(s: seq<Byte>): (r: Result<Position, Error>)
    ensures r.Ok? <==> IsSquare(s)
    ensures r.Err? ==> r.error == BadPosition(s)
    ensures r.Ok? ==> r.value == SquareOf(s)
  {
    if |s| != 2 then Err(BadPosition(s))
    else
      var rank := ByteSub(s[0], 'a' as int);
      var file := ByteSub(7, ByteSub(s[1], '1' as int));
      if rank < 0 || rank >= 8 then Err(BadPosition(s))
      else if file < 0 || file >= 8 then Err(BadPosition(s))
      else Ok(Position(file, rank))
  }

  /** The two-character name of a square, the inverse of ToXY. */
  function Algebraic(p: Position): (s: seq<Byte>)
    ensures IsSquare(s)
  {
    [p.y + 'a' as int, 7 - p.x + '1' as int]
  }

  lemma ToXYRoundTrip(p: Position)
    ensures ToXY(Algebraic(p)) == Ok(p)
  {
  }

  lemma AlgebraicRoundTrip(s: seq<Byte>)
    requires ToXY(s).Ok?
    ensures Algebraic(ToXY(s).value) == s
  {
    assert Algebraic(ToXY(s).value) == [s[0], s[1]];
  }

  /** Distinct square names never parse to the same position. */
  lemma ToXYInjective(s: seq<Byte>, t: seq<Byte>)
    requires ToXY(s).Ok? && ToXY(t).Ok?
    requires ToXY(s).value == ToXY(t).value
    ensures s == t
  {
    AlgebraicRoundTrip(s);
    AlgebraicRoundTrip(t);
  }

  /** The bytes of a two-character square name written with characters. */
  function Square(file: char, rank: char): (s: seq<Byte>)
    requires file as int < 256 && rank as int < 256
    ensures |s| == 2 && s[0] == file as int && s[1] == rank as int
  {
    [file as int, rank as int]
  }

  class Board {
    var size: Byte
    var spaces: Grid
    var pieces: seq<Piece>
    var players: seq<Player>

    /** The grid and the piece table, as one value. */
    ghost function Snapshot(): State
      reads this
    {
      State(spaces, pieces)
    }

    ghost predicate Valid()
      reads this
    {
      size == 8 && |players| == 2 && ValidState(Snapshot())
    }

    /** An empty board for two players. */
    constructor (p1: Player, p2: Player)
      ensures Valid()
      ensures players == [p1, p2] && spaces == EmptyGrid() && pieces == []
    {
      size := 8;
      spaces := EmptyGrid();
      pieces := [];
      players := [p1, p2];
    }

    /** The largest row or column index. */
    function GetMaxPos(): (m: Byte)
      reads this
      requires Valid()
      ensures m + 1 == |spaces|
      ensures forall p: Position :: p.x <= m && p.y <= m
    {
      ByteSub(size, 1)
    }

    function GetPiece(pos: Position): (r: Option<PieceId>)
      reads this
      requires Valid()
      ensures r == Cell(spaces, pos)
      ensures r.Some? ==> r.value < |pieces|
    {
      spaces[pos.x][pos.y]
    }

    /** The occupant named by a coordinate. The parse error is dropped, so a
        malformed coordinate reads the square at row 0, column 0. */
    function GetPieceByString(pos: seq<Byte>): (r: Option<PieceId>)
      reads this
      requires Valid()
      ensures IsSquare(pos) ==> r == Cell(spaces, ToXY(pos).value)
      ensures !IsSquare(pos) ==> r == Cell(spaces, Position(0, 0))
    {
      var (x, y) := match ToXY(pos)
        case Ok(p) => (p.x, p.y)
        case Err(_) => (0, 0);
      GetPiece(Position(x, y))
    }

    /** True iff the column squares strictly between the two rows are empty. */
    method CheckEmptySpacesFile(pos1: Position, pos2: Position) returns (r: bool)
      requires WellFormed(spaces)
      ensures r == ClearFile(spaces, pos1, pos2)
    {
      var y := pos1.y;
      var xStart: int, xEnd: int := pos1.x, pos2.x;
      if xStart > xEnd {
        xStart, xEnd := xEnd, xStart;
      }
      var x := xStart + 1;
      while x < xEnd
        invariant xStart + 1 <= x && (x <= xEnd || x == xStart + 1)
        invariant forall x' :: xStart < x' < x ==> spaces[x'][y].None?
      {
        if spaces[x][y].Some? {
          return false;
        }
        x := x + 1;
      }
      return true;
    }

    /** True iff the row squares strictly between the two columns are empty. */
    method CheckEmptySpacesRank(pos1: Position, pos2: Position) returns (r: bool)
      requires WellFormed(spaces)
      ensures r == ClearRank(spaces, pos1, pos2)
    {
      var x := pos1.x;
      var yStart: int, yEnd: int := pos1.y, pos2.y;
      if yStart > yEnd {
        yStart, yEnd := yEnd, yStart;
      }
      var y := yStart + 1;
      while y < yEnd
        invariant yStart + 1 <= y && (y <= yEnd || y == yStart + 1)
        invariant forall y' :: yStart < y' < y ==> spaces[x][y'].None?
      {
        if spaces[x][y].Some? {
          return false;
        }
        y := y + 1;
      }
      return true;
    }

    /** True iff the squares strictly between two squares on one diagonal are
        empty; every square it reads lies on the board. The direction of the
        walk is chosen from the relative position of the two squares. */
    method CheckEmptySpacesDiagonal(pos1: Position, pos2: Position) returns (r: bool)
      requires WellFormed(spaces)
      requires Abs(pos1.x - pos2.x) == Abs(pos1.y - pos2.y)
      ensures r == ClearDiagonal(spaces, pos1, pos2)
    {
      var xStart, xEnd := pos1.x, pos2.x;
      var yStart, yEnd := pos1.y, pos2.y;
      if yStart > yEnd {
        if xStart > xEnd {
          r := ScanDiagonal(pos1, pos2, -1, -1);
        } else {
          r := ScanDiagonal(pos1, pos2, 1, -1);
        }
      } else {
        if xStart > xEnd {
          r := ScanDiagonal(pos1, pos2, -1, 1);
        } else {
          r := ScanDiagonal(pos1, pos2, 1, 1);
        }
      }
    }

    /** The walk of CheckEmptySpacesDiagonal: one step of `dx` rows and `dy`
        columns at a time from `pos1`, stopping when the column of `pos2` is
        reached, and failing at the first occupied square. */
    method ScanDiagonal(pos1: Position, pos2: Position, dx: int, dy: int) returns (r: bool)
      requires WellFormed(spaces)
      requires Abs(pos1.x - pos2.x) == Abs(pos1.y - pos2.y)
      requires dx == (if pos1.x > pos2.x then -1 else 1)
      requires dy == (if pos1.y > pos2.y then -1 else 1)
      ensures r == ClearDiagonal(spaces, pos1, pos2)
    {
      var x, y := pos1.x + dx, pos1.y + dy;
      ghost var k := 1;
      while if dy < 0 then y > pos2.y else y < pos2.y
        invariant 1 <= k && (k <= Abs(pos1.y - pos2.y) || k == 1)
        invariant x == pos1.x + (if dx < 0 then -k else k)
        invariant y == pos1.y + (if dy < 0 then -k else k)
        invariant forall j :: 0 < j < k ==> Cell(spaces, DiagonalStep(pos1, pos2, j)).None?
        decreases Abs(pos1.y - pos2.y) - k
      {
        if spaces[x][y].Some? {
          assert Position(x, y) == DiagonalStep(pos1, pos2, k);
          return false;
        }
        x, y, k := x + dx, y + dy, k + 1;
      }
      return true;
    }

    /** Records `move` on the piece at `pos1` (when there is one and the tag
        is not empty), then exchanges the two cells. */
    method Swap(pos1: Position, pos2: Position, move: string)
      requires Valid()
      modifies this
      ensures Valid() && size == old(size) && players == old(players)
      ensures Snapshot() == SwapState(old(Snapshot()), pos1, pos2, move)
    {
      ghost var target := SwapState(Snapshot(), pos1, pos2, move);
      var piece := GetPiece(pos1);
      if piece.Some? && move != "" {
        pieces := pieces[piece.value := Record(pieces[piece.value], move)];
      }
      assert pieces == target.pieces;
      var c1, c2 := spaces[pos1.x][pos1.y], spaces[pos2.x][pos2.y];
      spaces := spaces[pos2.x := spaces[pos2.x][pos2.y := c1]];
      assert spaces == SetCell(old(spaces), pos2, c1);
      spaces := spaces[pos1.x := spaces[pos1.x][pos1.y := c2]];
      assert spaces == target.spaces;
    }

    /** Puts a new piece of type `piece` for `player` on the named square
        (clearing it for an unknown type); a malformed square is an error and
        changes nothing. */
    method AssignSpace(pos: seq<Byte>, piece: string, player: Player) returns (err: Option<Error>)
      requires Valid()
      modifies this
      ensures Valid() && size == old(size) && players == old(players)
      ensures !IsSquare(pos) ==> err == Some(BadPosition(pos)) && Snapshot() == old(Snapshot())
      ensures IsSquare(pos) ==>
                err == None && Snapshot() == AssignState(old(Snapshot()), SquareOf(pos), NewPiece(piece, player))
      ensures IsSquare(pos) ==>
                var p, np := SquareOf(pos), NewPiece(piece, player);
                spaces[p.x] == old(spaces)[p.x][p.y := if np.Some? then Some(|old(pieces)|) else None] &&
                pieces == old(pieces) + (if np.Some? then [np.value] else [])
      ensures forall x :: 0 <= x < 8 && !(IsSquare(pos) && x == SquareOf(pos).x) ==> spaces[x] == old(spaces)[x]
    {
      var xy := ToXY(pos);
      if xy.Err? {
        return Some(xy.error);
      }
      var np := NewPiece(piece, player);
      var cell := None;
      if np.Some? {
        cell := Some(|pieces|);
        pieces := pieces + [np.value];
      }
      spaces := spaces[xy.value.x := spaces[xy.value.x][xy.value.y := cell]];
      assert Snapshot() == AssignState(old(Snapshot()), xy.value, np);
      return None;
    }
  }

  /** The standard starting position for White (moving north, towards row 0)
      and Black (moving south). The 32 placements are made row by row; their
      errors are ignored, as none of the 32 squares is malformed. */
  method FilledBoard() returns (b: Board)
    ensures fresh(b) && b.Valid()
    ensures b.players == [White, Black]
    ensures b.spaces == SetupGrid() && b.pieces == SetupPieces()
    ensures StandardPosition(b.Snapshot())
  {
    var p1 := Player("W", "N");
    var p2 := Player("B", "S");
    b := new Board(p1, p2);
    PlaceBackRow(b, '1', p1);
    PlacePawnRow(b, '2', p1);
    PlaceBackRow(b, '8', p2);
    PlacePawnRow(b, '7', p2);
    assert b.spaces == SetupGrid();
    SetupIsStandard();
  }

  /** One AssignSpace call of the setup: a new piece of a known type on a
      well-formed square. */
  method Place(b: Board, file: char, rank: char, pieceType: string, player: Player)
    requires b.Valid() && 'a' <= file <= 'h' && '1' <= rank <= '8' && pieceType in PieceNames
    modifies b
    ensures b.Valid() && b.players == old(b.players)
    ensures var x, y := 7 - (rank as int - '1' as int), file as int - 'a' as int;
            b.spaces == old(b.spaces)[x := old(b.spaces)[x][y := Some(|old(b.pieces)|)]]
    ensures b.pieces == old(b.pieces) + [Piece(player, pieceType, [])]
  {
    var err := b.AssignSpace(Square(file, rank), pieceType, player);
    ghost var x := 7 - (rank as int - '1' as int);
    assert forall i :: 0 <= i < 8 && i != x ==> b.spaces[i] == old(b.spaces)[i];
  }

  /** The eight AssignSpace calls for a back row: R, N, B, Q, K, B, N, R from
      file a to file h of the given rank. */
  method PlaceBackRow(b: Board, rank: char, player: Player)
    requires b.Valid() && '1' <= rank <= '8'
    modifies b
    ensures b.Valid() && b.players == old(b.players)
    ensures var x, n := 7 - (rank as int - '1' as int), |old(b.pieces)|;
            b.spaces == old(b.spaces)[x := [Some(n), Some(n + 1), Some(n + 2), Some(n + 3),
                                            Some(n + 4), Some(n + 5), Some(n + 6), Some(n + 7)]]
    ensures b.pieces == old(b.pieces) + BackRow(player)
  {
    Place(b, 'a', rank, "R", player);
    Place(b, 'b', rank, "N", player);
    Place(b, 'c', rank, "B", player);
    Place(b, 'd', rank, "Q", player);
    Place(b, 'e', rank, "K", player);
    Place(b, 'f', rank, "B", player);
    Place(b, 'g', rank, "N", player);
    Place(b, 'h', rank, "R", player);
    ghost var x, n := 7 - (rank as int - '1' as int), |old(b.pieces)|;
    assert b.spaces[x] == [Some(n), Some(n + 1), Some(n + 2), Some(n + 3),
                           Some(n + 4), Some(n + 5), Some(n + 6), Some(n + 7)];
  }

  /** The eight AssignSpace calls for a row of pawns on the given rank. */
  method PlacePawnRow(b: Board, rank: char, player: Player)
    requires b.Valid() && '1' <= rank <= '8'
    modifies b
    ensures b.Valid() && b.players == old(b.players)
    ensures var x, n := 7 - (rank as int - '1' as int), |old(b.pieces)|;
            b.spaces == old(b.spaces)[x := [Some(n), Some(n + 1), Some(n + 2), Some(n + 3),
                                            Some(n + 4), Some(n + 5), Some(n + 6), Some(n + 7)]]
    ensures b.pieces == old(b.pieces) + PawnRow(player)
  {
    Place(b, 'a', rank, "P", player);
    Place(b, 'b', rank, "P", player);
    Place(b, 'c', rank, "P", player);
    Place(b, 'd', rank, "P", player);
    Place(b, 'e', rank, "P", player);
    Place(b, 'f', rank, "P", player);
    Place(b, 'g', rank, "P", player);
    Place(b, 'h', rank, "P", player);
    ghost var x, n := 7 - (rank as int - '1' as int), |old(b.pieces)|;
    assert b.spaces[x] == [Some(n), Some(n + 1), Some(n + 2), Some(n + 3),
                           Some(n + 4), Some(n + 5), Some(n + 6), Some(n + 7)];
  }

  /** Back row contents by column, from file a to file h. */
  const BackRank: seq<string> := ["R", "N", "B", "Q", "K", "B", "N", "R"]

  /** Black on rows 0 and 1 (its back row on row 0), White on rows 6 and 7
      (its back row on row 7), rows 2 to 5 empty, and no piece has moved. */
  ghost predicate StandardPosition(s: State)
  {
    ValidState(s) &&
    forall p: Position ::
      (Cell(s.spaces, p).None? <==> 2 <= p.x <= 5) &&
      (Cell(s.spaces, p).Some? ==>
         var piece := s.pieces[Cell(s.spaces, p).value];
         piece.moves == [] &&
         piece.player == (if p.x < 2 then Black else White) &&
         piece.pieceType == (if p.x == 0 || p.x == 7 then BackRank[p.y] else "P"))
  }

  /** The grid FilledBoard builds: pieces are numbered in the order they are
      placed, White's back row first. */
  function SetupGrid(): Grid
  {
    [ [Some(16), Some(17), Some(18), Some(19), Some(20), Some(21), Some(22), Some(23)],
      [Some(24), Some(25), Some(26), Some(27), Some(28), Some(29), Some(30), Some(31)],
      [None, None, None, None, None, None, None, None],
      [None, None, None, None, None, None, None, None],
      [None, None, None, None, None, None, None, None],
      [None, None, None, None, None, None, None, None],
      [Some(8), Some(9), Some(10), Some(11), Some(12), Some(13), Some(14), Some(15)],
      [Some(0), Some(1), Some(2), Some(3), Some(4), Some(5), Some(6), Some(7)] ]
  }

  /** The pieces of a back row, from file a to file h. */
  function BackRow(p: Player): seq<Piece>
  {
    seq(8, k requires 0 <= k < 8 => Piece(p, BackRank[k], []))
  }

  function PawnRow(p: Player): seq<Piece>
  {
    seq(8, k => Piece(p, "P", []))
  }

  /** The piece table FilledBoard builds, in placement order. */
  function SetupPieces(): seq<Piece>
  {
    BackRow(White) + PawnRow(White) + BackRow(Black) + PawnRow(Black)
  }

  /** Where FilledBoard puts piece number `id`: White's back row is 0..7,
      its pawns 8..15, Black's back row 16..23 and its pawns 24..31. */
  lemma SetupCell(p: Position)
    ensures WellFormed(SetupGrid())
    ensures Cell(SetupGrid(), p) == if 2 <= p.x <= 5 then None
                                    else if p.x == 7 then Some(p.y) else if p.x == 6 then Some(8 + p.y)
                                    else if p.x == 0 then Some(16 + p.y) else Some(24 + p.y)
  {
    var g := SetupGrid();
    assert g[p.x] == SetupGrid()[p.x];
  }

  /** Piece number `i` of the starting table: White's then Black's, each a
      back row followed by a row of pawns. */
  lemma SetupPiece(i: nat)
    requires i < 32
    ensures |SetupPieces()| == 32
    ensures SetupPieces()[i] ==
              if i < 8 then Piece(White, BackRank[i], [])
              else if i < 16 then Piece(White, "P", [])
              else if i < 24 then Piece(Black, BackRank[i - 16], [])
              else Piece(Black, "P", [])
  {
    if i < 8 {
      assert SetupPieces()[i] == BackRow(White)[i];
    } else if i < 16 {
      assert SetupPieces()[i] == PawnRow(White)[i - 8];
    } else if i < 24 {
      assert SetupPieces()[i] == BackRow(Black)[i - 16];
    } else {
      assert SetupPieces()[i] == PawnRow(Black)[i - 24];
    }
  }

  /** No piece stands on two squares of the starting grid. */
  lemma SetupOnePlace()
    ensures WellFormed(SetupGrid()) && OnePlace(SetupGrid())
  {
    var g := SetupGrid();
    SetupCell(Position(0, 0));
    forall p: Position, q: Position | Cell(g, p).Some? && Cell(g, p) == Cell(g, q)
      ensures p == q
    {
      SetupCell(p);
      SetupCell(q);
    }
  }

  lemma SetupIsStandard()
    ensures StandardPosition(State(SetupGrid(), SetupPieces()))
  {
    var g, ps := SetupGrid(), SetupPieces();
    SetupOnePlace();
    SetupPiece(0);
    forall p: Position
      ensures (Cell(g, p).None? <==> 2 <= p.x <= 5)
      ensures Cell(g, p).Some? ==>
                Cell(g, p).value < |ps| &&
                var piece := ps[Cell(g, p).value];
                piece.moves == [] &&
                piece.player == (if p.x < 2 then Black else White) &&
                piece.pieceType == (if p.x == 0 || p.x == 7 then BackRank[p.y] else "P")
    {
      SetupCell(p);
      if Cell(g, p).Some? {
        SetupPiece(Cell(g, p).value);
      }
    }
  }
}
