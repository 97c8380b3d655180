/** The board's state as a value: the 8×8 grid of optional piece references
    and the table of pieces those references point into (board.go). The
    class in module Boards holds this state in fields; the functions here say
    what each of its mutations does to it. */
module Grids {
  import opened Wrappers
  import opened Geometry
  import opened Pieces

  /** A piece's identity: its index in the piece table. */
  type PieceId = nat

  type Grid = seq<seq<Option<PieceId>>>

  datatype State = State(spaces: Grid, pieces: seq<Piece>)

  ghost predicate WellFormed(g: Grid)
  {
    |g| == 8 && forall x :: 0 <= x < 8 ==> |g[x]| == 8
  }

  function Cell(g: Grid, p: Position): Option<PieceId>
    requires WellFormed(g)
  {
    g[p.x][p.y]
  }

  /** Each piece stands on at most one cell. */
  ghost predicate OnePlace(g: Grid)
    requires WellFormed(g)
  {
    forall p: Position, q: Position :: Cell(g, p).Some? && Cell(g, p) == Cell(g, q) ==> p == q
  }

  /** Every occupant refers into the piece table, and no piece stands twice. */
  ghost predicate ValidState(s: State)
  {
    WellFormed(s.spaces) &&
    (forall p: Position :: Cell(s.spaces, p).Some? ==> Cell(s.spaces, p).value < |s.pieces|) &&
    OnePlace(s.spaces)
  }

  const EmptyRow: seq<Option<PieceId>> := [None, None, None, None, None, None, None, None]

  function EmptyGrid(): (g: Grid)
    ensures WellFormed(g)
    ensures forall p: Position :: Cell(g, p) == None
  {
    [EmptyRow, EmptyRow, EmptyRow, EmptyRow, EmptyRow, EmptyRow, EmptyRow, EmptyRow]
  }

  function SetCell(g: Grid, p: Position, v: Option<PieceId>): (r: Grid)
    requires WellFormed(g)
    ensures WellFormed(r)
    ensures forall q: Position :: Cell(r, q) == if q == p then v else Cell(g, q)
  {
    g[p.x := g[p.x][p.y := v]]
  }

  /** The multiset of all 64 cells, row by row. */
  function Occupants(rows: seq<seq<Option<PieceId>>>): multiset<Option<PieceId>>
  {
    if rows == [] then multiset{} else multiset(rows[0]) + Occupants(rows[1..])
  }

  lemma {:induction false} OccupantsUpdateRow(rows: seq<seq<Option<PieceId>>>, i: nat, row: seq<Option<PieceId>>)
    requires i < |rows|
    ensures Occupants(rows[i := row]) + multiset(rows[i]) == Occupants(rows) + multiset(row)
  {
    var t := rows[i := row];
    assert Occupants(rows) == multiset(rows[0]) + Occupants(rows[1..]);
    if i == 0 {
      assert t[1..] == rows[1..];
      assert Occupants(t) == multiset(row) + Occupants(rows[1..]);
    } else {
      assert t[0] == rows[0];
      assert t[1..] == rows[1..][i - 1 := row];
      assert rows[1..][i - 1] == rows[i];
      assert Occupants(t) == multiset(rows[0]) + Occupants(rows[1..][i - 1 := row]);
      OccupantsUpdateRow(rows[1..], i - 1, row);
      var x, y := Occupants(rows[1..][i - 1 := row]), Occupants(rows[1..]);
      forall z ensures (Occupants(t) + multiset(rows[i]))[z] == (Occupants(rows) + multiset(row))[z] {
        assert (x + multiset(rows[i]))[z] == (y + multiset(row))[z];
      }
    }
  }

  /** Overwriting one cell takes its old content out of the multiset and puts
      the new content in. */
  lemma SetCellOccupants(g: Grid, p: Position, v: Option<PieceId>)
    requires WellFormed(g)
    ensures Occupants(SetCell(g, p, v)) + multiset{Cell(g, p)} == Occupants(g) + multiset{v}
  {
    var row := g[p.x][p.y := v];
    var after := SetCell(g, p, v);
    assert after == g[p.x := row];
    OccupantsUpdateRow(g, p.x, row);
    assert multiset(row) + multiset{g[p.x][p.y]} == multiset(g[p.x]) + multiset{v};
    forall z ensures (Occupants(after) + multiset{Cell(g, p)})[z] == (Occupants(g) + multiset{v})[z] {
      assert (Occupants(after) + multiset(g[p.x]))[z] == (Occupants(g) + multiset(row))[z];
      assert (multiset(row) + multiset{g[p.x][p.y]})[z] == (multiset(g[p.x]) + multiset{v})[z];
    }
  }

  /** Exchanges the contents of two cells (the same cell: no change). */
  function SwapGrid(g: Grid, p1: Position, p2: Position): (r: Grid)
    requires WellFormed(g)
    ensures WellFormed(r)
    ensures Cell(r, p1) == Cell(g, p2) && Cell(r, p2) == Cell(g, p1)
    ensures forall q: Position :: q != p1 && q != p2 ==> Cell(r, q) == Cell(g, q)
    ensures Occupants(r) == Occupants(g)
  {
    var g1 := SetCell(g, p2, Cell(g, p1));
    var r := SetCell(g1, p1, Cell(g, p2));
    SetCellOccupants(g, p2, Cell(g, p1));
    SetCellOccupants(g1, p1, Cell(g, p2));
    assert Cell(g1, p1) == Cell(g, p1);
    assert Occupants(r) + multiset{Cell(g, p1)} == Occupants(g) + multiset{Cell(g, p1)};
    assert Occupants(r) == Occupants(g) by {
      forall z ensures Occupants(r)[z] == Occupants(g)[z] {
        assert (Occupants(r) + multiset{Cell(g, p1)})[z] == (Occupants(g) + multiset{Cell(g, p1)})[z];
      }
    }
    r
  }

  /** The state after Board.Swap(p1, p2, tag): the two cells are exchanged and,
      when `p1` held a piece and the tag is not empty, that piece's history
      gains `tag`. Nothing else changes, and the occupants are a permutation
      of the old ones. */
  function SwapState(s: State, p1: Position, p2: Position, tag: string): (r: State)
    requires ValidState(s)
    ensures ValidState(r)
    ensures Cell(r.spaces, p1) == Cell(s.spaces, p2) && Cell(r.spaces, p2) == Cell(s.spaces, p1)
    ensures forall q: Position :: q != p1 && q != p2 ==> Cell(r.spaces, q) == Cell(s.spaces, q)
    ensures Occupants(r.spaces) == Occupants(s.spaces)
    ensures |r.pieces| == |s.pieces|
    ensures forall i :: 0 <= i < |s.pieces| ==>
              r.pieces[i] == if Cell(s.spaces, p1) == Some(i) && tag != "" then Record(s.pieces[i], tag)
                             else s.pieces[i]
  {
    var pieces := match Cell(s.spaces, p1)
      case Some(id) => if tag != "" then s.pieces[id := Record(s.pieces[id], tag)] else s.pieces
      case None => s.pieces;
    var r := State(SwapGrid(s.spaces, p1, p2), pieces);
    assert OnePlace(r.spaces) by {
      forall p: Position, q: Position | Cell(r.spaces, p).Some? && Cell(r.spaces, p) == Cell(r.spaces, q)
        ensures p == q
      {
        var p' := if p == p1 then p2 else if p == p2 then p1 else p;
        var q' := if q == p1 then p2 else if q == p2 then p1 else q;
        assert Cell(s.spaces, p') == Cell(r.spaces, p) && Cell(s.spaces, q') == Cell(r.spaces, q);
      }
    }
    r
  }

  /** The state after Board.AssignSpace put `np` on `p`: a new piece goes to
      the end of the table and onto the cell; no piece clears the cell. The
      piece the cell held before stays in the table, off the board. */
  function AssignState(s: State, p: Position, np: Option<Piece>): (r: State)
    requires ValidState(s)
    ensures ValidState(r)
    ensures np.None? ==> Cell(r.spaces, p) == None && r.pieces == s.pieces
    ensures np.Some? ==> Cell(r.spaces, p) == Some(|s.pieces|) && r.pieces == s.pieces + [np.value]
    ensures forall q: Position :: q != p ==> Cell(r.spaces, q) == Cell(s.spaces, q)
  {
    match np
    case None => State(SetCell(s.spaces, p, None), s.pieces)
    case Some(piece) => State(SetCell(s.spaces, p, Some(|s.pieces|)), s.pieces + [piece])
  }

  function Min(a: int, b: int): int { if a < b then a else b }
  function Max(a: int, b: int): int { if a < b then b else a }

  /** Every cell of column `pos1.y` strictly between rows `pos1.x` and `pos2.x`
      is empty. */
  ghost predicate ClearFile(g: Grid, pos1: Position, pos2: Position)
    requires WellFormed(g)
  {
    forall x :: Min(pos1.x, pos2.x) < x < Max(pos1.x, pos2.x) ==> g[x][pos1.y].None?
  }

  /** Every cell of row `pos1.x` strictly between columns `pos1.y` and `pos2.y`
      is empty. */
  ghost predicate ClearRank(g: Grid, pos1: Position, pos2: Position)
    requires WellFormed(g)
  {
    forall y :: Min(pos1.y, pos2.y) < y < Max(pos1.y, pos2.y) ==> g[pos1.x][y].None?
  }

  /** The `k`-th square from `pos1` towards `pos2` on their diagonal. */
  function DiagonalStep(pos1: Position, pos2: Position, k: int): (q: Position)
    requires Abs(pos1.x - pos2.x) == Abs(pos1.y - pos2.y)
    requires 0 < k < Abs(pos1.x - pos2.x)
    ensures Abs(q.x - pos1.x) == k && Abs(q.y - pos1.y) == k
    ensures Abs(q.x - pos2.x) == Abs(pos1.x - pos2.x) - k
    ensures Abs(q.y - pos2.y) == Abs(pos1.x - pos2.x) - k
  {
    Position(if pos1.x < pos2.x then pos1.x + k else pos1.x - k,
             if pos1.y < pos2.y then pos1.y + k else pos1.y - k)
  }

  /** Each of the squares strictly between two diagonal neighbours is empty. */
  ghost predicate ClearDiagonal(g: Grid, pos1: Position, pos2: Position)
    requires WellFormed(g)
    requires Abs(pos1.x - pos2.x) == Abs(pos1.y - pos2.y)
  {
    forall k :: 0 < k < Abs(pos1.x - pos2.x) ==> Cell(g, DiagonalStep(pos1, pos2, k)).None?
  }

  lemma ClearFileSymmetric(g: Grid, pos1: Position, pos2: Position)
    requires WellFormed(g) && pos1.y == pos2.y
    ensures ClearFile(g, pos1, pos2) == ClearFile(g, pos2, pos1)
  {
  }

  lemma ClearRankSymmetric(g: Grid, pos1: Position, pos2: Position)
    requires WellFormed(g) && pos1.x == pos2.x
    ensures ClearRank(g, pos1, pos2) == ClearRank(g, pos2, pos1)
  {
  }

  /** The path checks never look at the end squares themselves. */
  lemma ClearIgnoresEndpoints(g: Grid, pos1: Position, pos2: Position, v: Option<PieceId>, w: Option<PieceId>)
    requires WellFormed(g)
    ensures ClearFile(SetCell(SetCell(g, pos1, v), Position(pos2.x, pos1.y), w), pos1, pos2) == ClearFile(g, pos1, pos2)
    ensures ClearRank(SetCell(SetCell(g, pos1, v), Position(pos1.x, pos2.y), w), pos1, pos2) == ClearRank(g, pos1, pos2)
  {
    var gf := SetCell(SetCell(g, pos1, v), Position(pos2.x, pos1.y), w);
    assert forall x :: Min(pos1.x, pos2.x) < x < Max(pos1.x, pos2.x) ==> gf[x][pos1.y] == g[x][pos1.y] by {
      forall x | Min(pos1.x, pos2.x) < x < Max(pos1.x, pos2.x) ensures gf[x][pos1.y] == g[x][pos1.y] {
        assert gf[x][pos1.y] == Cell(gf, Position(x, pos1.y));
      }
    }
    var gr := SetCell(SetCell(g, pos1, v), Position(pos1.x, pos2.y), w);
    assert forall y :: Min(pos1.y, pos2.y) < y < Max(pos1.y, pos2.y) ==> gr[pos1.x][y] == g[pos1.x][y] by {
      forall y | Min(pos1.y, pos2.y) < y < Max(pos1.y, pos2.y) ensures gr[pos1.x][y] == g[pos1.x][y] {
        assert gr[pos1.x][y] == Cell(gr, Position(pos1.x, y));
      }
    }
  }

  lemma ClearDiagonalSymmetric(g: Grid, pos1: Position, pos2: Position)
    requires WellFormed(g)
    requires Abs(pos1.x - pos2.x) == Abs(pos1.y - pos2.y)
    ensures ClearDiagonal(g, pos1, pos2) == ClearDiagonal(g, pos2, pos1)
  {
    var n := Abs(pos1.x - pos2.x);
    forall k | 0 < k < n
      ensures DiagonalStep(pos1, pos2, k) == DiagonalStep(pos2, pos1, n - k)
    {
    }
    if ClearDiagonal(g, pos1, pos2) {
      forall k | 0 < k < n ensures Cell(g, DiagonalStep(pos2, pos1, k)).None? {
        assert DiagonalStep(pos2, pos1, k) == DiagonalStep(pos1, pos2, n - k);
      }
    }
    if ClearDiagonal(g, pos2, pos1) {
      forall k | 0 < k < n ensures Cell(g, DiagonalStep(pos1, pos2, k)).None? {
        assert DiagonalStep(pos1, pos2, k) == DiagonalStep(pos2, pos1, n - k);
      }
    }
  }
}
