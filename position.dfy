/** Square geometry: distances, adjacency, orientation and direction labels
    between two squares of the 8×8 board (position.go). */
module Geometry {

  /** A Go `byte`. */
  type Byte = b: int | 0 <= b < 256

  /** A row or column index; every Position the engine builds is on the board. */
  type Coord = c: int | 0 <= c < 8

  /** `x` is the row index (0 is rank 8, 7 is rank 1), `y` the column index
      (0 is file a). */
  datatype Position = Position(x: Coord, y: Coord)

  function Abs(n: int): nat
  {
    if n < 0 then -n else n
  }

  /** Go's byte subtraction, which wraps around modulo 256. */
  function ByteSub(a: Byte, b: Byte): (r: Byte)
    ensures a >= b ==> r == a - b
    ensures a < b ==> r == a - b + 256
  {
    (a - b) % 256
  }

  /** The absolute row and column distances. The guards keep the byte
      subtraction from wrapping. */
  function GetDistances(pos1: Position, pos2: Position): (d: (Byte, Byte))
    ensures d.0 == Abs(pos1.x - pos2.x)
    ensures d.1 == Abs(pos1.y - pos2.y)
  {
    var xDistance := if pos1.x < pos2.x then ByteSub(pos2.x, pos1.x) else ByteSub(pos1.x, pos2.x);
    var yDistance := if pos1.y < pos2.y then ByteSub(pos2.y, pos1.y) else ByteSub(pos1.y, pos2.y);
    (xDistance, yDistance)
  }

  lemma GetDistancesSymmetric(pos1: Position, pos2: Position)
    ensures GetDistances(pos1, pos2) == GetDistances(pos2, pos1)
  {
  }

  /** True for the eight neighbours of a square, and for the square itself. */
  function NextTo(pos1: Position, pos2: Position): (r: bool)
    ensures r <==> Abs(pos1.x - pos2.x) <= 1 && Abs(pos1.y - pos2.y) <= 1
    ensures pos1 == pos2 ==> r
  {
    var (xDistance, yDistance) := GetDistances(pos1, pos2);
    xDistance <= 1 && yDistance <= 1
  }

  const Orientations: set<string> := {"rank", "file", "diagonal", "none"}

  /** Classifies the line through two squares. Same row is reported first as
      "rank" (so a square is "rank" to itself), then same column as "file". */
  function OrientatedTo(pos1: Position, pos2: Position): (r: string)
    ensures r in Orientations
    ensures r == "rank" <==> pos1.x == pos2.x
    ensures r == "file" <==> pos1.x != pos2.x && pos1.y == pos2.y
    ensures r == "diagonal" <==>
              pos1.x != pos2.x && pos1.y != pos2.y && Abs(pos1.x - pos2.x) == Abs(pos1.y - pos2.y)
    ensures r == "none" <==>
              pos1.x != pos2.x && pos1.y != pos2.y && Abs(pos1.x - pos2.x) != Abs(pos1.y - pos2.y)
  {
    var (xDistance, yDistance) := GetDistances(pos1, pos2);
    if xDistance == 0 then "rank"
    else if yDistance == 0 then "file"
    else if xDistance == yDistance then "diagonal"
    else "none"
  }

  lemma OrientatedToSymmetric(pos1: Position, pos2: Position)
    ensures OrientatedTo(pos1, pos2) == OrientatedTo(pos2, pos1)
  {
  }

  /** "W" when the second square lies in a lower column, "E" when higher. */
  function RankDirection(pos1: Position, pos2: Position): (r: string)
    ensures r == "W" <==> pos1.y > pos2.y
    ensures r == "E" <==> pos1.y < pos2.y
    ensures r == "" <==> pos1.y == pos2.y
  {
    if pos1.y > pos2.y then "W"
    else if pos1.y < pos2.y then "E"
    else ""
  }

  lemma RankDirectionSwap(pos1: Position, pos2: Position)
    ensures RankDirection(pos1, pos2) == "W" <==> RankDirection(pos2, pos1) == "E"
    ensures RankDirection(pos1, pos2) == "" <==> RankDirection(pos2, pos1) == ""
  {
  }

  /** "N" when the second square lies in a lower row (towards rank 8), "S"
      when higher. */
  function FileDirection(pos1: Position, pos2: Position): (r: string)
    ensures r == "N" <==> pos1.x > pos2.x
    ensures r == "S" <==> pos1.x < pos2.x
    ensures r == "" <==> pos1.x == pos2.x
  {
    if pos1.x > pos2.x then "N"
    else if pos1.x < pos2.x then "S"
    else ""
  }

  lemma FileDirectionSwap(pos1: Position, pos2: Position)
    ensures FileDirection(pos1, pos2) == "N" <==> FileDirection(pos2, pos1) == "S"
    ensures FileDirection(pos1, pos2) == "" <==> FileDirection(pos2, pos1) == ""
  {
  }
}
