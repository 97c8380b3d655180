/** Pieces and players as plain values (piece.go). A piece's move history is
    the only part of it that changes during play; the board keeps pieces in a
    table so that every cell holding the same piece sees the same history. */
module Pieces {
  import opened Wrappers

  /** Only the two fields the board sets up are modelled. */
  datatype Player = Player(name: string, direction: string)

  const White := Player("W", "N")
  const Black := Player("B", "S")

  /** `pieceType` is the one-letter label the engine dispatches on; `moves`
      holds the move tags recorded so far, oldest first. */
  datatype Piece = Piece(player: Player, pieceType: string, moves: seq<string>)

  const PieceNames: map<string, string> :=
    map["R" := "Rook", "B" := "Bishop", "N" := "Knight", "K" := "King", "Q" := "Queen", "P" := "Pawn"]

  /** A fresh piece for a known label, nothing for any other label. */
  function NewPiece(pieceType: string, p: Player): (r: Option<Piece>)
    ensures r.None? <==> pieceType !in {"R", "B", "N", "K", "Q", "P"}
    ensures r.Some? ==> r.value.player == p && r.value.pieceType == pieceType && r.value.moves == []
  {
    if pieceType !in PieceNames then None
    else Some(Piece(p, pieceType, []))
  }

  /** The most recent move tag, or "empty" for a piece that never moved. */
  function LastMove(p: Piece): (m: string)
    ensures |p.moves| == 0 ==> m == "empty"
    ensures |p.moves| > 0 ==> m == p.moves[|p.moves| - 1]
  {
    if |p.moves| == 0 then "empty" else p.moves[|p.moves| - 1]
  }

  /** The piece after `tag` has been appended to its history. */
  function Record(p: Piece, tag: string): (r: Piece)
    ensures r.player == p.player && r.pieceType == p.pieceType
    ensures |r.moves| == |p.moves| + 1 && r.moves[..|p.moves|] == p.moves
    ensures LastMove(r) == tag
  {
    p.(moves := p.moves + [tag])
  }
}
