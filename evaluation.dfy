/** The material evaluator of minimax_cupid.py (evaluate_board), as
    functions: the weight table it walks, the sum it accumulates and the
    symmetry that sum has. Scores are always from White's side. */
module Evaluation {
  import opened Board

  /** The weight table in the order evaluate_board walks it. */
  const PieceValues: seq<(Kind, int)> :=
    [(Pawn, 1), (Knight, 3), (Bishop, 3), (Rook, 5), (Queen, 9), (King, 0)]

  /** The standard relative value of each kind, the king counting nothing. */
  function Weight(k: Kind): int {
    match k
    case Pawn => 1
    case Knight => 3
    case Bishop => 3
    case Rook => 5
    case Queen => 9
    case King => 0
  }

  /** White's count of a kind minus Black's. */
  function Balance(c: Counts, k: Kind): int {
    Count(c, k, White) - Count(c, k, Black)
  }

  /** The material score: the sum over all kinds of weight times balance. */
  function Material(c: Counts): int {
    Weight(Pawn) * Balance(c, Pawn) + Weight(Knight) * Balance(c, Knight)
    + Weight(Bishop) * Balance(c, Bishop) + Weight(Rook) * Balance(c, Rook)
    + Weight(Queen) * Balance(c, Queen) + Weight(King) * Balance(c, King)
  }

  /** What the evaluator's loop has accumulated after walking `table`:
      each entry adds its weight times White's count and subtracts its
      weight times Black's. */
  function TableSum(table: seq<(Kind, int)>, c: Counts): int {
    if table == [] then 0
    else
      var (kind, value) := table[|table| - 1];
      TableSum(table[..|table| - 1], c) + Count(c, kind, White) * value - Count(c, kind, Black) * value
  }

  /** The walk over the weight table computes the material score. */
  lemma TableSumIsMaterial(c: Counts)
    ensures TableSum(PieceValues, c) == Material(c)
  {
    var t := PieceValues;
    assert t[..1][..0] == [] && t[..2][..1] == t[..1] && t[..3][..2] == t[..2];
    assert t[..4][..3] == t[..3] && t[..5][..4] == t[..4] && t[..5] == t[..|t| - 1];
    assert TableSum(t[..1], c) == Weight(Pawn) * Balance(c, Pawn);
    assert TableSum(t[..2], c) == TableSum(t[..1], c) + Weight(Knight) * Balance(c, Knight);
    assert TableSum(t[..3], c) == TableSum(t[..2], c) + Weight(Bishop) * Balance(c, Bishop);
    assert TableSum(t[..4], c) == TableSum(t[..3], c) + Weight(Rook) * Balance(c, Rook);
    assert TableSum(t[..5], c) == TableSum(t[..4], c) + Weight(Queen) * Balance(c, Queen);
    assert TableSum(t, c) == TableSum(t[..5], c) + Weight(King) * Balance(c, King);
  }

  function Opponent(col: Colour): Colour {
    if col == White then Black else White
  }

  /** The colour-mirrored position: every piece changes sides. */
  function Mirror(c: Counts): (r: Counts)
    ensures forall k, col :: Count(r, k, col) == Count(c, k, Opponent(col))
  {
    map p | p in c :: Piece(p.kind, Opponent(p.colour)) := c[p]
  }

  /** Swapping colours negates every table walk. */
  lemma {:induction false} TableSumMirror(table: seq<(Kind, int)>, c: Counts)
    ensures TableSum(table, Mirror(c)) == -TableSum(table, c)
  {
    if table != [] {
      TableSumMirror(table[..|table| - 1], c);
    }
  }

  /** A position without pieces walks to 0, whatever the table. */
  lemma {:induction false} TableSumEmpty(table: seq<(Kind, int)>)
    ensures TableSum(table, map[]) == 0
  {
    if table != [] {
      TableSumEmpty(table[..|table| - 1]);
    }
  }

  /** The evaluation is antisymmetric under a colour swap, and an empty
      board is level. */
  lemma MaterialSymmetry(c: Counts)
    ensures Material(Mirror(c)) == -Material(c)
    ensures Material(map[]) == 0
  {
    TableSumIsMaterial(c);
    TableSumIsMaterial(Mirror(c));
    TableSumIsMaterial(map[]);
    TableSumMirror(PieceValues, c);
    TableSumEmpty(PieceValues);
  }
}
