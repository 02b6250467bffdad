/** The move search of minimax_cupid.py as it runs: it works on one shared
    ChessBoard, pushing a move before each recursive call and popping it
    right after, and is proved against the functions of SearchSpec. */
module Minimax {
  import opened Wrappers
  import opened Score
  import opened Board
  import opened Evaluation
  import opened SearchSpec

  /** evaluate_board: walk the weight table, adding each kind's weight per
      White piece and subtracting it per Black piece. Reads the board and
      changes nothing. */
  method EvaluateBoard(board: ChessBoard) returns (evaluation: int)
    ensures evaluation == Material(board.rules.pieces(board.stack))
  {
    var counts := board.rules.pieces(board.stack);
    evaluation := 0;
    var i := 0;
    while i < |PieceValues|
      invariant 0 <= i <= |PieceValues|
      invariant evaluation == TableSum(PieceValues[..i], counts)
    {
      var (kind, value) := PieceValues[i];
      assert PieceValues[..i + 1][..i] == PieceValues[..i];
      evaluation := evaluation + Count(counts, kind, White) * value;
      evaluation := evaluation - Count(counts, kind, Black) * value;
      i := i + 1;
    }
    assert PieceValues[..i] == PieceValues;
    TableSumIsMaterial(counts);
  }

  /** minimax: the alpha-beta search of `depth` plies. The board's history
      is the same on return as on entry, also when a loop stops at a cut. */
  method Minimax(board: ChessBoard, depth: nat, alpha: Ext, beta: Ext, maximizingPlayer: bool) returns (r: Ext)
    modifies board
    decreases depth, 1
    ensures board.stack == old(board.stack)
    ensures r == AlphaBeta(board.rules, board.stack, depth, alpha, beta, maximizingPlayer)
    ensures Stop(board.rules, board.stack, depth) ==> r == Fin(Material(board.rules.pieces(board.stack)))
    ensures !Stop(board.rules, board.stack, depth) && board.rules.legalMoves(board.stack) == []
            ==> r == Sentinel(maximizingPlayer)
  {
    var over := board.IsGameOver();
    if depth == 0 || over {
      var evaluation := EvaluateBoard(board);
      r := Fin(evaluation);
    } else if maximizingPlayer {
      r := MaximizerLoop(board, depth, alpha, beta);
    } else {
      r := MinimizerLoop(board, depth, alpha, beta);
    }
  }

  /** The maximizing branch of minimax: each child is searched by the
      minimizer, alpha rises to the best score so far, and the loop breaks
      once beta <= alpha. Every applied move is undone before the update. */
  method MaximizerLoop(board: ChessBoard, depth: nat, alpha: Ext, beta: Ext) returns (maxEval: Ext)
    requires depth > 0 && !GameOver(board.rules, board.stack)
    modifies board
    decreases depth, 0
    ensures board.stack == old(board.stack)
    ensures maxEval == AlphaBeta(board.rules, board.stack, depth, alpha, beta, true)
  {
    ghost var R, h := board.rules, board.stack;
    var moves := board.GetLegalMoves();
    var a := alpha;
    maxEval := NegInf;
    var i := 0;
    while i < |moves|
      invariant 0 <= i <= |moves|
      invariant board.stack == h
      invariant Scan(R, h, moves, 0, depth - 1, alpha, beta, true, NegInf)
                == Scan(R, h, moves, i, depth - 1, a, beta, true, maxEval)
    {
      board.ApplyMove(moves[i]);
      var eval := Minimax(board, depth - 1, a, beta, false);
      assert eval == AlphaBeta(R, h + [moves[i]], depth - 1, a, beta, false);
      assert (h + [moves[i]])[..|h|] == h;
      board.UndoMove();
      maxEval := Max(maxEval, eval);
      a := Max(a, eval);
      if Le(beta, a) {
        break;
      }
      i := i + 1;
    }
  }

  /** The minimizing branch of minimax, the mirror image of MaximizerLoop. */
  method MinimizerLoop(board: ChessBoard, depth: nat, alpha: Ext, beta: Ext) returns (minEval: Ext)
    requires depth > 0 && !GameOver(board.rules, board.stack)
    modifies board
    decreases depth, 0
    ensures board.stack == old(board.stack)
    ensures minEval == AlphaBeta(board.rules, board.stack, depth, alpha, beta, false)
  {
    ghost var R, h := board.rules, board.stack;
    var moves := board.GetLegalMoves();
    var b := beta;
    minEval := PosInf;
    var i := 0;
    while i < |moves|
      invariant 0 <= i <= |moves|
      invariant board.stack == h
      invariant Scan(R, h, moves, 0, depth - 1, alpha, beta, false, PosInf)
                == Scan(R, h, moves, i, depth - 1, alpha, b, false, minEval)
    {
      board.ApplyMove(moves[i]);
      var eval := Minimax(board, depth - 1, alpha, b, true);
      assert eval == AlphaBeta(R, h + [moves[i]], depth - 1, alpha, b, true);
      assert (h + [moves[i]])[..|h|] == h;
      board.UndoMove();
      minEval := Min(minEval, eval);
      b := Min(b, eval);
      if Le(b, alpha) {
        break;
      }
      i := i + 1;
    }
  }

  /** What the search result is known to satisfy, gathered in one place. */
  lemma SearchFacts(R: Rules, h: History, depth: nat, alpha: Ext, beta: Ext, maximizing: bool)
    ensures var r := AlphaBeta(R, h, depth, alpha, beta, maximizing);
      && (Stop(R, h, depth) ==> r == Fin(Material(R.pieces(h))))
      && (!Stop(R, h, depth) && R.legalMoves(h) == [] ==> r == Sentinel(maximizing))
      && (Lt(alpha, beta) ==> FailSoft(r, Value(R, h, depth, maximizing), alpha, beta))
      && (alpha == NegInf && beta == PosInf ==> r == Value(R, h, depth, maximizing))
  {
    if Lt(alpha, beta) {
      AlphaBetaFailSoft(R, h, depth, alpha, beta, maximizing);
    }
    AlphaBetaAtRoot(R, h, depth, maximizing);
  }

  /** get_best_move: search every root move with the opponent to reply,
      `depth - 1` plies deep with the full window, and keep the first move
      of strictly greatest score. The board is restored. */
  method GetBestMove(board: ChessBoard, depth: int) returns (bestMove: Option<Move>)
    requires depth >= 1
    modifies board
    ensures board.stack == old(board.stack)
    ensures bestMove == ChosenMove(board.rules, board.stack, depth - 1)
  {
    ghost var R, h := board.rules, board.stack;
    bestMove := None;
    ghost var bestIndex: Option<nat> := None;
    var maxEval := NegInf;
    var moves := board.GetLegalMoves();
    var i := 0;
    while i < |moves|
      invariant 0 <= i <= |moves|
      invariant board.stack == h
      invariant maxEval == RootBest(R, h, moves, depth - 1, i).0
      invariant bestIndex == RootBest(R, h, moves, depth - 1, i).1
      invariant bestMove == if bestIndex.Some? then Some(moves[bestIndex.value]) else None
    {
      board.ApplyMove(moves[i]);
      var moveEval := Minimax(board, depth - 1, NegInf, PosInf, false);
      AlphaBetaAtRoot(R, h + [moves[i]], depth - 1, false);
      RootBestStep(R, h, moves, depth - 1, i, moveEval);
      assert (h + [moves[i]])[..|h|] == h;
      board.UndoMove();
      if Lt(maxEval, moveEval) {
        maxEval := moveEval;
        bestMove := Some(moves[i]);
        bestIndex := Some(i);
      }
      i := i + 1;
    }
  }
}
