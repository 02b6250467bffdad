# Chess move search: a Dafny model

This project models the move-search core of a small chess program: the
material evaluator `evaluate_board`, the alpha-beta search `minimax` and the
root driver `get_best_move` (minimax_cupid.py), together with the
`ChessBoard` adapter they run against (board_cupid.py).

- `score.dfy` — module `Score`: search scores as `NegInf | Fin(n) | PosInf`.
  `NegInf` and `PosInf` are the sentinels `MIN` and `MAX` (minimax_cupid.py:7).
  `Max`/`Min` behave like Python's `max`/`min`. Module `Wrappers` holds `Option`.
- `board.dfy` — module `Board`: pieces, moves and the `ChessBoard` class. The
  board's only state is its move stack. A position is its move history from
  the standard start. The rules of chess come from the python-chess library,
  whose source is not part of this model. They are a `Rules` value of total
  functions over histories: ordered legal moves, piece counts, and the check,
  checkmate, stalemate, insufficient-material, seventy-five-move and
  fivefold-repetition predicates. `GameOver` is the library's default
  game-over test: checkmate or one of the four automatic draws. `Coherent`
  states the chess fact that a position with no legal move is checkmate or
  stalemate. White is to move after an even number of moves.
- `evaluation.dfy` — module `Evaluation`: the weight table walked by
  `evaluate_board`, and `Material`, the weighted sum over kinds written out.
  Also the colour swap `Mirror` and the symmetry lemmas.
- `search_spec.dfy` — module `SearchSpec`. `Value`/`Fold` are plain minimax
  without pruning. `AlphaBeta`/`Scan` are the pruned search exactly as
  `minimax` runs it. The module proves the fail-soft theorem, equality at the
  root window, finiteness under a coherent library, and the root choice of
  `get_best_move`.
- `minimax.dfy` — module `Minimax`: `EvaluateBoard`, `Minimax` and
  `GetBestMove` as imperative methods. They mutate one shared `ChessBoard`
  through `ApplyMove`/`UndoMove` and are proved against `SearchSpec`. The
  two branches of `minimax`'s loop are the methods `MaximizerLoop` and
  `MinimizerLoop`, which `Minimax` calls; each keeps the source's loop,
  window update and break.

Scores are always from White's side. The root of `get_best_move` maximizes
that score whichever side is to move, and the model keeps it that way.

The minimax base case `depth == 0 or board.is_game_over()` never fires for a
negative depth. So `get_best_move(board, 0)` calls `minimax` at depth -1 and
searches until every line reaches game over. Depth 0 therefore does not mean
"evaluate the root's children without searching further". The
model follows the code: `Minimax` takes a `nat` depth and `GetBestMove`
requires `depth >= 1` (see Left out).

## Model

| member | source | states |
|---|---|---|
| `Score.Max` | minimax_cupid.py:30-31 | the maximizer's update is an upper bound of the running best and the child score, and equals one of them |
| `Score.Min` | minimax_cupid.py:41-42 | the minimizer's update is a lower bound of the running best and the child score, and equals one of them |
| `Board.GameResults` | board_cupid.py:44-74 | the two scores sum to 1 exactly when the game is over and to 0 otherwise; someone scores a full point iff checkmate; on checkmate the winner is the side not to move and the message is "Checkmate! White wins!" or "Checkmate! Black wins!" for the side that scored the point; every other terminal outcome is half a point each |
| `Board.FirstHolding` | board_cupid.py:57-68 | the elif chain's choice: no message iff no rule holds, otherwise the message of a rule that holds with none before it holding |
| `Board.ResultsFollowDrawPriority` | board_cupid.py:57-74 | outside checkmate, the result is (0.5, 0.5) with the message of the first draw rule that holds (stalemate, insufficient material, 75 moves, fivefold), otherwise (0, 0) with "Check" or " " |
| `Board.ChessBoard.constructor` | board_cupid.py:6-7 | a new board is the starting position with an empty move stack |
| `Board.ChessBoard.ResetBoard` | board_cupid.py:9-13 | the move stack becomes empty: back to the starting position |
| `Board.ChessBoard.MakeMove` | board_cupid.py:15-26 | returns true exactly when the move is currently legal; then the move is pushed, otherwise the board is unchanged |
| `Board.ChessBoard.GetLegalMoves` | board_cupid.py:28-34 | the legal moves of the current position in enumeration order; the board is not changed |
| `Board.ChessBoard.IsGameOver` | board_cupid.py:36-42 | true exactly on checkmate or an automatic draw; the board is not changed |
| `Board.ChessBoard.GetGameResults` | board_cupid.py:44-74 | the outcome of the current position; the board is not changed |
| `Board.ChessBoard.ApplyMove` | board_cupid.py:85-91 | pushes exactly the given move onto the history |
| `Board.ChessBoard.UndoMove` | board_cupid.py:93-97 | pops exactly the most recent move |
| `Board.ApplyThenUndo` | board_cupid.py:85-97 | apply followed by undo leaves the history as it was |
| `Evaluation.TableSumIsMaterial` | minimax_cupid.py:55-67 | walking the weight table (pawn 1, knight 3, bishop 3, rook 5, queen 9, king 0) gives the sum over kinds of weight times (White count minus Black count) |
| `Evaluation.Mirror` | minimax_cupid.py:64-66 | the colour-swapped counts: each kind's White count is the old Black count and vice versa |
| `Evaluation.TableSumMirror` | minimax_cupid.py:64-66 | for any weight table, swapping colours negates the accumulated score |
| `Evaluation.TableSumEmpty` | minimax_cupid.py:55-67 | a position without pieces accumulates 0 for any weight table |
| `Evaluation.MaterialSymmetry` | minimax_cupid.py:55-67 | the evaluation of the colour-swapped position is the negation of the original; an empty position scores 0 |
| `Minimax.EvaluateBoard` | minimax_cupid.py:47-67 | the loop over the weight table returns the material score of the board's position and changes nothing |
| `SearchSpec.AlphaBeta` | minimax_cupid.py:21-45 | the value `minimax` computes: the material evaluation at depth 0 or game over, whatever the window and the player; otherwise the loop `Scan` over the legal moves from MIN (maximizer) or MAX (minimizer), so a non-leaf without moves returns that sentinel |
| `SearchSpec.Scan` | minimax_cupid.py:24-45 | the loop from the i-th move on: each child is searched with the current window, the maximizer takes `max` into its best and alpha, the minimizer `min` into its best and beta, and the loop stops once beta <= alpha; the maximizer's best never falls and the minimizer's never rises |
| `SearchSpec.AlphaBetaFailSoft` | minimax_cupid.py:21-45 | for every window alpha < beta the pruned search is fail-soft against plain minimax: exact strictly inside the window, an upper bound of the true value at or below alpha, a lower bound at or above beta |
| `SearchSpec.ScanMaxFailSoft` | minimax_cupid.py:24-34 | the maximizing loop, from any running best at or below alpha, never ends below that best and is fail-soft against the max of the true child values |
| `SearchSpec.ScanMinFailSoft` | minimax_cupid.py:35-45 | the minimizing loop, from any running best at or above beta, never ends above that best and is fail-soft against the min of the true child values |
| `SearchSpec.AlphaBetaAtRoot` | minimax_cupid.py:82 | with the window (-inf, +inf) the pruned search returns exactly the plain minimax value |
| `SearchSpec.ValueFinite` | minimax_cupid.py:21-45 | with a coherent rules library the minimax value of every position at every depth is finite: no sentinel survives |
| `SearchSpec.FoldFinite` | minimax_cupid.py:25-34 | folding finite child values into a finite best, or into the sentinel over at least one move, gives a finite score |
| `SearchSpec.RootBest` | minimax_cupid.py:78-86 | the running best move of the root loop is always an index already examined |
| `SearchSpec.ChosenMove` | minimax_cupid.py:78-87 | the move `get_best_move` returns: the move at the index the root loop keeps after all legal moves, or None; a returned move is always legal in the position |
| `SearchSpec.RootBestIsFirstMaximum` | minimax_cupid.py:78-86 | after any number of root moves the kept move is the first of greatest score and its score is the running maximum; none is kept iff every score so far is -inf |
| `SearchSpec.ChosenMoveIsFirstMaximum` | minimax_cupid.py:78-87 | `get_best_move` returns None iff every root score is -inf (in particular when there is no legal move); otherwise a legal move of greatest score, the first such in enumeration order |
| `SearchSpec.ChosenMoveExists` | minimax_cupid.py:78-87 | with a coherent rules library a move is returned exactly when a legal move exists |
| `Minimax.Minimax` | minimax_cupid.py:9-45 | returns the pruned search value; the board's history on return equals that on entry, including after a cut; at depth 0 or game over the result is the evaluation whatever alpha, beta and the player; a non-leaf without legal moves returns the sentinel (MIN for the maximizer, MAX for the minimizer) |
| `Minimax.MaximizerLoop` | minimax_cupid.py:24-34 | the maximizing branch, with alpha raised after each child and a break once beta <= alpha, returns the pruned search value and restores the board's history |
| `Minimax.MinimizerLoop` | minimax_cupid.py:35-45 | the minimizing branch, with beta lowered after each child and a break once beta <= alpha, returns the pruned search value and restores the board's history |
| `Minimax.SearchFacts` | minimax_cupid.py:21-45 | for any arguments, the value `Minimax` returns is the evaluation at a leaf and the sentinel at a non-leaf without moves, is fail-soft against plain minimax for alpha < beta, and equals plain minimax at the root window |
| `Minimax.GetBestMove` | minimax_cupid.py:69-87 | returns the root choice `ChosenMove` at depth - 1, which `ChosenMoveIsFirstMaximum` shows is the first legal move of greatest plain-minimax score over the opponent's replies (None iff every score is MIN) and `ChosenMoveExists` shows is a move whenever one exists in a coherent library; the board's history is restored |

## Left out

- The python-chess library: move generation, legality, check, checkmate and draw detection, and piece counting. Their source is not part of this model; they are the function fields of `Rules`.
- Board.ChessBoard.MakeMove: takes a `Move`, not UCI text. Parsing with `Move.from_uci`, and its error on malformed text, belong to the library. The library's legality test is modelled as membership in the enumerated legal-move list; alternative spellings it may also accept (such as king-takes-rook castling) are not modelled.
- `get_player_move` (board_cupid.py:76-83): console input.
- game_modes_cupid.py and main_cupid.py: the GUI, the game loops, human input polling, the external engine lookup, printing and the restart that recurses into a new game. These are user interface and orchestration.
- ai_cupid.py: `get_ai_move` only forwards to `get_best_move`; `Minimax.GetBestMove` stands for both.
- Minimax.GetBestMove: requires `depth >= 1`. At depth 0 the source calls `minimax` at depth -1, where the `depth == 0` base case is never reached. The search then ends only through game over, which the abstract rules do not bound.
- Minimax.Minimax: takes a `nat` depth, for the same reason.
- Board.ChessBoard.UndoMove: requires a non-empty history. Popping an empty stack raises an error in the library, and the search only undoes what it applied.
- Floating point: `math.inf` becomes `NegInf`/`PosInf` of `Score.Ext`, integer scores stay integers, and the 0.5 draw scores are reals.
- Positions set up from anything other than the standard start: the library is only used from its initial position here, so a position is its history and the side to move follows its length.
