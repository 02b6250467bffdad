/** The rules-engine adapter of board_cupid.py.

    The chess rules themselves (move generation, legality, check, mate and
    the draw rules) belong to the python-chess library, whose source is not
    part of this model. They are given as a `Rules` value: total functions
    over positions. A position is identified by its move history from the
    standard starting position, which is exactly what the wrapped board
    holds: its move stack. */
module Board {
  import opened Wrappers

  datatype Colour = White | Black

  datatype Kind = Pawn | Knight | Bishop | Rook | Queen | King

  datatype Piece = Piece(kind: Kind, colour: Colour)

  /** How many pieces of each kind and colour stand on the board; a piece
      missing from the map has count 0. */
  type Counts = map<Piece, nat>

  function Count(c: Counts, k: Kind, col: Colour): nat {
    if Piece(k, col) in c then c[Piece(k, col)] else 0
  }

  type Square = s: int | 0 <= s < 64

  /** A move as python-chess represents it: from-square, to-square and an
      optional promotion piece. The search only ever compares moves. */
  datatype Move = Move(from: Square, to: Square, promotion: Option<Kind>)

  /** A position: the moves pushed since the standard starting position. */
  type History = seq<Move>

  /** The library's rules, as functions of the position. `legalMoves`
      gives the moves in the library's enumeration order. */
  datatype Rules = Rules(
    legalMoves: History -> seq<Move>,
    pieces: History -> Counts,
    isCheck: History -> bool,
    isCheckmate: History -> bool,
    isStalemate: History -> bool,
    isInsufficientMaterial: History -> bool,
    isSeventyFiveMoves: History -> bool,
    isFivefoldRepetition: History -> bool)

  /** White moves first from the standard start and every push passes the
      turn, so White is to move exactly after an even number of moves. */
  predicate WhiteToMove(h: History) {
    |h| % 2 == 0
  }

  /** The library's game-over test: mate or one of the automatic draws. */
  predicate GameOver(R: Rules, h: History) {
    R.isCheckmate(h) || R.isStalemate(h) || R.isInsufficientMaterial(h)
    || R.isSeventyFiveMoves(h) || R.isFivefoldRepetition(h)
  }

  /** What chess guarantees of the library: a position with no legal move
      is checkmate or stalemate. */
  ghost predicate Coherent(R: Rules) {
    forall h :: R.legalMoves(h) == [] ==> R.isCheckmate(h) || R.isStalemate(h)
  }

  /** The result triple: White's points, Black's points and a message. */
  datatype Outcome = Outcome(white: real, black: real, message: string)

  /** get_game_results: the outcome of the first condition that holds, in
      the order checkmate, stalemate, insufficient material, seventy-five
      moves, fivefold repetition, check. */
  function GameResults(R: Rules, h: History): (r: Outcome)
    ensures r.white + r.black == if GameOver(R, h) then 1.0 else 0.0
    ensures r.white == 1.0 || r.black == 1.0 <==> R.isCheckmate(h)
    ensures R.isCheckmate(h) ==> (r.white == 1.0 <==> !WhiteToMove(h))
    ensures GameOver(R, h) && !R.isCheckmate(h) ==> r.white == r.black == 0.5
    ensures R.isCheckmate(h) ==>
              r.message == if r.white == 1.0 then "Checkmate! White wins!" else "Checkmate! Black wins!"
  {
    if R.isCheckmate(h) then
      if WhiteToMove(h) then Outcome(0.0, 1.0, "Checkmate! Black wins!")
      else Outcome(1.0, 0.0, "Checkmate! White wins!")
    else if R.isStalemate(h) then Outcome(0.5, 0.5, "Stalemate!")
    else if R.isInsufficientMaterial(h) then Outcome(0.5, 0.5, "Draw due to insufficient material!")
    else if R.isSeventyFiveMoves(h) then Outcome(0.5, 0.5, "Draw due to the seventy-five-move rule!")
    else if R.isFivefoldRepetition(h) then Outcome(0.5, 0.5, "Draw due to fivefold repetition!")
    else if R.isCheck(h) then Outcome(0.0, 0.0, "Check")
    else Outcome(0.0, 0.0, " ")
  }

  /** The draw conditions with their messages, in the order they are tried. */
  function DrawRules(R: Rules): seq<(History -> bool, string)> {
    [ (R.isStalemate, "Stalemate!"),
      (R.isInsufficientMaterial, "Draw due to insufficient material!"),
      (R.isSeventyFiveMoves, "Draw due to the seventy-five-move rule!"),
      (R.isFivefoldRepetition, "Draw due to fivefold repetition!") ]
  }

  /** The message of the first rule in `rules` that holds of `h`, if any. */
  function FirstHolding(rules: seq<(History -> bool, string)>, h: History): (m: Option<string>)
    ensures m.None? <==> forall i :: 0 <= i < |rules| ==> !rules[i].0(h)
    ensures m.Some? ==> exists i :: 0 <= i < |rules| && rules[i].0(h) && rules[i].1 == m.value
                                   && forall j :: 0 <= j < i ==> !rules[j].0(h)
  {
    if rules == [] then None
    else if rules[0].0(h) then Some(rules[0].1)
    else
      var m := FirstHolding(rules[1..], h);
      assert m.Some? ==> exists i :: 1 <= i < |rules| && rules[i].0(h) && rules[i].1 == m.value
                                   && forall j :: 0 <= j < i ==> !rules[j].0(h) by {
        if m.Some? {
          var i :| 0 <= i < |rules[1..]| && rules[1..][i].0(h) && rules[1..][i].1 == m.value
                   && forall j :: 0 <= j < i ==> !rules[1..][j].0(h);
          assert forall j :: 0 <= j < i + 1 ==> !rules[j].0(h) by {
            forall j | 0 <= j < i + 1 ensures !rules[j].0(h) {
              if j > 0 { assert rules[j] == rules[1..][j - 1]; }
            }
          }
        }
      }
      m
  }

  /** Outside checkmate the result is a half point each, with the message of
      the first draw rule that holds; failing all of them it scores nothing
      and reports check. */
  lemma ResultsFollowDrawPriority(R: Rules, h: History)
    requires !R.isCheckmate(h)
    ensures match FirstHolding(DrawRules(R), h)
            case Some(msg) => GameResults(R, h) == Outcome(0.5, 0.5, msg)
            case None => GameResults(R, h) == Outcome(0.0, 0.0, if R.isCheck(h) then "Check" else " ")
  {
    var rules := DrawRules(R);
    assert rules[0].0 == R.isStalemate && rules[1].0 == R.isInsufficientMaterial;
    assert rules[2].0 == R.isSeventyFiveMoves && rules[3].0 == R.isFivefoldRepetition;
  }

  /** ChessBoard: the wrapper around the library's board. Its only state is
      the move stack; `rules` stands for the library code behind it. */
  class ChessBoard {
    const rules: Rules
    var stack: History

    /** A fresh board is the standard starting position. */
    constructor (rules: Rules)
      ensures this.rules == rules && stack == []
    {
      this.rules := rules;
      stack := [];
    }

    /** reset_board: back to the starting position with an empty history. */
    method ResetBoard()
      modifies this
      ensures stack == []
    {
      stack := [];
    }

    /** make_move: push the move only when it is currently legal. */
    method MakeMove(move: Move) returns (made: bool)
      modifies this
      ensures made <==> move in rules.legalMoves(old(stack))
      ensures stack == if made then old(stack) + [move] else old(stack)
    {
      if move in rules.legalMoves(stack) {
        stack := stack + [move];
        return true;
      }
      return false;
    }

    /** get_legal_moves: the legal moves in enumeration order; the board is
        not changed. */
    method GetLegalMoves() returns (moves: seq<Move>)
      ensures moves == rules.legalMoves(stack)
    {
      moves := rules.legalMoves(stack);
    }

    method IsGameOver() returns (over: bool)
      ensures over <==> GameOver(rules, stack)
    {
      over := GameOver(rules, stack);
    }

    method GetGameResults() returns (r: Outcome)
      ensures r == GameResults(rules, stack)
    {
      r := GameResults(rules, stack);
    }

    /** apply_move: push one move, legal or not (the library does not check). */
    method ApplyMove(move: Move)
      modifies this
      ensures stack == old(stack) + [move]
    {
      stack := stack + [move];
    }

    /** undo_move: pop the most recent move. Popping an empty stack raises
        in the library, so callers undo only what they applied. */
    method UndoMove()
      requires stack != []
      modifies this
      ensures stack == old(stack)[..|old(stack)| - 1]
    {
      stack := stack[..|stack| - 1];
    }
  }

  /** apply_move followed by undo_move leaves the board as it was. */
  method ApplyThenUndo(board: ChessBoard, move: Move)
    modifies board
    ensures board.stack == old(board.stack)
  {
    board.ApplyMove(move);
    board.UndoMove();
  }
}
