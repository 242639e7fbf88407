/** The tic-tac-toe move route: a match of the "tiktaktoe" game is played on
    a nine-cell board kept in the match; the winning move completes the match
    and advances the bracket, a drawn board starts over. */
module TicTacToe {
  import opened Common
  import opened Domain
  import opened Advancement
  import opened MatchProtocol

  type Board = seq<Option<Mark>>

  const GameKey: string := "tiktaktoe"

  /** Rows, columns and diagonals of the 3×3 board, cells numbered row by row. */
  const Lines: seq<(nat, nat, nat)> := [(0, 1, 2), (3, 4, 5), (6, 7, 8), (0, 3, 6), (1, 4, 7), (2, 5, 8), (0, 4, 8), (2, 4, 6)]

  /** The three cells of the line hold the same mark. A cell outside the board
      reads as empty. */
  predicate LineWon(board: Board, line: (nat, nat, nat)) {
    && line.0 < |board| && line.1 < |board| && line.2 < |board|
    && board[line.0].Some? && board[line.0] == board[line.1] && board[line.0] == board[line.2]
  }

  /** The mark of the first won line from line `i` on, if any. */
  function WinnerFrom(board: Board, i: nat): (w: Option<Mark>)
    requires i <= |Lines|
    ensures w.Some? <==> exists j :: i <= j < |Lines| && LineWon(board, Lines[j])
    ensures w.Some? ==> exists j :: i <= j < |Lines| && LineWon(board, Lines[j]) && board[Lines[j].0] == w
                                    && forall j' :: i <= j' < j ==> !LineWon(board, Lines[j'])
    decreases |Lines| - i
  {
    if i == |Lines| then None
    else if LineWon(board, Lines[i]) then board[Lines[i].0]
    else WinnerFrom(board, i + 1)
  }

  /** `checkTikTakToeWinner`: a mark exactly when some line is won, and then
      the mark of the first such line. */
  function CheckWinner(board: Board): (w: Option<Mark>)
    ensures w.Some? <==> exists j :: 0 <= j < |Lines| && LineWon(board, Lines[j])
    ensures w.Some? ==> exists j :: 0 <= j < |Lines| && LineWon(board, Lines[j]) && board[Lines[j].0] == w
  {
    WinnerFrom(board, 0)
  }

  /** `board.every(cell => cell !== null)`. */
  predicate Full(board: Board) {
    forall i :: 0 <= i < |board| ==> board[i].Some?
  }

  function EmptyBoard(): (b: Board)
    ensures |b| == 9 && forall i :: 0 <= i < 9 ==> b[i].None?
  {
    seq(9, _ => None)
  }

  /** The board a match starts with, player1 to move. */
  function NewGameState(m: Match, now: nat): GameState {
    GameState(EmptyBoard(), Lower(m.player1.walletAddress), [], now)
  }

  lemma EmptyBoardHasNoWinner()
    ensures CheckWinner(EmptyBoard()).None?
  {
    var b := EmptyBoard();
    forall j | 0 <= j < |Lines|
      ensures !LineWon(b, Lines[j])
    {
      assert Lines[j].0 < 9;
    }
  }

  // ---------------------------------------------------------------- turns

  function CountMark(board: Board, mark: Mark): (c: nat)
    ensures c <= |board|
  {
    if board == [] then 0 else (if board[0] == Some(mark) then 1 else 0) + CountMark(board[1..], mark)
  }

  lemma {:induction false} EmptyCount(board: Board, mark: Mark)
    requires forall i :: 0 <= i < |board| ==> board[i].None?
    ensures CountMark(board, mark) == 0
  {
    if board != [] {
      EmptyCount(board[1..], mark);
    }
  }

  /** Placing a mark on an empty cell adds one of that mark and none of the other. */
  lemma {:induction false} CountPlace(board: Board, i: nat, mark: Mark, other: Mark)
    requires i < |board| && board[i].None?
    ensures CountMark(board[i := Some(mark)], mark) == CountMark(board, mark) + 1
    ensures other != mark ==> CountMark(board[i := Some(mark)], other) == CountMark(board, other)
    decreases i
  {
    var placed := board[i := Some(mark)];
    if i == 0 {
      assert placed[1..] == board[1..];
    } else {
      assert placed[0] == board[0];
      assert placed[1..] == board[1..][i - 1 := Some(mark)];
      CountPlace(board[1..], i - 1, mark, other);
    }
  }

  /** X (player1, wallet `w1`) and O (player2, wallet `w2`) alternate: player1
      moves when the counts are level, player2 when X is one ahead. */
  ghost predicate TurnsAlternate(gs: GameState, w1: string, w2: string) {
    || (gs.currentPlayer == w1 && CountMark(gs.board, X) == CountMark(gs.board, O))
    || (gs.currentPlayer == w2 && CountMark(gs.board, X) == CountMark(gs.board, O) + 1)
  }

  lemma NewGameAlternates(m: Match, now: nat)
    ensures TurnsAlternate(NewGameState(m, now), Lower(m.player1.walletAddress), Lower(m.player2.walletAddress))
  {
    EmptyCount(EmptyBoard(), X);
    EmptyCount(EmptyBoard(), O);
  }

  // ---------------------------------------------------------------- the move

  /** The tournament holds the match in its bracket. */
  predicate Holds(t: Tournament, matchId: MatchId) {
    t.bracket.Some? && Locate(t.bracket.value.rounds, matchId).Some?
  }

  /** The state a move starts from: the stored board or a new one. */
  function StartState(m: Match, now: nat): GameState {
    if m.gameState.Some? then m.gameState.value else NewGameState(m, now)
  }

  predicate LegalCell(board: Board, position: int) {
    0 <= position <= 8 && position < |board| && board[position].None?
  }

  /** The state after `me` puts `symbol` on `position`. */
  function Placed(gs: GameState, me: string, symbol: Mark, position: nat, now: nat): GameState
    requires position < |gs.board|
  {
    gs.(board := gs.board[position := Some(symbol)], moves := gs.moves + [MoveRecord(me, symbol, position, now)])
  }

  /** The effect of a legal move that left the board `played` in match `m` at
      `loc`: a winning line completes the match and the bracket advances on
      round `currentRound − 1`, the latest round, whichever round holds the
      match; a full board starts over; otherwise the turn passes to `next`. */
  ghost predicate MoveOutcome(t: Tournament, loc: Location, users: Users, m: Match, played: GameState, next: string,
                              now: nat, stamp: nat, r: Result<Advanced>)
    requires t.bracket.Some? && ValidLocation(t.bracket.value.rounds, loc)
  {
    var w := CheckWinner(played.board);
    if w.Some? then
      var won := m.(status := Completed(if w.value == X then m.player1 else m.player2), completedAt := Some(now),
                    gameResult := w, gameState := Some(played));
      AdvanceSpec(WithMatch(t, loc, won), users, GameKey, t.bracket.value.currentRound as int - 1, now, stamp, r)
    else if Full(played.board) then
      r == Ok(Advanced(WithMatch(t, loc, m.(gameState := Some(NewGameState(m, now)))), users, None))
    else
      r == Ok(Advanced(WithMatch(t, loc, m.(gameState := Some(played.(currentPlayer := next)))), users, None))
  }

  /** The effect of a move by `wallet` on `position` in the match at `loc` of
      tournament `t`: the three refusals in the source's order, then the
      outcome of the move. The mover plays X exactly when they are player1. */
  ghost predicate MoveSpec(t: Tournament, loc: Location, users: Users, position: int, wallet: string,
                           now: nat, stamp: nat, r: Result<Advanced>)
    requires t.bracket.Some? && ValidLocation(t.bracket.value.rounds, loc)
  {
    var m := MatchAt(t.bracket.value.rounds, loc);
    var gs := StartState(m, now);
    var me := Lower(wallet);
    if m.status.Completed? then r == Err(GameAlreadyOver)
    else if gs.currentPlayer != me then r == Err(NotYourTurn)
    else if !LegalCell(gs.board, position) then r == Err(InvalidMove)
    else
      var isPlayer1 := me == Lower(m.player1.walletAddress);
      var next := if isPlayer1 then Lower(m.player2.walletAddress) else Lower(m.player1.walletAddress);
      MoveOutcome(t, loc, users, m, Placed(gs, me, if isPlayer1 then X else O, position as nat, now), next,
                  now, stamp, r)
  }

  /** The move route. Which tournament holds the match, when several do, is
      not fixed (the source scans them in insertion order). */
  method Move(games: Games, users: Users, matchId: MatchId, position: int, wallet: string, now: nat, stamp: nat)
    returns (found: Option<TournamentKey>, r: Result<Advanced>)
    ensures GameKey !in games ==> found.None? && r == Err(InternalError)
    ensures GameKey in games ==>
            var ts := games[GameKey].tournaments;
            && (found.None? <==> forall k :: k in ts ==> !Holds(ts[k], matchId))
            && (found.None? ==> r == Err(MatchNotFound))
            && (found.Some? ==>
                  && found.value in ts && Holds(ts[found.value], matchId)
                  && MoveSpec(ts[found.value], Locate(ts[found.value].bracket.value.rounds, matchId).value,
                              users, position, wallet, now, stamp, r))
  {
    if GameKey !in games {
      return None, Err(InternalError);
    }
    var ts := games[GameKey].tournaments;
    if forall k :: k in ts ==> !Holds(ts[k], matchId) {
      return None, Err(MatchNotFound);
    }
    var key :| key in ts && Holds(ts[key], matchId);
    found := Some(key);
    var t := ts[key];
    var located := FindMatch(t.bracket.value.rounds, matchId);
    r := Play(t, located.value, users, position, wallet, now, stamp);
  }

  /** The move itself, on the match at `loc`. */
  method Play(t: Tournament, loc: Location, users: Users, position: int, wallet: string, now: nat, stamp: nat)
    returns (r: Result<Advanced>)
    requires t.bracket.Some? && ValidLocation(t.bracket.value.rounds, loc)
    ensures MoveSpec(t, loc, users, position, wallet, now, stamp, r)
  {
    var m := t.bracket.value.rounds[loc.round][loc.index];
    assert m == MatchAt(t.bracket.value.rounds, loc);
    if m.status.Completed? {
      return Err(GameAlreadyOver);
    }
    var gs := if m.gameState.Some? then m.gameState.value else NewGameState(m, now);
    assert gs == StartState(m, now);
    var me := Lower(wallet);
    if gs.currentPlayer != me {
      return Err(NotYourTurn);
    }
    if position < 0 || position > 8 || position >= |gs.board| || gs.board[position].Some? {
      return Err(InvalidMove);
    }
    var isPlayer1 := me == Lower(m.player1.walletAddress);
    var next := if isPlayer1 then Lower(m.player2.walletAddress) else Lower(m.player1.walletAddress);
    var played := Placed(gs, me, if isPlayer1 then X else O, position as nat, now);
    r := Conclude(t, loc, users, m, played, next, now, stamp);
  }

  /** After a legal move: check for a winner, then for a full board. */
  method Conclude(t: Tournament, loc: Location, users: Users, m: Match, played: GameState, next: string,
                  now: nat, stamp: nat) returns (r: Result<Advanced>)
    requires t.bracket.Some? && ValidLocation(t.bracket.value.rounds, loc)
    ensures MoveOutcome(t, loc, users, m, played, next, now, stamp, r)
  {
    var winner := CheckWinner(played.board);
    if winner.Some? {
      var won := m.(status := Completed(if winner.value == X then m.player1 else m.player2), completedAt := Some(now),
                    gameResult := winner, gameState := Some(played));
      r := AdvanceRound(WithMatch(t, loc, won), users, GameKey, t.bracket.value.currentRound as int - 1, now, stamp);
    } else if Full(played.board) {
      r := Ok(Advanced(WithMatch(t, loc, m.(gameState := Some(NewGameState(m, now)))), users, None));
    } else {
      r := Ok(Advanced(WithMatch(t, loc, m.(gameState := Some(played.(currentPlayer := next)))), users, None));
    }
  }

  /** With two different wallets, every move keeps X and O alternating in a
      match still being played: a winning move completes the match, a full
      board starts over with player1, and any other move passes the turn. */
  lemma MoveKeepsTurnsAlternating(t: Tournament, loc: Location, users: Users, position: int, wallet: string,
                                  now: nat, stamp: nat, r: Result<Advanced>)
    requires t.bracket.Some? && ValidLocation(t.bracket.value.rounds, loc)
    requires MoveSpec(t, loc, users, position, wallet, now, stamp, r) && r.Ok?
    requires var m := MatchAt(t.bracket.value.rounds, loc);
             && Lower(m.player1.walletAddress) != Lower(m.player2.walletAddress)
             && (m.gameState.Some? ==> TurnsAlternate(m.gameState.value, Lower(m.player1.walletAddress),
                                                      Lower(m.player2.walletAddress)))
    ensures r.value.tournament.bracket.Some? && ValidLocation(r.value.tournament.bracket.value.rounds, loc)
    ensures var m' := MatchAt(r.value.tournament.bracket.value.rounds, loc);
            var m := MatchAt(t.bracket.value.rounds, loc);
            m'.status.Pending? ==> m'.gameState.Some? && TurnsAlternate(m'.gameState.value,
                                                                      Lower(m.player1.walletAddress),
                                                                      Lower(m.player2.walletAddress))
  {
    var m := MatchAt(t.bracket.value.rounds, loc);
    var w1, w2 := Lower(m.player1.walletAddress), Lower(m.player2.walletAddress);
    var gs := StartState(m, now);
    if m.gameState.None? {
      NewGameAlternates(m, now);
    }
    var isPlayer1 := Lower(wallet) == w1;
    var next := if isPlayer1 then w2 else w1;
    var played := Placed(gs, Lower(wallet), if isPlayer1 then X else O, position as nat, now);
    assert MoveOutcome(t, loc, users, m, played, next, now, stamp, r);
    OutcomeKeepsTurns(t, loc, users, m, gs, played, next, now, stamp, r);
  }

  /** A won match is completed and stays at `loc`; a drawn board restarts;
      otherwise one mark more with the turn passed keeps the alternation. */
  lemma OutcomeKeepsTurns(t: Tournament, loc: Location, users: Users, m: Match, gs: GameState, played: GameState,
                          next: string, now: nat, stamp: nat, r: Result<Advanced>)
    requires t.bracket.Some? && ValidLocation(t.bracket.value.rounds, loc) && m == MatchAt(t.bracket.value.rounds, loc)
    requires MoveOutcome(t, loc, users, m, played, next, now, stamp, r) && r.Ok?
    requires var w1, w2 := Lower(m.player1.walletAddress), Lower(m.player2.walletAddress);
             && w1 != w2 && TurnsAlternate(gs, w1, w2)
             && (exists i :: 0 <= i < |gs.board| && gs.board[i].None?
                             && played.board == gs.board[i := Some(if gs.currentPlayer == w1 then X else O)])
             && next == (if gs.currentPlayer == w1 then w2 else w1)
    ensures r.value.tournament.bracket.Some? && ValidLocation(r.value.tournament.bracket.value.rounds, loc)
    ensures var m' := MatchAt(r.value.tournament.bracket.value.rounds, loc);
            m'.status.Pending? ==> m'.gameState.Some? && TurnsAlternate(m'.gameState.value,
                                                                      Lower(m.player1.walletAddress),
                                                                      Lower(m.player2.walletAddress))
  {
    var w1, w2 := Lower(m.player1.walletAddress), Lower(m.player2.walletAddress);
    var w := CheckWinner(played.board);
    if w.Some? {
      var won := m.(status := Completed(if w.value == X then m.player1 else m.player2), completedAt := Some(now),
                    gameResult := w, gameState := Some(played));
      var t1 := WithMatch(t, loc, won);
      AdvanceKeepsRounds(t1, users, GameKey, t.bracket.value.currentRound as int - 1, now, stamp, r);
      assert r.value.tournament.bracket.value.rounds[loc.round] == t1.bracket.value.rounds[loc.round];
    } else if Full(played.board) {
      NewGameAlternates(m, now);
    } else {
      var i :| 0 <= i < |gs.board| && gs.board[i].None? && played.board == gs.board[i := Some(if gs.currentPlayer == w1 then X else O)];
      var symbol := if gs.currentPlayer == w1 then X else O;
      CountPlace(gs.board, i, symbol, if symbol == X then O else X);
    }
  }
}
