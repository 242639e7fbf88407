/** The match state machine: players report results (two agreeing reports
    complete the match, two differing ones flag a conflict), an administrator
    sets a result, and an administrator reopens a completed match. */
module MatchProtocol {
  import opened Common
  import opened Domain
  import opened BracketBuilder
  import opened Advancement

  // ---------------------------------------------------------------- finding a match

  /** `round.find(m => m.id === id)`, as an index: the first match with that id. */
  function IndexOf(round: Round, id: MatchId): (r: Option<nat>)
    ensures r.Some? ==> r.value < |round| && round[r.value].id == id
    ensures r.Some? ==> forall j :: 0 <= j < r.value ==> round[j].id != id
    ensures r.None? ==> forall j :: 0 <= j < |round| ==> round[j].id != id
  {
    if round == [] then None
    else if round[0].id == id then Some(0)
    else
      match IndexOf(round[1..], id)
      case None => None
      case Some(j) => Some(j + 1)
  }

  /** The first round holding a match with that id, and its index there. */
  function Locate(rounds: seq<Round>, id: MatchId): (r: Option<Location>)
    ensures r.Some? ==> ValidLocation(rounds, r.value) && MatchAt(rounds, r.value).id == id
    ensures r.Some? ==> IndexOf(rounds[r.value.round], id) == Some(r.value.index)
    ensures r.Some? ==> forall i :: 0 <= i < r.value.round ==> IndexOf(rounds[i], id).None?
    ensures r.None? ==> forall i :: 0 <= i < |rounds| ==> IndexOf(rounds[i], id).None?
  {
    if rounds == [] then None
    else if IndexOf(rounds[0], id).Some? then Some(Location(0, IndexOf(rounds[0], id).value))
    else
      match Locate(rounds[1..], id)
      case None => None
      case Some(l) => Some(Location(l.round + 1, l.index))
  }

  /** The search loop of the match routes: rounds in order, first hit wins. */
  method FindMatch(rounds: seq<Round>, id: MatchId) returns (loc: Option<Location>)
    ensures loc == Locate(rounds, id)
  {
    var i := 0;
    while i < |rounds|
      invariant 0 <= i <= |rounds|
      invariant forall j :: 0 <= j < i ==> IndexOf(rounds[j], id).None?
    {
      var idx := IndexOf(rounds[i], id);
      if idx.Some? {
        return Some(Location(i, idx.value));
      }
      i := i + 1;
    }
    return None;
  }

  /** The tournament and location a match route works on, or the error it
      answers with: unknown tournament, no bracket yet (reading its rounds
      throws), or no such match. */
  function Target(games: Games, gameId: string, tid: TournamentKey, matchId: MatchId): (r: Result<(Tournament, Location)>)
    ensures r.Ok? ==> Lookup(games, gameId, tid) == Some(r.value.0) && r.value.0.bracket.Some?
                      && Locate(r.value.0.bracket.value.rounds, matchId) == Some(r.value.1)
    ensures r == Err(TournamentNotFound) <==> Lookup(games, gameId, tid).None?
    ensures r == Err(InternalError) <==> Lookup(games, gameId, tid).Some? && Lookup(games, gameId, tid).value.bracket.None?
    ensures r.Err? ==> r.error in {TournamentNotFound, InternalError, MatchNotFound}
  {
    match Lookup(games, gameId, tid)
    case None => Err(TournamentNotFound)
    case Some(t) =>
      if t.bracket.None? then Err(InternalError)
      else
        match Locate(t.bracket.value.rounds, matchId)
        case None => Err(MatchNotFound)
        case Some(loc) => Ok((t, loc))
  }

  /** The route-side part of `Target`, using the search loop. */
  method FindTarget(games: Games, gameId: string, tid: TournamentKey, matchId: MatchId)
    returns (r: Result<(Tournament, Location)>)
    ensures r == Target(games, gameId, tid, matchId)
  {
    var found := Lookup(games, gameId, tid);
    if found.None? {
      return Err(TournamentNotFound);
    }
    var t := found.value;
    if t.bracket.None? {
      return Err(InternalError);
    }
    var loc := FindMatch(t.bracket.value.rounds, matchId);
    if loc.None? {
      return Err(MatchNotFound);
    }
    return Ok((t, loc.value));
  }

  /** Storing the changed match and, when asked, running the advancement on
      the match's round; `r` is what the route ends with. */
  ghost predicate Concludes(t: Tournament, loc: Location, updated: Match, users: Users, gameId: string,
                            advance: bool, now: nat, stamp: nat, r: Result<Advanced>)
    requires t.bracket.Some? && ValidLocation(t.bracket.value.rounds, loc)
  {
    var t1 := WithMatch(t, loc, updated);
    if advance then AdvanceSpec(t1, users, gameId, loc.round, now, stamp, r)
    else r == Ok(Advanced(t1, users, None))
  }

  // ---------------------------------------------------------------- player reports

  /** The reports on a match come from its two players, one each. */
  predicate ValidPending(m: Match) {
    && (forall k :: 0 <= k < |m.pendingResults| ==>
          m.pendingResults[k].submittedBy == m.player1.id || m.pendingResults[k].submittedBy == m.player2.id)
    && (forall j, k :: 0 <= j < k < |m.pendingResults| ==>
          m.pendingResults[j].submittedBy != m.pendingResults[k].submittedBy)
  }

  /** Two players, one report each: never more than two reports. */
  lemma PendingAtMostTwo(m: Match)
    requires ValidPending(m)
    ensures |m.pendingResults| <= 2
  {
    if |m.pendingResults| > 2 {
      var p := m.pendingResults;
      TwoNamesRepeat(p[0].submittedBy, p[1].submittedBy, p[2].submittedBy, m.player1.id, m.player2.id);
    }
  }

  /** Three names drawn from two repeat one. */
  lemma TwoNamesRepeat(x: string, y: string, z: string, a: string, b: string)
    requires (x == a || x == b) && (y == a || y == b) && (z == a || z == b)
    ensures x == y || x == z || y == z
  {
  }

  predicate HasSubmitted(m: Match, submittedBy: string) {
    exists k :: 0 <= k < |m.pendingResults| && m.pendingResults[k].submittedBy == submittedBy
  }

  /** A report by a player of the match who has not reported yet keeps the
      reports valid, so there are at most two of them afterwards. */
  lemma AppendKeepsPendingValid(m: Match, s: Submission)
    requires ValidPending(m)
    requires s.submittedBy == m.player1.id || s.submittedBy == m.player2.id
    requires !HasSubmitted(m, s.submittedBy)
    ensures ValidPending(m.(pendingResults := m.pendingResults + [s]))
    ensures |m.pendingResults + [s]| <= 2
  {
    var m' := m.(pendingResults := m.pendingResults + [s]);
    assert forall k :: 0 <= k < |m.pendingResults| ==> m'.pendingResults[k] == m.pendingResults[k];
    PendingAtMostTwo(m');
  }

  /** Both reports give the same score line. */
  predicate Agree(p: seq<Submission>)
    requires |p| == 2
  {
    p[0].score1 == p[1].score1 && p[0].score2 == p[1].score2
  }

  /** `pendingResults.forEach(r => r.conflict = true)`. */
  function MarkConflicts(p: seq<Submission>): (q: seq<Submission>)
    ensures |q| == |p|
    ensures forall k :: 0 <= k < |p| ==> q[k] == p[k].(conflict := true)
  {
    seq(|p|, k requires 0 <= k < |p| => p[k].(conflict := true))
  }

  /** The match completed by two agreeing reports `p`: their score, the side
      with the higher score as winner. */
  function Consensus(m: Match, p: seq<Submission>, now: nat): (c: Match)
    requires |p| == 2
    ensures c.status.Completed? && c.completedBy == Auto && c.pendingResults == p
    ensures c.status.winner == (if p[0].score1 > p[0].score2 then m.player1 else m.player2)
  {
    m.(score1 := Some(p[0].score1), score2 := Some(p[0].score2),
       status := Completed(if p[0].score1 > p[0].score2 then m.player1 else m.player2),
       completedAt := Some(now), completedBy := Auto, pendingResults := p)
  }

  /** Flagging a conflict changes no report's author or score, so the reports
      stay valid, and every report is flagged. */
  lemma ConflictKeepsPendingValid(m: Match)
    requires ValidPending(m)
    ensures ValidPending(m.(pendingResults := MarkConflicts(m.pendingResults)))
    ensures forall k :: 0 <= k < |m.pendingResults| ==>
              MarkConflicts(m.pendingResults)[k].conflict
              && MarkConflicts(m.pendingResults)[k].submittedBy == m.pendingResults[k].submittedBy
              && MarkConflicts(m.pendingResults)[k].score1 == m.pendingResults[k].score1
              && MarkConflicts(m.pendingResults)[k].score2 == m.pendingResults[k].score2
  {
  }

  /** Agreeing reports never name a draw, since each report was checked to
      have different scores; between two different players, player1 wins
      exactly when the agreed first score is the higher one. */
  lemma ConsensusHasNoDraw(m: Match, p: seq<Submission>, now: nat)
    requires |p| == 2 && Agree(p) && p[1].score1 != p[1].score2
    ensures Consensus(m, p, now).score1 != Consensus(m, p, now).score2
    ensures Consensus(m, p, now).score1.value > Consensus(m, p, now).score2.value
            ==> Consensus(m, p, now).status.winner == m.player1
    ensures m.player1 != m.player2 ==>
              (Consensus(m, p, now).status.winner == m.player1
               <==> Consensus(m, p, now).score1.value > Consensus(m, p, now).score2.value)
  {
  }

  datatype SubmitOutcome = AutoCompleted | ConflictDetected | WaitingForOpponent

  datatype Submitted = Submitted(outcome: SubmitOutcome, after: Advanced)

  function AfterOf(r: Result<Submitted>): Result<Advanced> {
    if r.Ok? then Ok(r.value.after) else Err(r.error)
  }

  predicate FieldsGiven(submittedBy: string, wallet: string, score1: Option<int>, score2: Option<int>) {
    submittedBy != "" && wallet != "" && score1.Some? && score2.Some?
  }

  /** The submit-result route. */
  method SubmitResult(games: Games, users: Users, gameId: string, tid: TournamentKey, matchId: MatchId,
                      submittedBy: string, wallet: string, score1: Option<int>, score2: Option<int>,
                      now: nat, stamp: nat)
    returns (r: Result<Submitted>)
    ensures !FieldsGiven(submittedBy, wallet, score1, score2) ==> r == Err(AllFieldsRequired)
    ensures FieldsGiven(submittedBy, wallet, score1, score2) && score1 == score2 ==> r == Err(DrawNotAllowed)
    ensures (FieldsGiven(submittedBy, wallet, score1, score2) && score1 != score2
             && Target(games, gameId, tid, matchId).Err?) ==> r == Err(Target(games, gameId, tid, matchId).error)
    ensures (FieldsGiven(submittedBy, wallet, score1, score2) && score1 != score2
             && Target(games, gameId, tid, matchId).Ok?) ==>
            var t := Target(games, gameId, tid, matchId).value.0;
            var loc := Target(games, gameId, tid, matchId).value.1;
            var m := MatchAt(t.bracket.value.rounds, loc);
            var p := m.pendingResults + [Submission(submittedBy, wallet, score1.value, score2.value, now, false)];
            && (m.status.Completed? ==> r == Err(MatchAlreadyCompleted))
            && (m.status.Pending? && submittedBy != m.player1.id && submittedBy != m.player2.id ==> r == Err(NotInMatch))
            && ((m.status.Pending? && (submittedBy == m.player1.id || submittedBy == m.player2.id)
                 && HasSubmitted(m, submittedBy)) ==> r == Err(AlreadySubmitted))
            && ((m.status.Pending? && (submittedBy == m.player1.id || submittedBy == m.player2.id)
                 && !HasSubmitted(m, submittedBy)) ==>
                && (|p| == 2 && Agree(p) ==>
                      Concludes(t, loc, Consensus(m, p, now), users, gameId, true, now, stamp, AfterOf(r))
                      && (r.Ok? ==> r.value.outcome == AutoCompleted))
                && (|p| == 2 && !Agree(p) ==>
                      r.Ok? && r.value.outcome == ConflictDetected
                      && Concludes(t, loc, m.(pendingResults := MarkConflicts(p)), users, gameId, false, now, stamp, AfterOf(r)))
                && (|p| != 2 ==>
                      r.Ok? && r.value.outcome == WaitingForOpponent
                      && Concludes(t, loc, m.(pendingResults := p), users, gameId, false, now, stamp, AfterOf(r))))
  {
    if submittedBy == "" || wallet == "" || score1.None? || score2.None? {
      return Err(AllFieldsRequired);
    }
    if score1 == score2 {
      return Err(DrawNotAllowed);
    }
    var target := FindTarget(games, gameId, tid, matchId);
    if target.Err? {
      return Err(target.error);
    }
    var (t, loc) := target.value;
    var m := t.bracket.value.rounds[loc.round][loc.index];
    if m.status.Completed? {
      return Err(MatchAlreadyCompleted);
    }
    if submittedBy != m.player1.id && submittedBy != m.player2.id {
      return Err(NotInMatch);
    }
    var k := 0;
    while k < |m.pendingResults|
      invariant 0 <= k <= |m.pendingResults|
      invariant forall j :: 0 <= j < k ==> m.pendingResults[j].submittedBy != submittedBy
    {
      if m.pendingResults[k].submittedBy == submittedBy {
        return Err(AlreadySubmitted);
      }
      k := k + 1;
    }
    var pending := m.pendingResults + [Submission(submittedBy, wallet, score1.value, score2.value, now, false)];
    if |pending| == 2 {
      if pending[0].score1 == pending[1].score1 && pending[0].score2 == pending[1].score2 {
        var completed := Consensus(m, pending, now);
        var advanced := AdvanceRound(WithMatch(t, loc, completed), users, gameId, loc.round, now, stamp);
        if advanced.Err? {
          return Err(advanced.error);
        }
        return Ok(Submitted(AutoCompleted, advanced.value));
      } else {
        var flagged := m.(pendingResults := MarkConflicts(pending));
        return Ok(Submitted(ConflictDetected, Advanced(WithMatch(t, loc, flagged), users, None)));
      }
    }
    r := Ok(Submitted(WaitingForOpponent, Advanced(WithMatch(t, loc, m.(pendingResults := pending)), users, None)));
  }

  // ---------------------------------------------------------------- administrator

  /** The match as the administrator completes it. */
  function AdminCompleted(m: Match, score1: Option<int>, score2: Option<int>, winner: Player, now: nat): (c: Match)
    ensures c.status == Completed(winner) && c.completedBy == Admin && c.pendingResults == []
    ensures ValidPending(c)
  {
    m.(score1 := score1, score2 := score2, status := Completed(winner), completedAt := Some(now),
       completedBy := Admin, pendingResults := [])
  }

  /** The admin result route. Scores win over a winner id; equal scores are
      not rejected and make player2 the winner; a completed match may be set
      again. */
  method AdminSetResult(games: Games, users: Users, gameId: string, tid: TournamentKey, matchId: MatchId,
                        winnerId: string, score1: Option<int>, score2: Option<int>, now: nat, stamp: nat)
    returns (r: Result<Advanced>)
    ensures Target(games, gameId, tid, matchId).Err? ==> r == Err(Target(games, gameId, tid, matchId).error)
    ensures Target(games, gameId, tid, matchId).Ok? ==>
            var t := Target(games, gameId, tid, matchId).value.0;
            var loc := Target(games, gameId, tid, matchId).value.1;
            var m := MatchAt(t.bracket.value.rounds, loc);
            && (score1.Some? && score2.Some? ==>
                  Concludes(t, loc, AdminCompleted(m, score1, score2,
                                                   if score1.value > score2.value then m.player1 else m.player2, now),
                            users, gameId, true, now, stamp, r))
            && (!(score1.Some? && score2.Some?) && winnerId == "" ==> r == Err(WinnerOrScoreRequired))
            && ((!(score1.Some? && score2.Some?) && winnerId != "" && winnerId != m.player1.id
                 && winnerId != m.player2.id) ==> r == Err(InvalidWinnerId))
            && ((!(score1.Some? && score2.Some?) && winnerId != ""
                 && (winnerId == m.player1.id || winnerId == m.player2.id)) ==>
                  Concludes(t, loc, AdminCompleted(m, m.score1, m.score2,
                                                   if winnerId == m.player1.id then m.player1 else m.player2, now),
                            users, gameId, true, now, stamp, r))
  {
    var target := FindTarget(games, gameId, tid, matchId);
    if target.Err? {
      return Err(target.error);
    }
    var (t, loc) := target.value;
    var m := t.bracket.value.rounds[loc.round][loc.index];
    var completed;
    if score1.Some? && score2.Some? {
      completed := AdminCompleted(m, score1, score2, if score1.value > score2.value then m.player1 else m.player2, now);
    } else if winnerId != "" {
      if winnerId != m.player1.id && winnerId != m.player2.id {
        return Err(InvalidWinnerId);
      }
      completed := AdminCompleted(m, m.score1, m.score2, if winnerId == m.player1.id then m.player1 else m.player2, now);
    } else {
      return Err(WinnerOrScoreRequired);
    }
    r := AdvanceRound(WithMatch(t, loc, completed), users, gameId, loc.round, now, stamp);
  }

  /** The administrator's winner is always one of the two players; on equal
      scores it is player2. */
  lemma AdminWinnerIsPlayer(m: Match, score1: int, score2: int, now: nat)
    ensures var c := AdminCompleted(m, Some(score1), Some(score2),
                                    if score1 > score2 then m.player1 else m.player2, now);
            && (c.status.winner == m.player1 || c.status.winner == m.player2)
            && (score1 == score2 ==> c.status.winner == m.player2)
  {
  }

  // ---------------------------------------------------------------- reopening

  /** The match as reset by an administrator: pending again with no winner,
      scores, completion or reports. The tic-tac-toe board is kept. */
  function Reopened(m: Match): (o: Match)
    ensures o.status == Pending && o.score1.None? && o.score2.None? && o.pendingResults == []
    ensures o.completedBy == Unset && o.completedAt.None?
    ensures o.id == m.id && o.player1 == m.player1 && o.player2 == m.player2 && o.gameState == m.gameState
  {
    m.(status := Pending, score1 := None, score2 := None, completedAt := None, completedBy := Unset,
       pendingResults := [])
  }

  /** Reopening a match that was fresh before it was decided, by the players
      or by the administrator, gives back the fresh match. */
  lemma ReopenUndoesCompletion(m: Match, p: seq<Submission>, s1: Option<int>, s2: Option<int>, w: Player, now: nat)
    requires IsFresh(m) && |p| == 2
    ensures Reopened(Consensus(m, p, now)) == m
    ensures Reopened(AdminCompleted(m, s1, s2, w, now)) == m
  {
  }

  /** The reset-match route: a completed match is reopened; a finished
      tournament goes back to started with its champion cleared. */
  method ResetMatch(games: Games, gameId: string, tid: TournamentKey, matchId: MatchId) returns (r: Result<Tournament>)
    ensures Target(games, gameId, tid, matchId).Err? ==> r == Err(Target(games, gameId, tid, matchId).error)
    ensures Target(games, gameId, tid, matchId).Ok? ==>
            var t := Target(games, gameId, tid, matchId).value.0;
            var loc := Target(games, gameId, tid, matchId).value.1;
            var m := MatchAt(t.bracket.value.rounds, loc);
            && (m.status.Pending? ==> r == Err(MatchNotCompleted))
            && (m.status.Completed? ==>
                  && r.Ok? && r.value.bracket.Some?
                  && r.value.bracket.value.rounds == SetMatch(t.bracket.value.rounds, loc, Reopened(m))
                  && (t.status == Finished ==>
                        r.value == t.(status := Started, finishedAt := None, winner := None,
                                      bracket := Some(t.bracket.value.(rounds := r.value.bracket.value.rounds,
                                                                       isComplete := false, winner := None))))
                  && (t.status != Finished ==> r.value == WithMatch(t, loc, Reopened(m))))
  {
    var target := FindTarget(games, gameId, tid, matchId);
    if target.Err? {
      return Err(target.error);
    }
    var (t, loc) := target.value;
    var m := t.bracket.value.rounds[loc.round][loc.index];
    if m.status.Pending? {
      return Err(MatchNotCompleted);
    }
    var t1 := WithMatch(t, loc, Reopened(m));
    if t.status == Finished {
      t1 := t1.(status := Started, finishedAt := None, winner := None,
                bracket := Some(t1.bracket.value.(isComplete := false, winner := None)));
    }
    r := Ok(t1);
  }

  /** Reopening touches no other match and no round count. */
  lemma ReopenTouchesOnlyThatMatch(rounds: seq<Round>, loc: Location, m: Match)
    requires ValidLocation(rounds, loc)
    ensures var r := SetMatch(rounds, loc, Reopened(m));
            && |r| == |rounds| && (forall i :: 0 <= i < |r| ==> |r[i]| == |rounds[i]|)
            && (forall i, j :: 0 <= i < |r| && 0 <= j < |r[i]| && (i, j) != (loc.round, loc.index) ==>
                  r[i][j] == rounds[i][j])
            && MatchAt(r, loc).status == Pending
  {
  }
}
