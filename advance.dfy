/** `checkAndAdvanceRound`: once every match of a round is completed, its
    winners (and, after the first round, the players with byes) either crown
    the champion or are paired into the next round. */
module Advancement {
  import opened Common
  import opened Domain
  import opened BracketBuilder
  import opened Stats

  predicate AllCompleted(round: Round) {
    forall k :: 0 <= k < |round| ==> round[k].status.Completed?
  }

  /** `currentRound.map(m => m.winner)`. */
  function Winners(round: Round): (ws: seq<Player>)
    requires AllCompleted(round)
    ensures |ws| == |round|
    ensures forall k :: 0 <= k < |round| ==> ws[k] == round[k].status.winner
  {
    seq(|round|, k requires 0 <= k < |round| => round[k].status.winner)
  }

  /** Players advancing out of round `idx`: its winners in match order, then
      the players with byes when `idx` is the first round. */
  function Advancing(b: Bracket, idx: nat): (ps: seq<Player>)
    requires idx < |b.rounds| && AllCompleted(b.rounds[idx])
    ensures |ps| == |b.rounds[idx]| + (if idx == 0 then |b.playersWithByes| else 0)
    ensures ps[..|b.rounds[idx]|] == Winners(b.rounds[idx])
    ensures idx == 0 ==> ps[|b.rounds[idx]|..] == b.playersWithByes
  {
    Winners(b.rounds[idx]) + (if idx == 0 then b.playersWithByes else [])
  }

  /** The replacement auto tournament the finish of an automatic one asks for
      (created later by a timer, which is not part of this model). */
  datatype Replacement = Replacement(gameId: string, size: Option<nat>)

  /** What a handler that may advance the bracket hands back: the tournament,
      the users document, and a replacement request, if any. */
  datatype Advanced = Advanced(tournament: Tournament, users: Users, replacement: Option<Replacement>)

  /** The effect of `checkAndAdvanceRound(…, gameId, …, idx)` on tournament
      `t`, with users `users`, at time `now`, naming new matches with `stamp`. */
  ghost predicate AdvanceSpec(t: Tournament, users: Users, gameId: string, idx: int, now: nat, stamp: nat,
                              r: Result<Advanced>)
  {
    if t.bracket.None? || idx < 0 || idx >= |t.bracket.value.rounds| then r == Err(InternalError)
    else
      var b := t.bracket.value;
      if !AllCompleted(b.rounds[idx]) then r == Ok(Advanced(t, users, None))
      else
        var adv := Advancing(b, idx);
        var b1 := if idx == 0 then b.(playersWithByes := []) else b;
        if |adv| == 1 then
          var w := adv[0];
          if StatsCrash(users, w.walletAddress, gameId) then r == Err(InternalError)
          else
            && r.Ok?
            && r.value.tournament == t.(status := Finished, finishedAt := Some(now), winner := Some(w),
                                        bracket := Some(b1.(isComplete := true, winner := Some(w))))
            && Credited(users, w.walletAddress, gameId, true, now, r.value.users)
            && r.value.replacement == (if t.isAutoTournament then Some(Replacement(gameId, t.autoStartPlayerCount)) else None)
        else if idx + 1 == b.currentRound then
          r == Ok(Advanced(t.(bracket := Some(b1.(currentRound := b.currentRound + 1,
                                                   rounds := b.rounds + [Pairing(adv, stamp, Some(b.currentRound + 1))]))),
                           users, None))
        else
          r == Ok(Advanced(t.(bracket := Some(b1)), users, None))
  }

  method AdvanceRound(t: Tournament, users: Users, gameId: string, idx: int, now: nat, stamp: nat)
    returns (r: Result<Advanced>)
    ensures AdvanceSpec(t, users, gameId, idx, now, stamp, r)
  {
    if t.bracket.None? || idx < 0 || idx >= |t.bracket.value.rounds| {
      return Err(InternalError);
    }
    var b := t.bracket.value;
    var round := b.rounds[idx];
    var i := 0;
    while i < |round|
      invariant 0 <= i <= |round|
      invariant forall k :: 0 <= k < i ==> round[k].status.Completed?
    {
      if !round[i].status.Completed? {
        return Ok(Advanced(t, users, None));
      }
      i := i + 1;
    }
    var advancing := Winners(round);
    if idx == 0 {
      advancing := advancing + b.playersWithByes;
      b := b.(playersWithByes := []);
    }
    assert advancing == Advancing(t.bracket.value, idx);
    if |advancing| == 1 {
      var w := advancing[0];
      b := b.(isComplete := true, winner := Some(w));
      var finished := t.(status := Finished, finishedAt := Some(now), winner := Some(w), bracket := Some(b));
      var credited := UpdateUserStats(users, w.walletAddress, gameId, true, now);
      if credited.Err? {
        return Err(credited.error);
      }
      var replacement := if t.isAutoTournament then Some(Replacement(gameId, t.autoStartPlayerCount)) else None;
      r := Ok(Advanced(finished, credited.value, replacement));
    } else if idx + 1 == b.currentRound {
      var nextRound := PairUp(advancing, stamp, Some(b.currentRound + 1));
      b := b.(currentRound := b.currentRound + 1, rounds := b.rounds + [nextRound]);
      r := Ok(Advanced(t.(bracket := Some(b)), users, None));
    } else {
      r := Ok(Advanced(t.(bracket := Some(b)), users, None));
    }
  }

  // ---------------------------------------------------------------- properties

  /** Nothing changes while some match of the round is still pending. */
  lemma PendingRoundChangesNothing(t: Tournament, users: Users, gameId: string, idx: nat, now: nat, stamp: nat,
                                   r: Result<Advanced>)
    requires AdvanceSpec(t, users, gameId, idx, now, stamp, r)
    requires t.bracket.Some? && idx < |t.bracket.value.rounds|
    requires exists k :: 0 <= k < |t.bracket.value.rounds[idx]| && t.bracket.value.rounds[idx][k].status.Pending?
    ensures r == Ok(Advanced(t, users, None))
  {
  }

  /** Out of the first round of a fresh bracket, once it is played, half the
      bracket size advances: one winner per match plus every bye. `played` is
      the bracket later on, with round 0 completed and the byes still there. */
  lemma FreshFirstRoundAdvancing(b: Bracket, players: seq<Player>, played: Bracket)
    requires IsFreshBracket(b, players) && |players| >= 2
    requires |played.rounds| >= 1 && |played.rounds[0]| == |b.rounds[0]| && AllCompleted(played.rounds[0])
    requires played.playersWithByes == b.playersWithByes
    ensures |Advancing(played, 0)| == b.bracketSize / 2
  {
    FirstRoundAdvancing(b, players);
  }

  /** When the bracket moves on, exactly one round is appended: earlier rounds
      are kept, the byes are gone, and the new round pairs the advancing
      players in order into ⌊k/2⌋ fresh matches. */
  lemma NextRoundShape(t: Tournament, users: Users, gameId: string, idx: nat, now: nat, stamp: nat,
                       r: Result<Advanced>)
    requires AdvanceSpec(t, users, gameId, idx, now, stamp, r)
    requires t.bracket.Some? && idx < |t.bracket.value.rounds| && AllCompleted(t.bracket.value.rounds[idx])
    requires |Advancing(t.bracket.value, idx)| != 1 && idx + 1 == t.bracket.value.currentRound
    ensures r.Ok? && r.value.users == users && r.value.replacement.None?
    ensures var b := t.bracket.value; var b' := r.value.tournament.bracket.value;
            var adv := Advancing(b, idx);
            && r.value.tournament.bracket.Some?
            && b'.currentRound == b.currentRound + 1
            && |b'.rounds| == |b.rounds| + 1 && b'.rounds[..|b.rounds|] == b.rounds
            && (idx == 0 ==> b'.playersWithByes == [])
            && |b'.rounds[|b.rounds|]| == |adv| / 2
            && (forall k :: 0 <= k < |adv| / 2 ==> IsFresh(b'.rounds[|b.rounds|][k]))
            && RoundPlayers(b'.rounds[|b.rounds|]) == adv[..2 * (|adv| / 2)]
  {
    var b := t.bracket.value;
    var adv := Advancing(b, idx);
    PairingShape(adv, stamp, Some(b.currentRound + 1));
    PairingPlayers(adv, stamp, Some(b.currentRound + 1));
    var b' := r.value.tournament.bracket.value;
    assert b'.rounds == b.rounds + [Pairing(adv, stamp, Some(b.currentRound + 1))];
  }

  /** One advancement step from a field of k players, k a power of two of at
      least 2, appends a round of k/2 matches — the first term of
      `MatchesToFinish(k)` — after which k/2 players (again a power of two)
      remain, and no byes join at the new round's index. */
  lemma AdvanceHalvesField(t: Tournament, users: Users, gameId: string, idx: nat, now: nat, stamp: nat,
                           r: Result<Advanced>)
    requires AdvanceSpec(t, users, gameId, idx, now, stamp, r)
    requires t.bracket.Some? && idx < |t.bracket.value.rounds| && AllCompleted(t.bracket.value.rounds[idx])
    requires idx + 1 == t.bracket.value.currentRound
    requires IsPowerOfTwo(|Advancing(t.bracket.value, idx)|) && |Advancing(t.bracket.value, idx)| >= 2
    ensures r.Ok? && r.value.tournament.bracket.Some?
    ensures var k := |Advancing(t.bracket.value, idx)|;
            var b := t.bracket.value; var b' := r.value.tournament.bracket.value;
            && |b'.rounds| == |b.rounds| + 1 && |b.rounds| != 0
            && |b'.rounds[|b.rounds|]| == k / 2
            && IsPowerOfTwo(k / 2)
            && MatchesToFinish(k) == |b'.rounds[|b.rounds|]| + MatchesToFinish(k / 2)
  {
    NextRoundShape(t, users, gameId, idx, now, stamp, r);
  }

  /** When a single player advances, the tournament is finished with that
      player as the winner of both the tournament and the bracket, and only
      that player's record gains a tournament and a win. */
  lemma FinishCrownsWinner(t: Tournament, users: Users, gameId: string, idx: nat, now: nat, stamp: nat,
                           r: Result<Advanced>)
    requires AdvanceSpec(t, users, gameId, idx, now, stamp, r)
    requires t.bracket.Some? && idx < |t.bracket.value.rounds| && AllCompleted(t.bracket.value.rounds[idx])
    requires |Advancing(t.bracket.value, idx)| == 1
    requires !StatsCrash(users, Advancing(t.bracket.value, idx)[0].walletAddress, gameId)
    ensures r.Ok?
    ensures var w := Advancing(t.bracket.value, idx)[0]; var t' := r.value.tournament;
            && t'.status == Finished && t'.winner == Some(w)
            && t'.bracket.Some? && t'.bracket.value.isComplete && t'.bracket.value.winner == Some(w)
            && t'.bracket.value.rounds == t.bracket.value.rounds
            && t'.participants == t.participants
    ensures var key := Lower(Advancing(t.bracket.value, idx)[0].walletAddress);
            && r.value.users.Keys == users.Keys
            && (forall k :: k in users && k != key ==> r.value.users[k] == users[k])
            && (key in users ==> r.value.users[key].totalWins == users[key].totalWins + 1)
  {
  }

  /** Bracket bookkeeping kept by advancement: one materialised round per
      value of `currentRound`. */
  predicate RoundsMaterialised(b: Bracket) {
    b.currentRound == |b.rounds|
  }

  lemma AdvanceKeepsRoundsMaterialised(t: Tournament, users: Users, gameId: string, idx: int, now: nat, stamp: nat,
                                       r: Result<Advanced>)
    requires AdvanceSpec(t, users, gameId, idx, now, stamp, r)
    requires t.bracket.Some? && RoundsMaterialised(t.bracket.value)
    requires r.Ok?
    ensures r.value.tournament.bracket.Some? && RoundsMaterialised(r.value.tournament.bracket.value)
  {
  }

  /** Advancement only ever appends rounds: every existing match stays where
      it is, with its contents. */
  lemma AdvanceKeepsRounds(t: Tournament, users: Users, gameId: string, idx: int, now: nat, stamp: nat,
                           r: Result<Advanced>)
    requires AdvanceSpec(t, users, gameId, idx, now, stamp, r)
    requires t.bracket.Some? && r.Ok?
    ensures r.value.tournament.bracket.Some?
    ensures |t.bracket.value.rounds| <= |r.value.tournament.bracket.value.rounds|
    ensures r.value.tournament.bracket.value.rounds[..|t.bracket.value.rounds|] == t.bracket.value.rounds
  {
    var b := t.bracket.value;
    var rounds' := r.value.tournament.bracket.value.rounds;
    if rounds' != b.rounds {
      assert rounds' == b.rounds + [Pairing(Advancing(b, idx), stamp, Some(b.currentRound + 1))];
    }
  }
}
