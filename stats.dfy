/** `updateUserStats`: credit a tournament (and, for the winner, a win) to the
    global user record of a wallet. */
module Stats {
  import opened Common
  import opened Domain

  /** The user exists but has no counters for the game: `gameStats[gameId]` is
      undefined and the increment throws, so the request fails with a 500 and
      nothing is written. New users only carry fifa, cod and chess. */
  predicate StatsCrash(users: Users, wallet: string, gameId: string) {
    Lower(wallet) in users && gameId !in users[Lower(wallet)].gameStats
  }

  /** `after` is `users` with the record of `wallet` credited: one more
      tournament for `gameId`, and one more win there and in total when
      `isWinner`; nothing else changes. Without a record nothing changes. */
  ghost predicate Credited(users: Users, wallet: string, gameId: string, isWinner: bool, now: nat, after: Users) {
    var key := Lower(wallet);
    if key !in users then after == users
    else
      var u := users[key];
      var bonus := if isWinner then 1 else 0;
      && gameId in u.gameStats
      && after.Keys == users.Keys
      && (forall k :: k in users && k != key ==> after[k] == users[k])
      && var v := after[key];
      && v.walletAddress == u.walletAddress && v.platformUsername == u.platformUsername
      && v.totalWins == u.totalWins + bonus
      && v.gameStats.Keys == u.gameStats.Keys
      && v.gameStats[gameId] == GameStats(u.gameStats[gameId].tournaments + 1, u.gameStats[gameId].wins + bonus)
      && (forall g :: g in u.gameStats && g != gameId ==> v.gameStats[g] == u.gameStats[g])
      && v.updatedAt == now
  }

  method UpdateUserStats(users: Users, wallet: string, gameId: string, isWinner: bool, now: nat)
    returns (r: Result<Users>)
    ensures r.Err? <==> StatsCrash(users, wallet, gameId)
    ensures r.Err? ==> r.error == InternalError
    ensures r.Ok? ==> Credited(users, wallet, gameId, isWinner, now, r.value)
  {
    var key := Lower(wallet);
    if key !in users {
      return Ok(users);
    }
    var user := users[key];
    if gameId !in user.gameStats {
      return Err(InternalError);
    }
    var totalWins := user.totalWins;
    var stats := user.gameStats[gameId];
    if isWinner {
      totalWins := totalWins + 1;
      stats := stats.(wins := stats.wins + 1);
    }
    stats := stats.(tournaments := stats.tournaments + 1);
    user := user.(totalWins := totalWins, gameStats := user.gameStats[gameId := stats], updatedAt := now);
    r := Ok(users[key := user]);
  }

  /** Per game, a user never has more wins than tournaments played. */
  ghost predicate WinsWithinTournaments(users: Users) {
    forall k, g :: k in users && g in users[k].gameStats ==>
      users[k].gameStats[g].wins <= users[k].gameStats[g].tournaments
  }

  /** Crediting keeps every user's wins within the tournaments they played. */
  lemma CreditedKeepsWinsWithinTournaments(users: Users, wallet: string, gameId: string, isWinner: bool, now: nat,
                                           after: Users)
    requires Credited(users, wallet, gameId, isWinner, now, after) && WinsWithinTournaments(users)
    ensures WinsWithinTournaments(after)
  {
    var key := Lower(wallet);
    if key in users {
      forall k, g | k in after && g in after[k].gameStats
        ensures after[k].gameStats[g].wins <= after[k].gameStats[g].tournaments
      {
        if k != key {
          assert after[k] == users[k];
        } else if g != gameId {
          assert after[k].gameStats[g] == users[k].gameStats[g];
        }
      }
    }
  }

  /** Crediting keeps the users document keyed by lower-cased wallet. */
  lemma CreditedKeepsKeys(users: Users, wallet: string, gameId: string, isWinner: bool, now: nat, after: Users)
    requires Credited(users, wallet, gameId, isWinner, now, after) && UsersKeyed(users)
    ensures UsersKeyed(after)
  {
    var key := Lower(wallet);
    if key in users {
      forall k | k in after
        ensures Lower(after[k].walletAddress) == k
      {
        if k != key {
          assert after[k] == users[k];
        }
      }
    }
  }
}
