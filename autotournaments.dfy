/** `AutoTournamentManager`: keep one open automatic tournament per configured
    game and size, and delete finished automatic tournaments once their
    retention period is over. */
module AutoTournaments {
  import opened Common
  import opened Domain

  const AutoSizes: seq<nat> := [2, 4, 8, 16]
  const AutoGames: seq<string> := ["fifa", "cod", "chess", "tiktaktoe"]

  /** `cleanupIntervalHours` (24) in milliseconds. */
  const RetentionMs: nat := 24 * 60 * 60 * 1000

  /** An automatic tournament of that size still taking registrations. */
  predicate IsOpenAuto(t: Tournament, size: nat) {
    t.isAutoTournament && t.autoStartPlayerCount == Some(size) && t.status == Registration
  }

  /** `findOpenAutoTournament(game, size)` finds something. */
  predicate HasOpenAutoTournament(g: Game, size: nat) {
    exists k :: k in g.tournaments && IsOpenAuto(g.tournaments[k], size)
  }

  function NewAutoTournament(gameId: string, gameName: string, size: nat, now: nat): (t: Tournament)
    ensures IsOpenAuto(t, size) && t.participants == [] && t.bracket.None?
  {
    Tournament(AutoKey(gameId, size, now), AutoTitle(gameName, size, now), gameId, Registration, [], None,
               Some(size), true, now, None, None, None, None)
  }

  /** `createAutoTournament(gameId, size)`: add a fresh open tournament. */
  function CreateAutoTournament(g: Game, gameId: string, size: nat, now: nat): (r: Game)
    ensures r.name == g.name && r.activeTournamentId == g.activeTournamentId
    ensures HasOpenAutoTournament(r, size)
    ensures AutoKey(gameId, size, now) in r.tournaments
            && r.tournaments[AutoKey(gameId, size, now)] == NewAutoTournament(gameId, g.name, size, now)
    ensures r.tournaments.Keys == g.tournaments.Keys + {AutoKey(gameId, size, now)}
    ensures forall k :: k in g.tournaments && k != AutoKey(gameId, size, now) ==> r.tournaments[k] == g.tournaments[k]
  {
    var key := AutoKey(gameId, size, now);
    var r := g.(tournaments := g.tournaments[key := NewAutoTournament(gameId, g.name, size, now)]);
    assert key in r.tournaments && IsOpenAuto(r.tournaments[key], size);
    r
  }

  // ---------------------------------------------------------------- ensureAutoTournaments

  /** No automatic key already in the game carries the current time, so the
      keys created now overwrite nothing. */
  predicate FreshStamp(g: Game, now: nat) {
    forall k :: k in g.tournaments && k.AutoKey? ==> k.stamp != now
  }

  /** A key this run may create in `game`: its own size, at `now`, for a
      configured size found without an open tournament. */
  predicate NewKey(game: Game, gameId: string, now: nat, k: TournamentKey) {
    k.AutoKey? && k == AutoKey(gameId, k.size, now) && k.size in AutoSizes && !HasOpenAutoTournament(game, k.size)
  }

  /** `after` is `game` plus new open tournaments under new keys only. */
  ghost predicate Ensured(game: Game, gameId: string, now: nat, after: Game) {
    && after.name == game.name && after.activeTournamentId == game.activeTournamentId
    && (forall k :: k in after.tournaments && k !in game.tournaments ==>
          NewKey(game, gameId, now, k) && after.tournaments[k] == NewAutoTournament(gameId, game.name, k.size, now))
    && (forall k :: k in game.tournaments ==>
          k in after.tournaments && (after.tournaments[k] == game.tournaments[k] || NewKey(game, gameId, now, k)))
  }

  lemma EnsuredReflexive(game: Game, gameId: string, now: nat)
    ensures Ensured(game, gameId, now, game)
  {
  }

  /** Adding the tournament for a missing size keeps every open size open. */
  lemma CreateKeepsOpen(game: Game, gameId: string, now: nat, cur: Game, s: nat, s': nat)
    requires Ensured(game, gameId, now, cur) && FreshStamp(game, now)
    requires HasOpenAutoTournament(cur, s')
    ensures HasOpenAutoTournament(CreateAutoTournament(cur, gameId, s, now), s')
  {
    var key := AutoKey(gameId, s, now);
    var next := CreateAutoTournament(cur, gameId, s, now);
    var k :| k in cur.tournaments && IsOpenAuto(cur.tournaments[k], s');
    if k == key {
      assert k !in game.tournaments;
      assert cur.tournaments[k] == NewAutoTournament(gameId, game.name, s, now);
      assert IsOpenAuto(next.tournaments[key], s');
    } else {
      assert next.tournaments[k] == cur.tournaments[k];
    }
  }

  /** The inner loop for one game: create a tournament for each configured
      size without an open one in the snapshot `game`. */
  method EnsureForGame(game: Game, gameId: string, now: nat) returns (after: Game)
    ensures Ensured(game, gameId, now, after)
    ensures FreshStamp(game, now) ==> forall s :: s in AutoSizes ==> HasOpenAutoTournament(after, s)
    ensures (forall s :: s in AutoSizes ==> HasOpenAutoTournament(game, s)) ==> after == game
  {
    after := game;
    EnsuredReflexive(game, gameId, now);
    var j := 0;
    while j < |AutoSizes|
      invariant 0 <= j <= |AutoSizes|
      invariant Ensured(game, gameId, now, after)
      invariant FreshStamp(game, now) ==> forall j' :: 0 <= j' < j ==> HasOpenAutoTournament(after, AutoSizes[j'])
      invariant (forall s :: s in AutoSizes ==> HasOpenAutoTournament(game, s)) ==> after == game
    {
      var size := AutoSizes[j];
      if !HasOpenAutoTournament(game, size) {
        ghost var cur := after;
        after := CreateAutoTournament(after, gameId, size, now);
        var key := AutoKey(gameId, size, now);
        assert NewKey(game, gameId, now, key);
        forall k | k in after.tournaments && k !in game.tournaments
          ensures NewKey(game, gameId, now, k) && after.tournaments[k] == NewAutoTournament(gameId, game.name, k.size, now)
        {
          if k != key {
            assert k in cur.tournaments;
          }
        }
        if FreshStamp(game, now) {
          forall j' | 0 <= j' < j
            ensures HasOpenAutoTournament(after, AutoSizes[j'])
          {
            CreateKeepsOpen(game, gameId, now, cur, size, AutoSizes[j']);
          }
        }
      }
      j := j + 1;
    }
  }

  /** `ensureAutoTournaments`: the inner loop for each configured game that
      exists. */
  method EnsureAutoTournaments(games: Games, now: nat) returns (r: Games)
    ensures r.Keys == games.Keys
    ensures forall g :: g in games && g !in AutoGames ==> r[g] == games[g]
    ensures forall g :: g in games ==> Ensured(games[g], g, now, r[g])
    ensures forall g, s :: g in games && g in AutoGames && s in AutoSizes && FreshStamp(games[g], now) ==>
              HasOpenAutoTournament(r[g], s)
    ensures (forall g, s :: g in games && g in AutoGames && s in AutoSizes ==> HasOpenAutoTournament(games[g], s))
            ==> r == games
  {
    r := games;
    var i := 0;
    while i < |AutoGames|
      invariant 0 <= i <= |AutoGames|
      invariant r.Keys == games.Keys
      invariant forall g :: g in games && g !in AutoGames[..i] ==> r[g] == games[g]
      invariant forall g :: g in games ==> Ensured(games[g], g, now, r[g])
      invariant forall i', s :: 0 <= i' < i && AutoGames[i'] in games && s in AutoSizes && FreshStamp(games[AutoGames[i']], now)
                  ==> HasOpenAutoTournament(r[AutoGames[i']], s)
      invariant (forall g, s :: g in games && g in AutoGames && s in AutoSizes ==> HasOpenAutoTournament(games[g], s))
                ==> r == games
    {
      var gameId := AutoGames[i];
      if gameId in games {
        var after := EnsureForGame(games[gameId], gameId, now);
        r := r[gameId := after];
      }
      assert AutoGames[..i + 1] == AutoGames[..i] + [gameId];
      i := i + 1;
    }
    forall g, s | g in games && g in AutoGames && s in AutoSizes && FreshStamp(games[g], now)
      ensures HasOpenAutoTournament(r[g], s)
    {
      var i' :| 0 <= i' < |AutoGames| && AutoGames[i'] == g;
    }
  }

  // ---------------------------------------------------------------- cleanupOldTournaments

  /** A finished automatic tournament that finished more than the retention
      period before `now`. */
  predicate Stale(t: Tournament, now: nat) {
    t.isAutoTournament && t.status == Finished && t.finishedAt.Some? && t.finishedAt.value + RetentionMs < now
  }

  /** One game's pass: collect the stale ids, then delete them. */
  method PruneGame(ts: map<TournamentKey, Tournament>, now: nat) returns (kept: map<TournamentKey, Tournament>)
    ensures forall k :: k in kept <==> k in ts && !Stale(ts[k], now)
    ensures forall k :: k in kept ==> kept[k] == ts[k]
  {
    var toDelete: set<TournamentKey> := {};
    var todo := ts.Keys;
    while todo != {}
      invariant todo <= ts.Keys && toDelete <= ts.Keys
      invariant forall k :: k in ts && k !in todo ==> (k in toDelete <==> Stale(ts[k], now))
      invariant forall k :: k in toDelete ==> k !in todo
      decreases |todo|
    {
      var k :| k in todo;
      if Stale(ts[k], now) {
        toDelete := toDelete + {k};
      }
      todo := todo - {k};
    }
    kept := ts;
    var pending := toDelete;
    while pending != {}
      invariant pending <= toDelete
      invariant forall k :: k in kept <==> k in ts && (k !in toDelete || k in pending)
      invariant forall k :: k in kept ==> kept[k] == ts[k]
      decreases |pending|
    {
      var k :| k in pending;
      kept := kept - {k};
      pending := pending - {k};
    }
  }

  /** `cleanupOldTournaments`: prune every game; nothing else changes, and no
      tournament in registration or play is ever deleted. */
  method CleanupOldTournaments(games: Games, now: nat) returns (r: Games)
    ensures r.Keys == games.Keys
    ensures forall g :: g in games ==> r[g] == games[g].(tournaments := r[g].tournaments)
    ensures forall g, k :: g in games ==>
              (k in r[g].tournaments <==> k in games[g].tournaments && !Stale(games[g].tournaments[k], now))
    ensures forall g, k :: g in games && k in r[g].tournaments ==> r[g].tournaments[k] == games[g].tournaments[k]
    ensures forall g, k :: g in games && k in games[g].tournaments && games[g].tournaments[k].status != Finished
              ==> k in r[g].tournaments
  {
    r := games;
    var todo := games.Keys;
    while todo != {}
      invariant todo <= games.Keys && r.Keys == games.Keys
      invariant forall g :: g in todo ==> r[g] == games[g]
      invariant forall g :: g in games ==> r[g] == games[g].(tournaments := r[g].tournaments)
      invariant forall g, k :: g in games && g !in todo ==>
                  (k in r[g].tournaments <==> k in games[g].tournaments && !Stale(games[g].tournaments[k], now))
      invariant forall g, k :: g in games && k in r[g].tournaments ==> r[g].tournaments[k] == games[g].tournaments[k]
      decreases |todo|
    {
      var g :| g in todo;
      var kept := PruneGame(games[g].tournaments, now);
      r := r[g := games[g].(tournaments := kept)];
      todo := todo - {g};
    }
  }

  /** What a pass keeps is never stale at the same time, so a second pass
      deletes nothing: cleanup is idempotent. */
  lemma PruneIdempotent(ts: map<TournamentKey, Tournament>, kept: map<TournamentKey, Tournament>,
                        again: map<TournamentKey, Tournament>, now: nat)
    requires forall k :: k in kept <==> k in ts && !Stale(ts[k], now)
    requires forall k :: k in kept ==> kept[k] == ts[k]
    requires forall k :: k in again <==> k in kept && !Stale(kept[k], now)
    requires forall k :: k in again ==> again[k] == kept[k]
    ensures again == kept
  {
  }
}
