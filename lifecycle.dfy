/** The tournament lifecycle routes: create, register (with auto-start),
    unregister, start, reset, cancel and force-complete. */
module Lifecycle {
  import opened Common
  import opened Domain
  import opened Shuffle
  import opened BracketBuilder
  import opened Stats

  // ---------------------------------------------------------------- participants

  /** `participants.findIndex(p => p.walletAddress.toLowerCase() === wallet.toLowerCase())`. */
  function WalletIndex(ps: seq<Player>, wallet: string): (r: Option<nat>)
    ensures r.Some? ==> r.value < |ps| && Lower(ps[r.value].walletAddress) == Lower(wallet)
    ensures r.Some? ==> forall j :: 0 <= j < r.value ==> Lower(ps[j].walletAddress) != Lower(wallet)
    ensures r.None? ==> forall j :: 0 <= j < |ps| ==> Lower(ps[j].walletAddress) != Lower(wallet)
  {
    if ps == [] then None
    else if Lower(ps[0].walletAddress) == Lower(wallet) then Some(0)
    else
      match WalletIndex(ps[1..], wallet)
      case None => None
      case Some(j) => Some(j + 1)
  }

  /** `participants.find(p => p.id === id)`. */
  function PlayerById(ps: seq<Player>, id: string): (r: Option<Player>)
    ensures r.Some? ==> r.value in ps && r.value.id == id
    ensures r.Some? ==> exists i :: 0 <= i < |ps| && ps[i] == r.value && forall j :: 0 <= j < i ==> ps[j].id != id
    ensures r.None? ==> forall j :: 0 <= j < |ps| ==> ps[j].id != id
  {
    if ps == [] then None
    else if ps[0].id == id then Some(ps[0])
    else PlayerById(ps[1..], id)
  }

  lemma SpliceAt<T>(s: seq<T>, i: nat)
    requires i < |s|
    ensures forall k :: 0 <= k < i ==> Splice(s, i)[k] == s[k]
    ensures forall k :: i <= k < |s| - 1 ==> Splice(s, i)[k] == s[k + 1]
  {
  }

  /** Joining appends the wallet at the end, and removing the player found
      there gives back the original list: unregister undoes register. */
  lemma JoinThenLeave(ps: seq<Player>, p: Player, wallet: string)
    requires WalletIndex(ps, wallet).None? && Lower(p.walletAddress) == Lower(wallet)
    ensures WalletIndex(ps + [p], wallet) == Some(|ps|)
    ensures Splice(ps + [p], |ps|) == ps
  {
    var qs := ps + [p];
    assert qs[|ps|] == p;
    assert forall j :: 0 <= j < |ps| ==> qs[j] == ps[j];
    assert qs[..|ps|] == ps;
  }

  /** Joining with a wallet not yet registered keeps the wallets distinct. */
  lemma JoinKeepsDistinct(ps: seq<Player>, p: Player, wallet: string)
    requires DistinctWallets(ps) && WalletIndex(ps, wallet).None? && Lower(p.walletAddress) == Lower(wallet)
    ensures DistinctWallets(ps + [p])
  {
    var qs := ps + [p];
    assert forall j :: 0 <= j < |ps| ==> qs[j] == ps[j];
  }

  /** Over distinct wallets, removing the player found for a wallet leaves the
      rest distinct and that wallet no longer registered. */
  lemma LeaveRemovesWallet(ps: seq<Player>, wallet: string)
    requires DistinctWallets(ps) && WalletIndex(ps, wallet).Some?
    ensures DistinctWallets(Splice(ps, WalletIndex(ps, wallet).value))
    ensures WalletIndex(Splice(ps, WalletIndex(ps, wallet).value), wallet).None?
  {
    var i := WalletIndex(ps, wallet).value;
    var qs := Splice(ps, i);
    SpliceAt(ps, i);
    forall a, b | 0 <= a < b < |qs|
      ensures Lower(qs[a].walletAddress) != Lower(qs[b].walletAddress)
    {
      var a' := if a < i then a else a + 1;
      var b' := if b < i then b else b + 1;
      assert qs[a] == ps[a'] && qs[b] == ps[b'] && a' < b';
    }
    forall j | 0 <= j < |qs|
      ensures Lower(qs[j].walletAddress) != Lower(wallet)
    {
      var j' := if j < i then j else j + 1;
      assert qs[j] == ps[j'] && j' != i;
    }
  }

  // ---------------------------------------------------------------- create

  /** The auto-start sizes the create route accepts. */
  const AutoStartCounts: seq<nat> := [2, 4, 8, 16, 32, 64]

  /** `autoStartPlayerCount || null`: a missing or zero count is no count. */
  function StoredCount(autoStart: Option<nat>): Option<nat> {
    if autoStart == Some(0) then None else autoStart
  }

  /** The active tournament id, when set, names a tournament of the game. */
  predicate ActiveExists(g: Game) {
    g.activeTournamentId.Some? ==> g.activeTournamentId.value in g.tournaments
  }

  method CreateTournament(games: Games, gameId: string, name: string, autoStart: Option<nat>, now: nat)
    returns (r: Result<Game>)
    ensures name == "" ==> r == Err(NameRequired)
    ensures (name != "" && StoredCount(autoStart).Some? && StoredCount(autoStart).value !in AutoStartCounts)
            ==> r == Err(InvalidAutoStartCount)
    ensures (name != "" && (StoredCount(autoStart).None? || StoredCount(autoStart).value in AutoStartCounts)
             && gameId !in games) ==> r == Err(GameNotFound)
    ensures r.Ok? ==>
            && name != "" && gameId in games
            && var g := games[gameId]; var key := ManualKey(now);
            && r.value.name == g.name
            && r.value.tournaments == g.tournaments[key := Tournament(key, Title(name), gameId, Registration, [], None,
                                                                     StoredCount(autoStart), false, now,
                                                                     None, None, None, None)]
            && r.value.activeTournamentId == (if g.activeTournamentId.None? then Some(key) else g.activeTournamentId)
    ensures r.Ok? && ActiveExists(games[gameId]) ==> ActiveExists(r.value)
    ensures r.Err? <==> name == "" || (StoredCount(autoStart).Some? && StoredCount(autoStart).value !in AutoStartCounts)
                        || gameId !in games
  {
    if name == "" {
      return Err(NameRequired);
    }
    var count := StoredCount(autoStart);
    if count.Some? && count.value !in AutoStartCounts {
      return Err(InvalidAutoStartCount);
    }
    if gameId !in games {
      return Err(GameNotFound);
    }
    var g := games[gameId];
    var key := ManualKey(now);
    var t := Tournament(key, Title(name), gameId, Registration, [], None, count, false, now, None, None, None, None);
    g := g.(tournaments := g.tournaments[key := t]);
    if g.activeTournamentId.None? {
      g := g.(activeTournamentId := Some(key));
    }
    r := Ok(g);
  }

  // ---------------------------------------------------------------- register / unregister

  /** Register reaches its duplicate check: a wallet with a global record and
      an existing tournament. */
  predicate RegisterReaches(games: Games, users: Users, gameId: string, tid: TournamentKey, wallet: string) {
    wallet != "" && Lower(wallet) in users && Lookup(games, gameId, tid).Some?
  }

  /** Registration makes the tournament start once it holds its auto-start
      count of players. */
  predicate AutoStarts(t: Tournament, count: nat) {
    t.autoStartPlayerCount.Some? && t.autoStartPlayerCount.value != 0 && count >= t.autoStartPlayerCount.value
  }

  method Register(games: Games, users: Users, gameId: string, tid: TournamentKey, wallet: string,
                  participantId: string, now: nat, shufflePick: nat -> nat, byePick: nat -> nat, stamp: nat)
    returns (r: Result<Tournament>)
    ensures wallet == "" ==> r == Err(WalletRequired)
    ensures wallet != "" && Lower(wallet) !in users ==> r == Err(UserNotRegistered)
    ensures (wallet != "" && Lower(wallet) in users && gameId !in games) ==> r == Err(GameNotFound)
    ensures (wallet != "" && Lower(wallet) in users && gameId in games && tid !in games[gameId].tournaments)
            ==> r == Err(TournamentNotFound)
    ensures RegisterReaches(games, users, gameId, tid, wallet) ==>
            var t := Lookup(games, gameId, tid).value;
            var u := users[Lower(wallet)];
            var ps := t.participants + [Player(participantId, u.walletAddress, u.platformUsername, now)];
            && (t.status != Registration ==> r == Err(RegistrationClosed))
            && (t.status == Registration && WalletIndex(t.participants, wallet).Some? ==> r == Err(AlreadyRegistered))
            && (t.status == Registration && WalletIndex(t.participants, wallet).None? ==>
                  && r.Ok? && r.value.participants == ps
                  && (!AutoStarts(t, |ps|) ==> r.value == t.(participants := ps))
                  && (AutoStarts(t, |ps|) ==>
                        && r.value == t.(participants := ps, status := Started, startedAt := Some(now),
                                         bracket := r.value.bracket)
                        && r.value.bracket.Some? && IsFreshBracket(r.value.bracket.value, ps)))
    ensures r.Ok? && UsersKeyed(users) && DistinctWallets(Lookup(games, gameId, tid).value.participants)
            ==> DistinctWallets(r.value.participants)
  {
    if wallet == "" {
      return Err(WalletRequired);
    }
    var key := Lower(wallet);
    if key !in users {
      return Err(UserNotRegistered);
    }
    if gameId !in games {
      return Err(GameNotFound);
    }
    if tid !in games[gameId].tournaments {
      return Err(TournamentNotFound);
    }
    var t := games[gameId].tournaments[tid];
    if t.status != Registration {
      return Err(RegistrationClosed);
    }
    if WalletIndex(t.participants, wallet).Some? {
      return Err(AlreadyRegistered);
    }
    var u := users[key];
    var joined := Player(participantId, u.walletAddress, u.platformUsername, now);
    ghost var before := t.participants;
    t := t.(participants := t.participants + [joined]);
    if t.autoStartPlayerCount.Some? && t.autoStartPlayerCount.value != 0
       && |t.participants| >= t.autoStartPlayerCount.value {
      var bracket := CreateBracket(t.participants, shufflePick, byePick, stamp);
      t := t.(status := Started, startedAt := Some(now), bracket := Some(bracket));
    }
    r := Ok(t);
    if UsersKeyed(users) && DistinctWallets(before) {
      JoinKeepsDistinct(before, joined, wallet);
    }
  }

  method Unregister(games: Games, gameId: string, tid: TournamentKey, wallet: string) returns (r: Result<Tournament>)
    ensures wallet == "" ==> r == Err(WalletRequired)
    ensures wallet != "" && gameId !in games ==> r == Err(GameNotFound)
    ensures (wallet != "" && gameId in games && tid !in games[gameId].tournaments) ==> r == Err(TournamentNotFound)
    ensures (wallet != "" && Lookup(games, gameId, tid).Some?) ==>
            var t := Lookup(games, gameId, tid).value;
            && (t.status != Registration ==> r == Err(UnregisterClosed))
            && (t.status == Registration && WalletIndex(t.participants, wallet).None? ==> r == Err(NotRegistered))
            && (t.status == Registration && WalletIndex(t.participants, wallet).Some? ==>
                  r == Ok(t.(participants := Splice(t.participants, WalletIndex(t.participants, wallet).value))))
    ensures r.Ok? && DistinctWallets(Lookup(games, gameId, tid).value.participants) ==>
            DistinctWallets(r.value.participants) && WalletIndex(r.value.participants, wallet).None?
  {
    if wallet == "" {
      return Err(WalletRequired);
    }
    if gameId !in games {
      return Err(GameNotFound);
    }
    if tid !in games[gameId].tournaments {
      return Err(TournamentNotFound);
    }
    var t := games[gameId].tournaments[tid];
    if t.status != Registration {
      return Err(UnregisterClosed);
    }
    var index := WalletIndex(t.participants, wallet);
    if index.None? {
      return Err(NotRegistered);
    }
    if DistinctWallets(t.participants) {
      LeaveRemovesWallet(t.participants, wallet);
    }
    r := Ok(t.(participants := Splice(t.participants, index.value)));
  }

  // ---------------------------------------------------------------- start / reset / cancel

  /** The start route: at least two players, and not already started (a
      finished tournament may be started again). */
  method Start(games: Games, gameId: string, tid: TournamentKey, now: nat,
               shufflePick: nat -> nat, byePick: nat -> nat, stamp: nat)
    returns (r: Result<Tournament>)
    ensures Lookup(games, gameId, tid).None? ==> r == Err(TournamentNotFound)
    ensures Lookup(games, gameId, tid).Some? ==>
            var t := Lookup(games, gameId, tid).value;
            && (|t.participants| < 2 ==> r == Err(NotEnoughPlayers))
            && (|t.participants| >= 2 && t.status == Started ==> r == Err(AlreadyStarted))
            && (|t.participants| >= 2 && t.status != Started ==>
                  && r.Ok? && r.value == t.(status := Started, startedAt := Some(now), bracket := r.value.bracket)
                  && r.value.bracket.Some? && IsFreshBracket(r.value.bracket.value, t.participants))
  {
    var found := Lookup(games, gameId, tid);
    if found.None? {
      return Err(TournamentNotFound);
    }
    var t := found.value;
    if |t.participants| < 2 {
      return Err(NotEnoughPlayers);
    }
    if t.status == Started {
      return Err(AlreadyStarted);
    }
    var bracket := CreateBracket(t.participants, shufflePick, byePick, stamp);
    r := Ok(t.(status := Started, startedAt := Some(now), bracket := Some(bracket)));
  }

  /** A started tournament holds a bracket over its participants (two or
      more, played in distinct matches when the wallets are distinct). */
  lemma StartedBracketDistinct(t: Tournament)
    requires t.bracket.Some? && IsFreshBracket(t.bracket.value, t.participants)
    requires |t.participants| >= 2 && DistinctWallets(t.participants)
    ensures forall p :: p in t.bracket.value.playersWithByes ==> p !in RoundPlayers(t.bracket.value.rounds[0])
    ensures NoDuplicates(RoundPlayers(t.bracket.value.rounds[0]))
  {
    DistinctWalletsNoDuplicates(t.participants);
    var b := t.bracket.value;
    FreshBracketDistinct(b, t.participants);
    var all := b.playersWithByes + RoundPlayers(b.rounds[0]);
    forall i, j | 0 <= i < j < |RoundPlayers(b.rounds[0])|
      ensures RoundPlayers(b.rounds[0])[i] != RoundPlayers(b.rounds[0])[j]
    {
      assert all[|b.playersWithByes| + i] == RoundPlayers(b.rounds[0])[i];
      assert all[|b.playersWithByes| + j] == RoundPlayers(b.rounds[0])[j];
    }
  }

  /** The reset route: only in registration; clears players, bracket and
      result. */
  method ResetTournament(games: Games, gameId: string, tid: TournamentKey, now: nat) returns (r: Result<Tournament>)
    ensures Lookup(games, gameId, tid).None? ==> r == Err(TournamentNotFound)
    ensures Lookup(games, gameId, tid).Some? ==>
            var t := Lookup(games, gameId, tid).value;
            && (t.status != Registration ==> r == Err(NotInRegistration))
            && (t.status == Registration ==>
                  && r.Ok? && r.value.participants == [] && r.value.bracket.None? && r.value.winner.None?
                  && r.value.finishedAt.None? && r.value.updatedAt == Some(now)
                  && r.value == t.(participants := [], bracket := None, winner := None, finishedAt := None,
                                   updatedAt := Some(now)))
  {
    var found := Lookup(games, gameId, tid);
    if found.None? {
      return Err(TournamentNotFound);
    }
    var t := found.value;
    if t.status != Registration {
      return Err(NotInRegistration);
    }
    t := t.(participants := [], bracket := None, winner := None, finishedAt := None, updatedAt := Some(now));
    r := Ok(t);
  }

  /** The cancel route: everything but a finished tournament is deleted, and
      the game's active id is cleared when it named it. */
  method Cancel(games: Games, gameId: string, tid: TournamentKey) returns (r: Result<Game>)
    ensures Lookup(games, gameId, tid).None? ==> r == Err(TournamentNotFound)
    ensures Lookup(games, gameId, tid).Some? && Lookup(games, gameId, tid).value.status == Finished
            ==> r == Err(FinishedNotCancellable)
    ensures Lookup(games, gameId, tid).Some? && Lookup(games, gameId, tid).value.status != Finished ==>
            var g := games[gameId];
            && r.Ok? && r.value.name == g.name
            && r.value.tournaments.Keys == g.tournaments.Keys - {tid}
            && (forall k :: k in r.value.tournaments ==> r.value.tournaments[k] == g.tournaments[k])
            && r.value.activeTournamentId == (if g.activeTournamentId == Some(tid) then None else g.activeTournamentId)
    ensures r.Ok? && ActiveExists(games[gameId]) ==> ActiveExists(r.value)
  {
    var found := Lookup(games, gameId, tid);
    if found.None? {
      return Err(TournamentNotFound);
    }
    if found.value.status == Finished {
      return Err(FinishedNotCancellable);
    }
    var g := games[gameId];
    g := g.(tournaments := g.tournaments - {tid});
    if g.activeTournamentId == Some(tid) {
      g := g.(activeTournamentId := None);
    }
    r := Ok(g);
  }

  // ---------------------------------------------------------------- force-complete

  /** The force-complete route: the named participant wins outright and is
      credited, whatever state the tournament was in. */
  method ForceComplete(games: Games, users: Users, gameId: string, tid: TournamentKey, winnerId: string, now: nat)
    returns (r: Result<(Tournament, Users)>)
    ensures Lookup(games, gameId, tid).None? ==> r == Err(TournamentNotFound)
    ensures Lookup(games, gameId, tid).Some? ==>
            var t := Lookup(games, gameId, tid).value;
            && (winnerId == "" ==> r == Err(WinnerIdRequired))
            && (winnerId != "" && PlayerById(t.participants, winnerId).None? ==> r == Err(WinnerNotParticipant))
            && (winnerId != "" && PlayerById(t.participants, winnerId).Some? ==>
                  var w := PlayerById(t.participants, winnerId).value;
                  && (StatsCrash(users, w.walletAddress, gameId) ==> r == Err(InternalError))
                  && (!StatsCrash(users, w.walletAddress, gameId) ==>
                        && r.Ok?
                        && r.value.0 == t.(status := Finished, finishedAt := Some(now), winner := Some(w),
                                           bracket := if t.bracket.Some?
                                                      then Some(t.bracket.value.(isComplete := true, winner := Some(w)))
                                                      else None)
                        && Credited(users, w.walletAddress, gameId, true, now, r.value.1)))
    ensures r.Ok? ==> r.value.0.status == Finished && r.value.0.winner.Some?
                      && r.value.0.winner.value in Lookup(games, gameId, tid).value.participants
  {
    var found := Lookup(games, gameId, tid);
    if found.None? {
      return Err(TournamentNotFound);
    }
    var t := found.value;
    if winnerId == "" {
      return Err(WinnerIdRequired);
    }
    var winner := PlayerById(t.participants, winnerId);
    if winner.None? {
      return Err(WinnerNotParticipant);
    }
    var w := winner.value;
    t := t.(status := Finished, finishedAt := Some(now), winner := Some(w));
    if t.bracket.Some? {
      t := t.(bracket := Some(t.bracket.value.(isComplete := true, winner := Some(w))));
    }
    var credited := UpdateUserStats(users, w.walletAddress, gameId, true, now);
    if credited.Err? {
      return Err(credited.error);
    }
    r := Ok((t, credited.value));
  }
}
