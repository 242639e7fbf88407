/** The documents the engine works on: the games document (games -> tournaments
    -> bracket -> rounds -> matches) and the global users document. They are
    values; a handler returns the changed value and the route writes it back. */
module Domain {
  import opened Common

  /** A tournament participant, copied from the global user record when
      registering. `id` is the registration timestamp rendered as a string. */
  datatype Player = Player(id: string, walletAddress: string, platformUsername: string, registrationTime: nat)

  /** Match ids are template strings: `match_<stamp>_<slot>` in the first
      round and `match_<stamp>_<slot>_round<round>` in later ones. */
  datatype MatchId =
    | FirstRoundMatch(stamp: nat, slot: nat)
    | LaterRoundMatch(stamp: nat, slot: nat, round: nat)

  /** A match is pending until it is completed; a completed match always has
      its winner set, and only completed matches have one. */
  datatype MatchStatus = Pending | Completed(winner: Player)

  /** Who finalised the match: the two players' agreeing submissions ('auto'),
      an administrator ('admin'), or nobody yet. */
  datatype CompletedBy = Auto | Admin | Unset

  /** One player's reported result, always from player1's point of view. */
  datatype Submission = Submission(submittedBy: string, walletAddress: string, score1: int, score2: int,
                                   submittedAt: nat, conflict: bool)

  datatype Mark = X | O

  datatype MoveRecord = MoveRecord(player: string, symbol: Mark, position: nat, timestamp: nat)

  /** The tic-tac-toe board kept inside a match of that game. */
  datatype GameState = GameState(board: seq<Option<Mark>>, currentPlayer: string, moves: seq<MoveRecord>, startedAt: nat)

  datatype Match = Match(
    id: MatchId,
    player1: Player,
    player2: Player,
    status: MatchStatus,
    score1: Option<int>,
    score2: Option<int>,
    pendingResults: seq<Submission>,
    completedBy: CompletedBy,
    completedAt: Option<nat>,
    gameState: Option<GameState>,
    gameResult: Option<Mark>)

  type Round = seq<Match>

  datatype Bracket = Bracket(
    bracketSize: nat,
    totalRounds: nat,
    currentRound: nat,              // number of rounds materialised so far
    rounds: seq<Round>,
    playersWithByes: seq<Player>,   // sit out round 0, join round 1
    isComplete: bool,
    winner: Option<Player>)

  datatype TournamentStatus = Registration | Started | Finished

  /** Tournament ids: `tournament_<stamp>` for those created by hand and
      `auto_tournament_<game>_<size>p_<stamp>` for automatic ones. */
  datatype TournamentKey =
    | ManualKey(stamp: nat)
    | AutoKey(gameId: string, size: nat, stamp: nat)

  /** A name given by the creator, or the generated `<game> <size>P - <date>`. */
  datatype Title = Title(text: string) | AutoTitle(gameName: string, size: nat, stamp: nat)

  datatype Tournament = Tournament(
    id: TournamentKey,
    name: Title,
    gameId: string,
    status: TournamentStatus,
    participants: seq<Player>,
    bracket: Option<Bracket>,
    autoStartPlayerCount: Option<nat>,
    isAutoTournament: bool,
    createdAt: nat,
    startedAt: Option<nat>,
    finishedAt: Option<nat>,
    updatedAt: Option<nat>,
    winner: Option<Player>)

  datatype Game = Game(name: string, tournaments: map<TournamentKey, Tournament>, activeTournamentId: Option<TournamentKey>)

  type Games = map<string, Game>

  /** `gamesData.games[gameId]?.tournaments[tournamentId]`. */
  function Lookup(games: Games, gameId: string, tid: TournamentKey): (r: Option<Tournament>)
    ensures r.Some? <==> gameId in games && tid in games[gameId].tournaments
    ensures r.Some? ==> r.value == games[gameId].tournaments[tid]
  {
    if gameId in games && tid in games[gameId].tournaments then Some(games[gameId].tournaments[tid]) else None
  }

  datatype GameStats = GameStats(tournaments: nat, wins: nat)

  datatype User = User(walletAddress: string, platformUsername: string, totalWins: nat,
                       gameStats: map<string, GameStats>, updatedAt: nat)

  /** Global users, keyed by the lower-cased wallet address. */
  type Users = map<string, User>

  /** The users document is keyed by the lower-cased wallet of each record. */
  ghost predicate UsersKeyed(users: Users) {
    forall k :: k in users ==> Lower(users[k].walletAddress) == k
  }

  /** No two participants share a wallet address, ignoring case. */
  ghost predicate DistinctWallets(ps: seq<Player>) {
    forall i, j :: 0 <= i < j < |ps| ==> Lower(ps[i].walletAddress) != Lower(ps[j].walletAddress)
  }

  ghost predicate NoDuplicates<T>(s: seq<T>) {
    forall i, j :: 0 <= i < j < |s| ==> s[i] != s[j]
  }

  lemma DistinctWalletsNoDuplicates(ps: seq<Player>)
    requires DistinctWallets(ps)
    ensures NoDuplicates(ps)
  {
  }

  /** The players of a round, match by match: player1 then player2. */
  function RoundPlayers(round: Round): (ps: seq<Player>)
    ensures |ps| == 2 * |round|
    ensures forall k :: 0 <= k < |round| ==> ps[2 * k] == round[k].player1 && ps[2 * k + 1] == round[k].player2
  {
    if round == [] then [] else [round[0].player1, round[0].player2] + RoundPlayers(round[1..])
  }

  /** Location of a match in a bracket: round index, then index in the round. */
  datatype Location = Location(round: nat, index: nat)

  predicate ValidLocation(rounds: seq<Round>, loc: Location) {
    loc.round < |rounds| && loc.index < |rounds[loc.round]|
  }

  function MatchAt(rounds: seq<Round>, loc: Location): Match
    requires ValidLocation(rounds, loc)
  {
    rounds[loc.round][loc.index]
  }

  /** The bracket with the match at `loc` replaced and every other match kept. */
  function SetMatch(rounds: seq<Round>, loc: Location, m: Match): (r: seq<Round>)
    requires ValidLocation(rounds, loc)
    ensures |r| == |rounds| && ValidLocation(r, loc) && MatchAt(r, loc) == m
    ensures forall i :: 0 <= i < |r| ==> |r[i]| == |rounds[i]|
    ensures forall i, j :: 0 <= i < |r| && 0 <= j < |r[i]| && (i != loc.round || j != loc.index) ==> r[i][j] == rounds[i][j]
  {
    rounds[loc.round := rounds[loc.round][loc.index := m]]
  }

  /** Replaces the match at `loc` of a started tournament's bracket. */
  function WithMatch(t: Tournament, loc: Location, m: Match): Tournament
    requires t.bracket.Some? && ValidLocation(t.bracket.value.rounds, loc)
  {
    t.(bracket := Some(t.bracket.value.(rounds := SetMatch(t.bracket.value.rounds, loc, m))))
  }
}
