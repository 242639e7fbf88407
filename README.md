# Tournament engine of the tournament server, in Dafny

This project models the core of a small tournament server (`server.js`): single-elimination brackets,
the match lifecycle, and round advancement. The core covers:

- building the bracket: a Fisher–Yates shuffle, a power-of-two size, byes drawn without replacement,
  and pairing into the first round;
- the result protocol of a match: two player reports that agree or conflict, an administrator
  override, and reopening a match;
- round advancement until a champion is crowned, with the winner's global statistics credited;
- the tournament routes: create, register (with auto-start), unregister, start, reset, cancel and
  force-complete;
- the automatic-tournament bookkeeping: one open tournament per configured game and size, and
  removal of finished ones after 24 hours;
- the tic-tac-toe move route, which plays a match on a board stored in the match.

The server keeps two JSON documents: the games (game → tournaments → bracket → rounds → matches)
and the global users. Both are modelled as Dafny values.

- Every route handler is a method that takes the documents it reads and returns a `Result`.
  - `Ok` carries the changed document, which the route writes back.
  - `Err` names the error the route answers with. On that path nothing is written.
- Randomness (`Math.random`) is a caller-supplied function `pick: nat -> nat`. The draw of step `i`
  over a pool of size `k` is `pick(i) % k`, so every possible run corresponds to one `pick`, and
  every property is proved for all of them.
- Time (`Date.now`, `new Date()`) is a `nat` parameter: `now` for timestamps, and `stamp` for the
  number embedded in generated ids.
- Ids are structured values rather than strings: `MatchId`, `TournamentKey`, `Title`.
- Winner and status are folded into `MatchStatus = Pending | Completed(winner)`. Every route sets
  a winner exactly when it completes a match, and clears it exactly when it reopens one.

Modules, in dependency order:

| module | file | models |
|---|---|---|
| `Common` | common.dfy | options, results, the error answers, ASCII lower-casing of wallets |
| `Domain` | domain.dfy | documents, players, matches, brackets, tournaments, users |
| `Shuffle` | shuffle.dfy | `shuffleArray` |
| `BracketBuilder` | bracket.dfy | `createSingleEliminationBracket` |
| `Stats` | stats.dfy | `updateUserStats` |
| `Advancement` | advance.dfy | `checkAndAdvanceRound` |
| `MatchProtocol` | matches.dfy | submit-result, admin result, reset-match |
| `Lifecycle` | lifecycle.dfy | create, register, unregister, start, reset, cancel, force-complete |
| `AutoTournaments` | autotournaments.dfy | `AutoTournamentManager` (ensure, find, cleanup) |
| `TicTacToe` | tictactoe.dfy | the move route and `checkTikTakToeWinner` |

Behaviour of the code that the model keeps as written:

- Round 0 has one match per pair of non-bye players, so round 0 plus a halving field from size/2
  players gives n − 1 matches, not size − 1, because a bye is no match
  (`BracketBuilder.BracketMatchCount`).
  - `Advancement.AdvanceHalvesField` is what ties the halving count to advancement: each step from a
    power-of-two field of k plays k/2 matches and leaves k/2 players.
  - A whole tournament played to the end is not modelled as a sequence of steps.
- The administrator's score path accepts equal scores and then makes player2 the winner.
  - It does not check whether the match is already completed.
- The start route rejects only status `started`, so a finished tournament can be started again.
- Force-complete does not look at the status: a finished tournament can be completed, and its
  winner credited, a second time.
- Reset-match reopens one match and nothing in later rounds. After the byes of round 0 have
  joined, re-completing a round-0 match can finish the tournament early.
  - That is possible because the byes list is already empty.
- The tic-tac-toe route advances round `currentRound − 1`, whichever round holds the match.
- New users carry game counters only for fifa, cod and chess. When `updateUserStats` is asked to
  credit a game the user has no counters for, the increment throws. The route then answers 500 and
  writes nothing.
  - The model returns `Err(InternalError)` in exactly that case (`Stats.StatsCrash`), instead of
    making the missing key a precondition.
  - One consequence: the winning move of a tic-tac-toe final by such a user is always lost.

## Model

| member | source | states |
|---|---|---|
| Common.HttpStatus | server.js:1394-1481 | unknown game, tournament or match answer 404; a submitter outside the match answers 403; a thrown error answers 500; every other refusal answers 400 |
| Common.Lower | server.js:1004 | wallets are compared lower-cased, character by character |
| Domain.Lookup | server.js:1392 | the tournament is found exactly when the game exists and holds that id, and it is the stored one |
| Domain.SetMatch | server.js:1797-1803 | a match updated in place: that match replaced, every other match and every round length unchanged |
| Domain.RoundPlayers | server.js:387-390 | the players of a round, player1 then player2 of each match, in match order |
| Shuffle.Swap | server.js:359 | the destructuring swap exchanges the two positions and keeps all others |
| Shuffle.SwapPermutes | server.js:359 | a swap keeps the multiset of players |
| Shuffle.FisherYatesFromPermutes | server.js:357-360 | the remaining swaps of the loop keep the multiset of players |
| Shuffle.FisherYatesPermutes | server.js:355-362 | whatever the random draws, the shuffle is a permutation of its input |
| Shuffle.ShuffleArray | server.js:355-362 | the in-place swap loop on the copied array yields the Fisher–Yates order for the draws, a permutation of the input |
| BracketBuilder.Log2Exact | server.js:400 | `Math.log2` of the power-of-two bracket size is exact: 2^totalRounds = bracketSize |
| BracketBuilder.BracketSize | server.js:368-371 | the doubling loop ends on a power of two at least n, whose half is below n |
| BracketBuilder.SmallestPowerOfTwo | server.js:368-371 | that size is the smallest power of two holding all n players |
| BracketBuilder.Splice | server.js:381 | `splice(i, 1)` removes exactly one element |
| BracketBuilder.SplicePermutes | server.js:381 | the removed player plus the rest is the pool |
| BracketBuilder.DrawByesPartition | server.js:378-383 | drawing without replacement gives exactly `byes` players, leaves the others, and together they are the pool |
| BracketBuilder.SelectByes | server.js:376-383 | the bye loop draws `bracketSize − n` players as specified by the draws; byes plus rest are a permutation of the pool |
| BracketBuilder.PairingShape | server.js:385-398 | pairing k players gives ⌊k/2⌋ pending matches with no scores, reports or completion |
| BracketBuilder.PairingPlayers | server.js:385-398 | the paired players, in order, are the given ones; all of them when k is even |
| BracketBuilder.PairUp | server.js:385-398 | the pairing loop over i = 0, 2, 4, … builds exactly that pairing |
| BracketBuilder.NoDuplicatesPermutation | server.js:366 | a permutation of distinct players has no duplicates |
| BracketBuilder.ByesFit | server.js:376-383 | byes never exceed the players, and n − byes = 2n − size is even for n ≥ 2 |
| BracketBuilder.AssembledBracketIsFresh | server.js:400-410 | the returned bracket has the promised shape: minimal size, totalRounds, currentRound 1, one fresh round of (n − byes)/2 matches, byes plus round-0 players a permutation of the participants |
| BracketBuilder.CreateBracket | server.js:365-411 | for every choice of draws, the bracket is fresh and its byes and first round are the draws applied to the shuffled players |
| BracketBuilder.FirstRoundAdvancing | server.js:376-398 | round-0 matches plus byes are exactly half the bracket size |
| BracketBuilder.FreshBracketDistinct | server.js:374-398 | over distinct participants, no bye plays in round 0 and nobody plays twice there |
| BracketBuilder.MatchesToFinishCount | server.js:1594-1613 | from 2^k players, halving round by round takes 2^k − 1 matches |
| BracketBuilder.BracketMatchCount | server.js:376-398 | for a fresh bracket, round-0 matches plus the halving count from size/2 players is n − 1, never more than size − 1 |
| Stats.UpdateUserStats | server.js:1620-1637 | fails exactly when the user exists without counters for the game; otherwise credits one tournament, and for a winner one win there and in the total, to that user only; an unknown wallet changes nothing |
| Stats.CreditedKeepsWinsWithinTournaments | server.js:1627-1632 | crediting keeps every user's wins per game within their tournaments |
| Stats.CreditedKeepsKeys | server.js:1622-1633 | crediting keeps the users document keyed by lower-cased wallet |
| Advancement.Winners | server.js:1553 | one winner per completed match, in match order |
| Advancement.Advancing | server.js:1553-1559 | the round's winners in order, followed by the byes only after round 0 |
| Advancement.AdvanceRound | server.js:1547-1617 | nothing changes unless the whole round is completed; one advancing player finishes the tournament and credits them; otherwise a new round is appended only when the round is the latest |
| Advancement.PendingRoundChangesNothing | server.js:1550-1552 | a round with a pending match leaves tournament and users as they were |
| Advancement.FreshFirstRoundAdvancing | server.js:1553-1559 | once round 0 of a fresh bracket is played, exactly bracketSize/2 players advance out of it |
| Advancement.NextRoundShape | server.js:1594-1613 | moving on appends exactly one round of ⌊k/2⌋ fresh matches pairing the advancing players in order, keeps earlier rounds, clears byes, and increments currentRound |
| Advancement.AdvanceHalvesField | server.js:1594-1613 | advancing a power-of-two field of k ≥ 2 players appends one round of k/2 matches, the first term of the halving count, leaving a power-of-two field of k/2 |
| Advancement.FinishCrownsWinner | server.js:1561-1570 | when one player advances: finished, the bracket complete, that player the winner of both, and only their record gains a win |
| Advancement.AdvanceKeepsRoundsMaterialised | server.js:1594-1613 | currentRound keeps counting the materialised rounds |
| Advancement.AdvanceKeepsRounds | server.js:1547-1617 | advancement only appends rounds, and existing matches stay as they were |
| MatchProtocol.IndexOf | server.js:1403 | `find` on id gives the first match with that id, or none when no match has it |
| MatchProtocol.Locate | server.js:1402-1409 | the first round holding the match, and its first index there |
| MatchProtocol.FindMatch | server.js:1402-1409 | the search loop over rounds finds exactly that location |
| MatchProtocol.Target | server.js:1392-1413 | unknown tournament on a missing tournament, a thrown error on a missing bracket, otherwise the match's location or match not found |
| MatchProtocol.FindTarget | server.js:1392-1413 | the route's search computes that target |
| MatchProtocol.PendingAtMostTwo | server.js:1419-1430 | reports by the two players, one each, are at most two |
| MatchProtocol.AppendKeepsPendingValid | server.js:1419-1438 | a first report by a player of the match keeps the reports valid and at most two |
| MatchProtocol.MarkConflicts | server.js:1463 | every report is flagged as a conflict |
| MatchProtocol.Consensus | server.js:1445-1452 | agreeing reports complete the match with their scores, by `auto`, the higher score winning |
| MatchProtocol.ConflictKeepsPendingValid | server.js:1462-1463 | flagging keeps each report's author and scores, so the reports stay valid |
| MatchProtocol.ConsensusHasNoDraw | server.js:1387-1449 | agreed scores are never equal; between two different players, player1 wins exactly when the agreed first score is higher |
| MatchProtocol.SubmitResult | server.js:1383-1476 | the refusals in order (fields, draw, tournament, match, completed, not a player, second report); then agreement completes and advances, disagreement flags a conflict, one report waits |
| MatchProtocol.AdminCompleted | server.js:1527-1530 | completed by `admin` with the given winner and no reports |
| MatchProtocol.AdminSetResult | server.js:1491-1532 | scores win over a winner id, the higher score winning and player2 on a tie; a winner id must name a player; neither is refused; the round then advances |
| MatchProtocol.AdminWinnerIsPlayer | server.js:1514-1517 | the administrator's winner is one of the two players, and player2 on equal scores |
| MatchProtocol.Reopened | server.js:1797-1803 | pending, no winner, scores, completion or reports; players and board kept |
| MatchProtocol.ReopenUndoesCompletion | server.js:1797-1803 | reopening a completed fresh match gives back the fresh match, whoever completed it |
| MatchProtocol.ResetMatch | server.js:1768-1817 | only a completed match is reopened; a finished tournament returns to started with winner, finish time and bracket result cleared |
| MatchProtocol.ReopenTouchesOnlyThatMatch | server.js:1796-1810 | no other match and no round count changes |
| Lifecycle.WalletIndex | server.js:1078-1080 | the first participant with that wallet, ignoring case, or none |
| Lifecycle.PlayerById | server.js:1908 | the first participant with that id, or none when no participant has it |
| Lifecycle.JoinThenLeave | server.js:1004-1016 | registering appends the wallet at the end, and unregistering it gives back the original list |
| Lifecycle.JoinKeepsDistinct | server.js:1003-1016 | registering a wallet that is not yet present keeps wallets distinct |
| Lifecycle.LeaveRemovesWallet | server.js:1077-1087 | unregistering keeps wallets distinct and removes that wallet |
| Lifecycle.CreateTournament | server.js:1108-1146 | refused exactly without a name, with an auto-start size outside 2–64 powers of two, or with an unknown game; otherwise one new tournament in registration, made active when none was; an existing active id stays valid |
| Lifecycle.Register | server.js:975-1033 | the refusals in order; then exactly one participant is appended, and reaching the auto-start count starts the tournament with a fresh bracket; wallets stay distinct |
| Lifecycle.Unregister | server.js:1057-1087 | only in registration; the participant with that wallet is spliced out, and the wallet is then absent |
| Lifecycle.Start | server.js:1323-1342 | fewer than two players or status started is refused; otherwise started with a fresh bracket over the participants |
| Lifecycle.StartedBracketDistinct | server.js:1338 | over distinct wallets, byes and round-0 players are disjoint and nobody plays twice |
| Lifecycle.ResetTournament | server.js:1683-1698 | only in registration; participants, bracket, winner and finish time cleared |
| Lifecycle.Cancel | server.js:1838-1854 | a finished tournament is refused; otherwise only it is deleted, and the active id is cleared when it named it |
| Lifecycle.ForceComplete | server.js:1897-1924 | the winner id must name a participant; that participant wins the tournament and bracket and is credited; it fails when their counters are missing |
| AutoTournaments.NewAutoTournament | server.js:1239-1253 | a new automatic tournament is open for its size, empty, and has no bracket |
| AutoTournaments.CreateAutoTournament | server.js:1236-1255 | stores the new open, empty tournament under its key; the other tournaments, the name and the active id are kept |
| AutoTournaments.CreateKeepsOpen | server.js:1196-1207 | a creation keeps every size already open |
| AutoTournaments.EnsureForGame | server.js:1196-1207 | creates only for sizes with no open tournament; afterwards every size is open; a game with all sizes open is unchanged |
| AutoTournaments.EnsureAutoTournaments | server.js:1189-1209 | only configured games change, only by new open tournaments for missing sizes; afterwards each configured game has one per size; with none missing nothing changes |
| AutoTournaments.PruneGame | server.js:1270-1285 | keeps exactly the tournaments that are not stale, unchanged |
| AutoTournaments.CleanupOldTournaments | server.js:1262-1286 | deletes exactly the finished automatic tournaments older than 24 hours; never one that is not finished |
| AutoTournaments.PruneIdempotent | server.js:1272-1285 | a second pass at the same time deletes nothing |
| TicTacToe.WinnerFrom | server.js:570-575 | a mark exactly when a line from there on is won, the mark of the first such line |
| TicTacToe.CheckWinner | server.js:563-576 | a symbol exactly when one of the 8 lines holds three equal marks |
| TicTacToe.EmptyBoard | server.js:450 | nine empty cells |
| TicTacToe.EmptyBoardHasNoWinner | server.js:448-455 | a new board has no winner |
| TicTacToe.CountPlace | server.js:475 | placing a mark on an empty cell adds one of it and none of the other |
| TicTacToe.NewGameAlternates | server.js:448-455 | a new board starts with player1 to move and even counts |
| TicTacToe.Move | server.js:415-509 | no match in any tic-tac-toe tournament is refused; otherwise the move is played on the tournament holding it |
| TicTacToe.Play | server.js:443-506 | a completed match, the wrong mover, or a cell outside 0–8 or taken is refused; otherwise the mover's symbol is placed |
| TicTacToe.Conclude | server.js:484-506 | a win completes the match, X for player1, and advances the latest round; a full board restarts; otherwise the turn passes |
| TicTacToe.MoveKeepsTurnsAlternating | server.js:461-506 | with two distinct wallets, X and O keep alternating in a match still being played |
| TicTacToe.OutcomeKeepsTurns | server.js:484-506 | each outcome keeps the alternation: won matches are completed, drawn boards restart, other moves pass the turn |

## Left out

- Express plumbing: parameter parsing, `parseInt`, HTTP responses and their bodies. The errors are a
  datatype, and `Common.HttpStatus` gives their status codes.
- The `try`/`catch` of a route is modelled only where the model can throw (`InternalError`):
  - a missing stats entry;
  - a tournament without a bracket on the match routes;
  - a missing tic-tac-toe game.
  - A body field of the wrong type (a missing `walletAddress` on the move route, say) is not
    modelled. Strings and optional numbers stand for the fields.
- File access: `readGames`/`writeGames`/`readGlobalUsers`/`writeGlobalUsers`, backups and their routes.
  The documents are values.
- `createAutoTournament` re-reads the games document before every creation. The model creates on the
  value the loop holds, with one `now` for the whole run.
  - Every open size is promised only when no automatic key of the game already carries that time
    (`AutoTournaments.FreshStamp`). Two creations at the same millisecond reuse an id in the source too.
- Timers: the delay between creations, the cleanup scheduler, and the delayed creation of a replacement
  automatic tournament. When a finished tournament asks for a replacement, that request is returned
  as an `Advancement.Replacement` value.
- The order of `Object.entries`/`Object.values`. The tic-tac-toe route takes an arbitrary tournament
  holding the match wherever several do, and `findOpenAutoTournament` is modelled only by its
  truthiness, which is all its caller uses.
- Trimming of names, descriptions, gamertags and usernames, the `description` field, and the
  locale-formatted date in automatic names (a `Title` carries the size and time instead).
- Lower-casing covers only ASCII letters, which is all a hexadecimal wallet address holds.
- Concurrency between requests: the model is sequential.
- The chess result route, the DELETE route, the user profile routes, leaderboards, statistics and
  export: they are not part of this model.
- BracketBuilder.CreateBracket: requires at least one player, which both callers guarantee (start
  needs two, registration has just added one).
- BracketBuilder.BracketMatchCount: counts matches through the halving recurrence `MatchesToFinish`. It is
  not proved over every round a whole run of advancements appends. Each single step is tied to the
  recurrence by `Advancement.AdvanceHalvesField`.
