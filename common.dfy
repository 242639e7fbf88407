/** Shared vocabulary of the tournament engine: optional values, results of a
    request handler, the error each guard reports, and the case-insensitive
    comparison of wallet addresses. */
module Common {

  datatype Option<T> = None | Some(value: T)

  /** What a request handler yields: the new state to be written back, or the
      error it answered with (in which case nothing was written). */
  datatype Result<T> = Ok(value: T) | Err(error: Error)

  /** One constructor per distinct error answer of the routes. */
  datatype Error =
    | AllFieldsRequired        // submit-result: submitter or wallet missing
    | WalletRequired           // register / unregister: no wallet address
    | UserNotRegistered        // register: wallet has no global user record
    | GameNotFound
    | TournamentNotFound
    | NameRequired             // create: no tournament name
    | InvalidAutoStartCount    // create: auto-start size outside the whitelist
    | RegistrationClosed       // register: tournament not in registration
    | AlreadyRegistered        // register: wallet already a participant
    | UnregisterClosed         // unregister: tournament not in registration
    | NotRegistered            // unregister: wallet not a participant
    | NotEnoughPlayers         // start: fewer than two participants
    | AlreadyStarted           // start: status is 'started'
    | DrawNotAllowed           // submit-result: equal scores
    | MatchNotFound
    | MatchAlreadyCompleted    // submit-result on a completed match
    | NotInMatch               // submit-result by someone who is not a player (403)
    | AlreadySubmitted         // second submission by the same submitter
    | InvalidWinnerId          // admin set-result: winner is not one of the players
    | WinnerOrScoreRequired    // admin set-result: neither scores nor a winner
    | MatchNotCompleted        // reset-match on a pending match
    | NotInRegistration        // reset: tournament not in registration
    | FinishedNotCancellable   // cancel: tournament already finished
    | WinnerIdRequired         // force-complete: no winner id
    | WinnerNotParticipant     // force-complete: winner id not among the participants
    | GameAlreadyOver          // tic-tac-toe move on a completed match
    | NotYourTurn
    | InvalidMove
    | InternalError            // a TypeError thrown inside the handler (answered with 500)

  /** The HTTP status each error is answered with. */
  function HttpStatus(e: Error): (code: nat)
    ensures code == 404 <==> e in {GameNotFound, TournamentNotFound, MatchNotFound}
    ensures code == 403 <==> e == NotInMatch
    ensures code == 500 <==> e == InternalError
    ensures code in {400, 403, 404, 500}
  {
    match e
    case GameNotFound | TournamentNotFound | MatchNotFound => 404
    case NotInMatch => 403
    case InternalError => 500
    case _ => 400
  }

  /** `toLowerCase` restricted to the ASCII letters, which is all a hexadecimal
      wallet address contains. */
  function LowerChar(c: char): char {
    if 'A' <= c <= 'Z' then (c as int - 'A' as int + 'a' as int) as char else c
  }

  function Lower(s: string): (r: string)
    ensures |r| == |s|
    ensures forall i :: 0 <= i < |s| ==> r[i] == LowerChar(s[i])
  {
    if s == [] then [] else [LowerChar(s[0])] + Lower(s[1..])
  }

}
