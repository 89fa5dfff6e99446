/**
 * The Hangman move transition (make_move), cancellation (cancel_game) and
 * the letter-revealing loop, over the Game entity of module Models. Step is
 * the specification of a move as a function of the stored record; MakeMove
 * performs it on a Game object field by field, as the endpoint does.
 */
module Api {
  import opened Wrappers
  import opened Strings
  import opened Models

  /**
   * What a move reports. Rejected is the ForbiddenException for a game that
   * is over or cancelled; Aborted is a request that raises before anything
   * is stored (only the as-written model below reaches it).
   */
  datatype Outcome = Rejected | Continue | Won | Lost | Aborted

  /** The stored record after a move, its outcome, and the Score end_game wrote, if any. */
  datatype MoveResult = MoveResult(game: GameRecord, outcome: Outcome, score: Option<Score>)

  /** The guess as make_move records it in game_history. */
  function Normalised(character: string): string {
    if IsAlpha(character) then Lower(character) else character
  }

  /** `state` with every position where `target` holds `letter` set to `letter`. */
  function Reveal(state: string, target: string, letter: char): (s: string)
    requires |state| == |target|
    ensures |s| == |target|
    decreases |target|
  {
    if |target| == 0 then []
    else [if target[0] == letter then letter else state[0]] + Reveal(state[1..], target[1..], letter)
  }

  lemma {:induction false} RevealAt(state: string, target: string, letter: char, i: int)
    requires |state| == |target| && 0 <= i < |target|
    ensures Reveal(state, target, letter)[i] == if target[i] == letter then letter else state[i]
    decreases |target|
  {
    if i > 0 {
      RevealAt(state[1..], target[1..], letter, i - 1);
    }
  }

  /** The game ends: end_game(won) and its outcome. */
  function Finish(r: GameRecord, won: bool, today: Date): MoveResult {
    var e := Terminate(r, won, today);
    MoveResult(e.game, if won then Won else Lost, Some(e.score))
  }

  /** A guess that costs an attempt: decrement, record, and lose once fewer than one is left. */
  function Spend(r: GameRecord, guess: string, today: Date): MoveResult {
    var r' := r.(attemptsRemaining := r.attemptsRemaining - 1, gameHistory := r.gameHistory + [guess]);
    if r'.attemptsRemaining < 1 then Finish(r', false, today) else MoveResult(r', Continue, None)
  }

  /**
   * make_move on the stored record `r` with the raw guess `character`, with
   * the branch at api.py:186-195 taken as the one state update its two arms
   * share.
   */
  function Step(r: GameRecord, character: string, today: Date): (m: MoveResult)
    requires r.Shaped()
    ensures m.game.target == r.target && m.game.user == r.user
    ensures m.game.attemptsAllowed == r.attemptsAllowed && m.game.cancelled == r.cancelled
    ensures m.game.Shaped()
    ensures m.game.attemptsRemaining <= r.attemptsRemaining
    ensures r.gameOver ==> m.game.gameOver
  {
    if r.gameOver || r.cancelled then MoveResult(r, Rejected, None)
    else if !IsAlpha(character) then Spend(r, character, today)
    else AlphaGuess(r, Lower(character), today)
  }

  /** A lower-cased alphabetic guess, classified by its length. */
  function AlphaGuess(r: GameRecord, guess: string, today: Date): MoveResult
    requires r.Shaped()
  {
    if |guess| == |r.target| then
      if guess == r.target then
        Finish(r.(gameHistory := r.gameHistory + [guess], state := r.target), true, today)
      else
        Spend(r, guess, today)
    else if |guess| == 1 then
      LetterGuess(r, guess, today)
    else
      Spend(r, guess, today)
  }

  /** A single letter that is not the whole word. */
  function LetterGuess(r: GameRecord, guess: string, today: Date): MoveResult
    requires r.Shaped() && |guess| == 1
  {
    if guess[0] in r.target then
      var s := Reveal(r.state, r.target, guess[0]);
      if s == r.target then
        Finish(r.(state := s, gameHistory := r.gameHistory + [guess]), true, today)
      else
        Spend(r.(state := s), guess, today)
    else if r.attemptsRemaining < 1 then
      Finish(r.(gameHistory := r.gameHistory + [guess]), false, today)
    else
      MoveResult(r.(gameHistory := r.gameHistory + [guess]), Continue, None)
  }

  /** The enumerate loop of make_move that rebuilds the masked word after a correct letter. */
  method RevealLetter(state: string, target: string, letter: char) returns (revealed: string)
    requires |state| == |target|
    ensures |revealed| == |target|
    ensures forall i :: 0 <= i < |target| ==>
      revealed[i] == if target[i] == letter then letter else state[i]
    ensures revealed == Reveal(state, target, letter)
  {
    var stateList := new char[|state|](i requires 0 <= i < |state| => state[i]);
    for i := 0 to |target|
      invariant forall k :: 0 <= k < i ==>
        stateList[k] == if target[k] == letter then letter else state[k]
      invariant forall k :: i <= k < |target| ==> stateList[k] == state[k]
    {
      if target[i] == letter {
        stateList[i] := letter;
      }
    }
    revealed := stateList[..];
    forall i | 0 <= i < |target|
      ensures revealed[i] == Reveal(state, target, letter)[i]
    {
      RevealAt(state, target, letter, i);
    }
  }

  /** make_move on a loaded Game; the record it leaves and what it returns are those of Step. */
  method MakeMove(game: Game, character: string, today: Date) returns (outcome: Outcome, score: Option<Score>)
    requires game.Record().Shaped()
    modifies game
    ensures MoveResult(game.Record(), outcome, score) == Step(old(game.Record()), character, today)
  {
    if game.gameOver || game.cancelled {
      return Rejected, None;
    }
    var guess: string;
    if IsAlpha(character) {
      guess := Lower(character);
    } else {
      guess := character;
      game.attemptsRemaining := game.attemptsRemaining - 1;
      game.gameHistory := game.gameHistory + [guess];
      if game.attemptsRemaining < 1 {
        var s := game.EndGame(false, today);
        return Lost, Some(s);
      }
      return Continue, None;
    }

    if |guess| == |game.target| {
      if guess == game.target {
        game.gameHistory := game.gameHistory + [guess];
        game.state := game.target;
        var s := game.EndGame(true, today);
        return Won, Some(s);
      }
      game.attemptsRemaining := game.attemptsRemaining - 1;
      game.gameHistory := game.gameHistory + [guess];
      if game.attemptsRemaining < 1 {
        var s := game.EndGame(false, today);
        return Lost, Some(s);
      }
      return Continue, None;
    }

    if |guess| == 1 {
      if guess[0] in game.target {
        game.state := RevealLetter(game.state, game.target, guess[0]);
        if game.state == game.target {
          game.gameHistory := game.gameHistory + [guess];
          var s := game.EndGame(true, today);
          return Won, Some(s);
        }
        game.attemptsRemaining := game.attemptsRemaining - 1;
        game.gameHistory := game.gameHistory + [guess];
        if game.attemptsRemaining < 1 {
          var s := game.EndGame(false, today);
          return Lost, Some(s);
        }
        return Continue, None;
      }
      game.gameHistory := game.gameHistory + [guess];
      if game.attemptsRemaining < 1 {
        var s := game.EndGame(false, today);
        return Lost, Some(s);
      }
      return Continue, None;
    }

    game.attemptsRemaining := game.attemptsRemaining - 1;
    game.gameHistory := game.gameHistory + [guess];
    if game.attemptsRemaining < 1 {
      var s := game.EndGame(false, today);
      return Lost, Some(s);
    }
    return Continue, None;
  }

  /** cancel_game on the stored record: None is the NotFoundException for a game that is over. */
  function Cancel(r: GameRecord): Option<GameRecord> {
    if !r.gameOver then Some(r.(cancelled := true)) else None
  }

  /** cancel_game on a loaded Game. */
  method CancelGame(game: Game) returns (cancelled: bool)
    modifies game
    ensures cancelled == !old(game.gameOver)
    ensures cancelled ==> game.Record() == old(game.Record()).(cancelled := true)
    ensures !cancelled ==> game.Record() == old(game.Record())
    ensures Cancel(old(game.Record())) == if cancelled then Some(game.Record()) else None
  {
    if game.gameOver == false {
      game.cancelled := true;
      return true;
    }
    return false;
  }

  /**
   * The path on which make_move, as written, evaluates `guess in game.history`
   * (api.py:186): a correct letter that neither completes the word nor uses
   * up the last attempt.
   */
  predicate ReachesHistoryLookup(r: GameRecord, character: string)
    requires r.Shaped()
  {
    var guess := Lower(character);
    && r.Live() && IsAlpha(character)
    && |guess| == 1 && |guess| != |r.target| && guess[0] in r.target
    && Reveal(r.state, r.target, guess[0]) != r.target
    && r.attemptsRemaining - 1 >= 1
  }

  /**
   * make_move as written. `history` is not a property of the Game model, so
   * on ReachesHistoryLookup the lookup raises and the request fails before
   * the updated game is put: the stored record is unchanged. Everywhere else
   * it agrees with Step.
   */
  function StepAsWritten(r: GameRecord, character: string, today: Date): (m: MoveResult)
    requires r.Shaped()
    ensures ReachesHistoryLookup(r, character) ==> m.outcome == Aborted && m.game == r
  {
    if ReachesHistoryLookup(r, character) then MoveResult(r, Aborted, None)
    else Step(r, character, today)
  }
}
