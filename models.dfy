/**
 * The Hangman datastore entities: the Game record with its creation
 * (new_game) and its terminal transition (end_game), and the Score that
 * end_game emits. Persistence (put) is replaced by the updated object and
 * the returned Score.
 */
module Models {
  import opened Strings

  /** The fixed vocabulary new_game draws its target from. */
  const WORDS_LIST: seq<string> := ["student", "teacher", "pineapple", "apple", "flower"]

  /** Default of both attempts_allowed and attempts_remaining. */
  const ATTEMPTS_ALLOWED: int := 6

  /** A datastore key of a User entity. */
  type UserKey = nat

  /** `date.today()` at the moment a game ends; supplied by the caller. */
  datatype Date = Date(year: int, month: int, day: int)

  datatype Score = Score(user: UserKey, date: Date, won: bool, guesses: int)

  /** A word a game can be played on: at least two lower-case letters. */
  predicate IsWord(w: string) {
    |w| >= 2 && forall i :: 0 <= i < |w| ==> 'a' <= w[i] <= 'z'
  }

  lemma WordsListWellFormed(w: string)
    requires w in WORDS_LIST
    ensures IsWord(w)
  {
  }

  /** Every position of `state` is hidden or shows the target's letter there. */
  predicate Masks(state: string, target: string)
    requires |state| == |target|
  {
    forall i :: 0 <= i < |state| ==> state[i] == Hidden || state[i] == target[i]
  }

  /** The stored fields of a Game, as a value. */
  datatype GameRecord = GameRecord(
    target: string,
    state: string,
    user: UserKey,
    gameOver: bool,
    cancelled: bool,
    attemptsAllowed: int,
    attemptsRemaining: int,
    gameHistory: seq<string>)
  {
    /** The masked word is aligned with the target. */
    predicate Shaped() {
      |state| == |target|
    }

    /** A move is accepted only on a game that is neither over nor cancelled. */
    predicate Live() {
      !gameOver && !cancelled
    }

    /** What every game reachable from new_game satisfies. */
    predicate Valid() {
      && target in WORDS_LIST
      && |state| == |target|
      && Masks(state, target)
      && 0 <= attemptsRemaining <= attemptsAllowed
      && !(gameOver && cancelled)
      && (!gameOver ==> attemptsRemaining >= 1 && state != target)
      && (gameOver ==> state == target || attemptsRemaining == 0)
    }
  }

  /** The record new_game stores for `word`. */
  function InitialRecord(user: UserKey, word: string): GameRecord {
    GameRecord(word, Masked(|word|), user, false, false, ATTEMPTS_ALLOWED, ATTEMPTS_ALLOWED, [])
  }

  /** A new game is live, fully masked, has the full attempt budget and is valid. */
  lemma NewGameValid(user: UserKey, word: string)
    requires word in WORDS_LIST
    ensures var r := InitialRecord(user, word);
      && r.Valid() && r.Live() && r.gameHistory == []
      && r.attemptsRemaining == r.attemptsAllowed == ATTEMPTS_ALLOWED
      && |r.state| == |word| && forall i :: 0 <= i < |r.state| ==> r.state[i] == Hidden
  {
    WordsListWellFormed(word);
    assert Masked(|word|)[0] != word[0];
  }

  /** The result of end_game: the updated record and the Score it writes. */
  datatype Ending = Ending(game: GameRecord, score: Score)

  function Terminate(r: GameRecord, won: bool, today: Date): Ending {
    Ending(r.(gameOver := true), Score(r.user, today, won, r.attemptsAllowed - r.attemptsRemaining))
  }

  /** A Game entity, whose fields make_move and cancel_game update in place. */
  class Game {
    var target: string
    var state: string
    var user: UserKey
    var gameOver: bool
    var cancelled: bool
    var attemptsAllowed: int
    var attemptsRemaining: int
    var gameHistory: seq<string>

    function Record(): GameRecord
      reads this
    {
      GameRecord(target, state, user, gameOver, cancelled, attemptsAllowed, attemptsRemaining, gameHistory)
    }

    /** new_game, with random.choice(WORDS_LIST) supplied as `word`. */
    constructor NewGame(user: UserKey, word: string)
      requires word in WORDS_LIST
      ensures Record() == InitialRecord(user, word)
      ensures Record().Valid()
    {
      this.target := word;
      this.state := Masked(|word|);
      this.user := user;
      this.gameOver := false;
      this.cancelled := false;
      this.attemptsAllowed := ATTEMPTS_ALLOWED;
      this.attemptsRemaining := ATTEMPTS_ALLOWED;
      this.gameHistory := [];
      new;
      NewGameValid(user, word);
    }

    /** end_game: marks the game over and emits exactly one Score. */
    method EndGame(won: bool, today: Date) returns (score: Score)
      modifies this
      ensures Record() == old(Record()).(gameOver := true)
      ensures score == Score(user, today, won, attemptsAllowed - attemptsRemaining)
      ensures Ending(Record(), score) == Terminate(old(Record()), won, today)
    {
      gameOver := true;
      score := Score(user, today, won, attemptsAllowed - attemptsRemaining);
    }
  }
}
