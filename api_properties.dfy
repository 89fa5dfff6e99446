/**
 * Properties of the move transition Step and of cancellation: what each kind
 * of guess costs, when a game ends and with which Score, the invariant every
 * move keeps, and what a sequence of moves achieves.
 */
module ApiProperties {
  import opened Wrappers
  import opened Strings
  import opened Models
  import opened Api

  /**
   * A move is rejected exactly when the game is over or cancelled, and then
   * nothing changes; an accepted move appends exactly the normalised guess to
   * game_history and keeps the earlier entries.
   */
  lemma MoveAppendsOneEntry(r: GameRecord, character: string, today: Date)
    requires r.Shaped()
    ensures var m := Step(r, character, today);
      && (m.outcome == Rejected <==> !r.Live())
      && (m.outcome == Rejected ==> m.game == r && m.score == None)
      && (m.outcome != Rejected ==> m.game.gameHistory == r.gameHistory + [Normalised(character)])
  {
  }

  /**
   * Guesses that waste an attempt: non-alphabetic input (the empty string
   * included), a wrong word of the target's length, and an alphabetic guess
   * whose length is neither 1 nor the target's.
   */
  predicate Wasted(r: GameRecord, character: string) {
    var guess := Lower(character);
    || !IsAlpha(character)
    || (|guess| == |r.target| && guess != r.target)
    || (|guess| != 1 && |guess| != |r.target|)
  }

  /** A wasted guess costs exactly one attempt and loses exactly when fewer than one remains. */
  lemma WastedGuessCostsOne(r: GameRecord, character: string, today: Date)
    requires r.Shaped() && r.Live() && Wasted(r, character)
    ensures var m := Step(r, character, today);
      && m.game.attemptsRemaining == r.attemptsRemaining - 1
      && m.game.state == r.state
      && (m.outcome == Lost <==> r.attemptsRemaining - 1 < 1)
      && (m.outcome == Continue <==> r.attemptsRemaining - 1 >= 1)
      && m.game.gameOver == (m.outcome == Lost)
  {
  }

  /** Guessing the whole word wins at once, reveals it and costs no attempt. */
  lemma WholeWordWins(r: GameRecord, character: string, today: Date)
    requires r.Shaped() && r.Live() && IsAlpha(character) && Lower(character) == r.target
    ensures var m := Step(r, character, today);
      && m.outcome == Won && m.game.gameOver && m.game.state == r.target
      && m.game.attemptsRemaining == r.attemptsRemaining
      && m.score == Some(Score(r.user, today, true, r.attemptsAllowed - r.attemptsRemaining))
  {
  }

  /**
   * A correct letter reveals exactly the positions where the target holds it
   * and keeps every other position; it wins without cost when the word is
   * complete, and otherwise costs one attempt and loses when fewer than one
   * remains.
   */
  lemma CorrectLetterReveals(r: GameRecord, character: string, today: Date)
    requires r.Shaped() && r.Live() && IsAlpha(character) && |character| == 1 && |r.target| != 1
    requires Lower(character)[0] in r.target
    ensures var m := Step(r, character, today); var c := Lower(character)[0];
      && |m.game.state| == |r.target|
      && (forall i :: 0 <= i < |r.target| ==>
            m.game.state[i] == if r.target[i] == c then c else r.state[i])
      && (m.game.state == r.target ==>
            m.outcome == Won && m.game.attemptsRemaining == r.attemptsRemaining)
      && (m.game.state != r.target ==>
            m.game.attemptsRemaining == r.attemptsRemaining - 1
            && (m.outcome == Lost <==> r.attemptsRemaining - 1 < 1)
            && (m.outcome == Continue <==> r.attemptsRemaining - 1 >= 1))
  {
    var c := Lower(character)[0];
    forall i | 0 <= i < |r.target|
      ensures Reveal(r.state, r.target, c)[i] == if r.target[i] == c then c else r.state[i]
    {
      RevealAt(r.state, r.target, c, i);
    }
  }

  /** On a valid game a wrong letter only records the guess: no attempt, no reveal, no end. */
  lemma WrongLetterCostsNothing(r: GameRecord, character: string, today: Date)
    requires r.Valid() && r.Live() && IsAlpha(character) && |character| == 1
    requires Lower(character)[0] !in r.target
    ensures Step(r, character, today)
      == MoveResult(r.(gameHistory := r.gameHistory + [Lower(character)]), Continue, None)
  {
    WordsListWellFormed(r.target);
  }

  /** A guess that costs an attempt keeps a live valid game valid. */
  lemma SpendPreservesValid(r: GameRecord, guess: string, today: Date)
    requires r.Valid() && r.Live()
    ensures Spend(r, guess, today).game.Valid()
  {
  }

  /** Revealing a letter keeps every position hidden or equal to the target's. */
  lemma RevealPreservesMask(r: GameRecord, c: char)
    requires r.Valid()
    ensures Masks(Reveal(r.state, r.target, c), r.target)
  {
    forall i | 0 <= i < |r.target|
      ensures Reveal(r.state, r.target, c)[i] == if r.target[i] == c then c else r.state[i]
    {
      RevealAt(r.state, r.target, c, i);
    }
  }

  lemma LetterGuessPreservesValid(r: GameRecord, guess: string, today: Date)
    requires r.Valid() && r.Live() && |guess| == 1
    ensures LetterGuess(r, guess, today).game.Valid()
  {
    if guess[0] in r.target {
      var s := Reveal(r.state, r.target, guess[0]);
      RevealPreservesMask(r, guess[0]);
      if s != r.target {
        SpendPreservesValid(r.(state := s), guess, today);
      }
    }
  }

  /** Every move keeps the invariant new_game establishes. */
  lemma StepPreservesValid(r: GameRecord, character: string, today: Date)
    requires r.Valid()
    ensures Step(r, character, today).game.Valid()
  {
    if r.Live() {
      if !IsAlpha(character) {
        SpendPreservesValid(r, character, today);
      } else {
        var guess := Lower(character);
        if |guess| == |r.target| {
          if guess != r.target {
            SpendPreservesValid(r, guess, today);
          }
        } else if |guess| == 1 {
          LetterGuessPreservesValid(r, guess, today);
        } else {
          SpendPreservesValid(r, guess, today);
        }
      }
    }
  }

  /**
   * A Score is written exactly when the move ends the game; it belongs to the
   * game's user, records whether the move won, and its guesses are the
   * attempts used, between 0 and attempts_allowed. A won game shows the whole
   * target; a lost one does not.
   */
  predicate ScoreMatchesEnding(r: GameRecord, m: MoveResult, today: Date) {
    && (m.score.Some? <==> m.outcome == Won || m.outcome == Lost)
    && (m.score.Some? <==> !r.gameOver && m.game.gameOver)
    && (m.outcome == Won <==> m.score.Some? && m.game.state == r.target)
    && (m.score.Some? ==>
          && m.score.value.user == r.user && m.score.value.date == today
          && m.score.value.won == (m.outcome == Won)
          && m.score.value.guesses == m.game.attemptsAllowed - m.game.attemptsRemaining)
  }

  lemma SpendScore(r: GameRecord, guess: string, today: Date)
    requires r.Valid() && r.Live()
    ensures ScoreMatchesEnding(r, Spend(r, guess, today), today)
  {
  }

  lemma LetterGuessScore(r: GameRecord, guess: string, today: Date)
    requires r.Valid() && r.Live() && |guess| == 1
    ensures ScoreMatchesEnding(r, LetterGuess(r, guess, today), today)
  {
    var s := Reveal(r.state, r.target, guess[0]);
    if guess[0] !in r.target {
      assert LetterGuess(r, guess, today) == MoveResult(r.(gameHistory := r.gameHistory + [guess]), Continue, None);
    } else if s == r.target {
      assert LetterGuess(r, guess, today) == Finish(r.(state := s, gameHistory := r.gameHistory + [guess]), true, today);
    } else {
      assert LetterGuess(r, guess, today) == Spend(r.(state := s), guess, today);
      RevealPreservesMask(r, guess[0]);
      SpendScore(r.(state := s), guess, today);
    }
  }

  lemma ScoreOnTermination(r: GameRecord, character: string, today: Date)
    requires r.Valid()
    ensures var m := Step(r, character, today);
      && ScoreMatchesEnding(r, m, today)
      && (m.score.Some? ==> 0 <= m.score.value.guesses <= r.attemptsAllowed)
  {
    StepPreservesValid(r, character, today);
    if r.Live() {
      if !IsAlpha(character) {
        SpendScore(r, character, today);
      } else {
        var guess := Lower(character);
        assert Step(r, character, today) == AlphaGuess(r, guess, today);
        if |guess| == |r.target| {
          if guess != r.target {
            SpendScore(r, guess, today);
          }
        } else if |guess| == 1 {
          LetterGuessScore(r, guess, today);
        } else {
          SpendScore(r, guess, today);
        }
      }
    }
  }

  /** Cancelling succeeds exactly on a game that is not over, and a cancelled game rejects every move. */
  lemma CancelledGameRejectsMoves(r: GameRecord, character: string, today: Date)
    requires r.Valid()
    ensures Cancel(r).Some? <==> !r.gameOver
    ensures Cancel(r).Some? ==>
      var c := Cancel(r).value;
      && c == r.(cancelled := true) && c.Valid()
      && Step(c, character, today) == MoveResult(c, Rejected, None)
  {
  }

  /** The stored record after the guesses are made one after another. */
  function Run(r: GameRecord, guesses: seq<string>, today: Date): (r': GameRecord)
    requires r.Shaped()
    ensures r'.Shaped() && r'.target == r.target && r'.cancelled == r.cancelled
    ensures r'.attemptsRemaining <= r.attemptsRemaining
    ensures r.gameOver ==> r'.gameOver
    decreases |guesses|
  {
    if guesses == [] then r else Run(Step(r, guesses[0], today).game, guesses[1..], today)
  }

  lemma {:induction false} RunPreservesValid(r: GameRecord, guesses: seq<string>, today: Date)
    requires r.Valid()
    ensures Run(r, guesses, today).Valid()
    decreases |guesses|
  {
    if guesses != [] {
      StepPreservesValid(r, guesses[0], today);
      RunPreservesValid(Step(r, guesses[0], today).game, guesses[1..], today);
    }
  }

  /** A position that is revealed stays revealed. */
  lemma StepKeepsRevealed(r: GameRecord, character: string, today: Date, i: int)
    requires r.Shaped() && 0 <= i < |r.target| && r.state[i] == r.target[i]
    ensures Step(r, character, today).game.state[i] == r.target[i]
  {
    var guess := Lower(character);
    if r.Live() && IsAlpha(character) && |guess| != |r.target| && |guess| == 1 && guess[0] in r.target {
      RevealAt(r.state, r.target, guess[0], i);
    }
  }

  /** `g` is a guess make_move reads as the single letter `c`: alphabetic, and `c` once lower-cased. */
  predicate NamesLetter(g: string, c: char) {
    IsAlpha(g) && Lower(g) == [c]
  }

  /** Some guess of `guesses` names the letter `c`, in either case. */
  predicate Guessed(guesses: seq<string>, c: char) {
    exists g :: g in guesses && NamesLetter(g, c)
  }

  /** A live game shows every letter of its target that some guess named. */
  lemma {:induction false} RunRevealsGuessedLetters(r: GameRecord, guesses: seq<string>, today: Date)
    requires r.Valid()
    ensures var r' := Run(r, guesses, today);
      !r'.Live() || forall i :: 0 <= i < |r.target| && (r.state[i] == r.target[i] || Guessed(guesses, r.target[i]))
                               ==> r'.state[i] == r.target[i]
    decreases |guesses|
  {
    if guesses != [] {
      var m := Step(r, guesses[0], today);
      StepPreservesValid(r, guesses[0], today);
      RunRevealsGuessedLetters(m.game, guesses[1..], today);
      var r' := Run(r, guesses, today);
      if r'.Live() {
        forall i | 0 <= i < |r.target| && (r.state[i] == r.target[i] || Guessed(guesses, r.target[i]))
          ensures r'.state[i] == r.target[i]
        {
          if r.state[i] == r.target[i] {
            StepKeepsRevealed(r, guesses[0], today, i);
          } else if !Guessed(guesses[1..], r.target[i]) {
            var g :| g in guesses && NamesLetter(g, r.target[i]);
            assert g == guesses[0];
            LetterGuessReveals(r, g, today, i);
          }
        }
      }
    }
  }

  /** A guess naming the letter at position `i` of a live game reveals that position. */
  lemma LetterGuessReveals(r: GameRecord, g: string, today: Date, i: int)
    requires r.Valid() && r.Live() && 0 <= i < |r.target| && NamesLetter(g, r.target[i])
    ensures Step(r, g, today).game.state[i] == r.target[i]
  {
    var c := r.target[i];
    WordsListWellFormed(r.target);
    assert Step(r, g, today) == AlphaGuess(r, [c], today);
    assert AlphaGuess(r, [c], today) == LetterGuess(r, [c], today);
    RevealAt(r.state, r.target, c, i);
  }

  /**
   * Guessing, one letter at a time and in either case, every letter of the
   * target ends the game: either the word is complete (a win) or the attempts
   * ran out (a loss).
   */
  lemma CoveringLettersEndGame(r: GameRecord, guesses: seq<string>, today: Date)
    requires r.Valid() && r.Live()
    requires forall i :: 0 <= i < |r.target| ==> Guessed(guesses, r.target[i])
    ensures var r' := Run(r, guesses, today);
      r'.gameOver && (r'.state == r.target || r'.attemptsRemaining == 0)
  {
    RunPreservesValid(r, guesses, today);
    RunRevealsGuessedLetters(r, guesses, today);
  }

  /** A move never aborts: only the as-written model below reaches Aborted. */
  lemma StepNeverAborts(r: GameRecord, character: string, today: Date)
    requires r.Shaped()
    ensures Step(r, character, today).outcome != Aborted
  {
  }

  /**
   * As written, make_move differs from the intended move exactly on the
   * path that reads `game.history`.
   */
  lemma AsWrittenDiffersOnlyAtHistoryLookup(r: GameRecord, character: string, today: Date)
    requires r.Shaped()
    ensures StepAsWritten(r, character, today) != Step(r, character, today)
            <==> ReachesHistoryLookup(r, character)
  {
    if ReachesHistoryLookup(r, character) {
      var guess := Lower(character);
      assert Step(r, character, today) == AlphaGuess(r, guess, today);
      assert AlphaGuess(r, guess, today) == LetterGuess(r, guess, today);
      assert Step(r, character, today).game.attemptsRemaining == r.attemptsRemaining - 1;
    }
  }

  /**
   * The effect of the `game.history` lookup: as written, a move that changes
   * the masked word always ends the game, so no letter is ever revealed in a
   * game that goes on.
   */
  lemma AsWrittenNeverRevealsAndContinues(r: GameRecord, character: string, today: Date)
    requires r.Valid()
    ensures var m := StepAsWritten(r, character, today);
      m.game.state != r.state ==> m.game.gameOver
  {
  }

  /**
   * The request that trips over `game.history`: the first correct letter of a
   * fresh "apple" game. As written it aborts and nothing is stored; the
   * evidently intended behaviour reveals both p's, spends one attempt and
   * records the guess.
   */
  lemma HistoryTypoAborts(user: UserKey, today: Date)
    ensures var r := InitialRecord(user, "apple");
      && StepAsWritten(r, "p", today) == MoveResult(r, Aborted, None)
      && Step(r, "p", today)
         == MoveResult(r.(state := "_pp__", attemptsRemaining := 5, gameHistory := ["p"]), Continue, None)
  {
    var r := InitialRecord(user, "apple");
    assert Lower("p") == "p";
    assert Reveal(r.state, r.target, 'p') == "_pp__";
  }
}
