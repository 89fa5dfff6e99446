# Hangman game engine, in Dafny

This project models the Hangman backend of FSND-P4-Design-A-Game: the Game
record with its creation (`new_game`) and termination (`end_game`, which
writes a `Score`), the move transition `make_move`, `cancel_game`, and the
win-count ranking `get_user_rankings`. Datastore and transport calls are
replaced by values: a move returns the record it would store, its outcome
(rejected, continue, won, lost) and the Score `end_game` would write.

Modules:

- `Strings` (strings.dfy): `isalpha`, `lower` and the `"_" * n` mask.
- `Models` (models.dfy): `WORDS_LIST`, `Score`, the stored fields as the
  value `GameRecord` with the invariant `Valid` every reachable game keeps,
  and the class `Game`, whose constructor `NewGame` and method `EndGame`
  update the fields in place.
- `Api` (api.dfy): `Step`, the move as a function of the stored record;
  `MakeMove`, the same move performed on a `Game` object branch by branch;
  `RevealLetter`, the `enumerate` loop that rebuilds the masked word;
  `Cancel` / `CancelGame`; and `StepAsWritten` (see Findings).
- `ApiProperties` (api_properties.dfy): what each kind of guess costs, when
  a game ends and with which Score, preservation of `Valid`, and what a
  sequence of letter guesses achieves.
- `Rankings` (rankings.dfy): the nested counting loops and the stable,
  descending sort of `get_user_rankings`.

Behaviour reproduced from the code:

- A correct letter that does not complete the word still costs an attempt.
- A wrong single letter costs nothing. Its `attempts_remaining < 1` check is
  kept in `Api.LetterGuess`, and it can never fire on a valid game.
- A whole-word guess equal to the target wins without spending an attempt.
- In the final branch of `make_move` (api.py:209) the test
  `len(guess) != len(game.target)` is always true, so the
  `guess in game.game_history` disjunct never matters and the branch always
  spends an attempt.
- The two arms at api.py:186-195 store the same update and differ only in
  the message. `Step` models them as that one update; Findings covers what
  the code does there as written.

## Model

| member | source | states |
|---|---|---|
| Models.WordsListWellFormed | FSND-P4-Design-A-Game/Hangman/models.py:11 | every word of the vocabulary is at least two lower-case letters |
| Models.NewGameValid | FSND-P4-Design-A-Game/Hangman/models.py:25-42 | a new game is not over or cancelled, has 6 of 6 attempts, an empty history, a state of `_` repeated len(target) times, and satisfies the game invariant |
| Models.Game.NewGame | FSND-P4-Design-A-Game/Hangman/models.py:34-44 | new_game with the chosen word from WORDS_LIST stores exactly the initial record, which is valid |
| Models.Game.EndGame | FSND-P4-Design-A-Game/Hangman/models.py:61-69 | end_game sets game_over and changes no other field; it returns one Score with the game's user, the given date and won flag, and guesses = attempts_allowed - attempts_remaining |
| Api.Step | FSND-P4-Design-A-Game/Hangman/api.py:114-222 | a move never changes target, user, attempts_allowed or cancelled, keeps state as long as target, never raises attempts_remaining, and never reopens an ended game |
| Api.RevealAt | FSND-P4-Design-A-Game/Hangman/api.py:164-171 | after a letter is revealed, each position shows the letter where the target holds it and keeps its old character elsewhere |
| Api.RevealLetter | FSND-P4-Design-A-Game/Hangman/api.py:166-171 | the enumerate loop writes the letter at exactly the matching positions of the target and keeps every other position |
| Api.MakeMove | FSND-P4-Design-A-Game/Hangman/api.py:114-222 | make_move on a Game object stores the record, returns the outcome and emits the Score that Step prescribes |
| Api.CancelGame | FSND-P4-Design-A-Game/Hangman/api.py:297-306 | cancel_game succeeds exactly when game_over is false and then sets only cancelled; otherwise it reports not-found and changes nothing |
| Api.StepAsWritten | FSND-P4-Design-A-Game/Hangman/api.py:163-195 | as written, a correct letter that neither completes the word nor uses the last attempt aborts the request and leaves the stored game unchanged |
| ApiProperties.AsWrittenDiffersOnlyAtHistoryLookup | FSND-P4-Design-A-Game/Hangman/api.py:163-195 | for every record and guess, make_move as written differs from the intended move exactly when the move reaches the `game.history` lookup: a correct letter that neither completes the word nor uses the last attempt |
| ApiProperties.AsWrittenNeverRevealsAndContinues | FSND-P4-Design-A-Game/Hangman/api.py:163-195 | as written, on a valid game every move that changes the masked word also ends the game, so no letter is ever revealed in a game that goes on |
| ApiProperties.StepNeverAborts | FSND-P4-Design-A-Game/Hangman/api.py:114-222 | the intended move never aborts: every outcome is rejected, continue, won or lost |
| ApiProperties.MoveAppendsOneEntry | FSND-P4-Design-A-Game/Hangman/api.py:118-222 | a move is rejected exactly when the game is over or cancelled, and then nothing changes; an accepted move appends exactly the normalised guess to game_history and keeps the earlier entries |
| ApiProperties.WastedGuessCostsOne | FSND-P4-Design-A-Game/Hangman/api.py:124-222 | non-alphabetic input (including the empty string), a wrong word of the target's length, and an alphabetic guess of any other length than 1 or len(target) cost exactly one attempt and keep the state; the game is lost exactly when fewer than 1 attempt remains |
| ApiProperties.WholeWordWins | FSND-P4-Design-A-Game/Hangman/api.py:140-147 | a lower-cased guess equal to the target wins at once, even on the first move: state becomes the target, no attempt is spent, and the Score records a win |
| ApiProperties.CorrectLetterReveals | FSND-P4-Design-A-Game/Hangman/api.py:163-195 | a correct letter changes exactly the positions where the target holds it; if the word is then complete the game is won at no cost, otherwise one attempt is spent, and the game is lost exactly when fewer than 1 remains and continues exactly when at least 1 remains |
| ApiProperties.WrongLetterCostsNothing | FSND-P4-Design-A-Game/Hangman/api.py:196-205 | on a valid live game, a letter not in the target only appends the guess: attempts, state and game_over are unchanged and the game continues |
| ApiProperties.StepPreservesValid | FSND-P4-Design-A-Game/Hangman/api.py:124-222 | every move keeps the game invariant: attempts_remaining within 0..attempts_allowed, state aligned with the target and showing only `_` or the target's letters, a live game with at least one attempt and an incomplete word, an ended game either complete or out of attempts |
| ApiProperties.ScoreOnTermination | FSND-P4-Design-A-Game/Hangman/models.py:61-69 | a Score is emitted exactly when a move ends a game (won or lost, never on rejection or continue); it carries the game's user, the date, won exactly for a win, guesses = attempts_allowed - attempts_remaining, and 0 <= guesses <= attempts_allowed; a won game shows the whole target and a lost one does not |
| ApiProperties.CancelledGameRejectsMoves | FSND-P4-Design-A-Game/Hangman/api.py:297-306 | cancelling succeeds exactly on a game that is not over, keeps the invariant, changes only cancelled, and every later move is rejected without change |
| ApiProperties.Run | FSND-P4-Design-A-Game/Hangman/api.py:114-222 | over any sequence of moves the target and the cancelled flag stay fixed, attempts_remaining never rises and an ended game stays ended |
| ApiProperties.RunPreservesValid | FSND-P4-Design-A-Game/Hangman/api.py:124-222 | any sequence of moves from a valid game leaves a valid game, so attempts_remaining stays within 0..attempts_allowed |
| ApiProperties.RunRevealsGuessedLetters | FSND-P4-Design-A-Game/Hangman/api.py:164-171 | while a game is live, every position that was revealed, or whose letter some alphabetic guess named in either case, is revealed |
| ApiProperties.CoveringLettersEndGame | FSND-P4-Design-A-Game/Hangman/api.py:163-183 | guessing every letter of the target, one letter per move and in either case, ends the game, either with the whole word revealed or with no attempts left |
| ApiProperties.HistoryTypoAborts | FSND-P4-Design-A-Game/Hangman/api.py:185-195 | on a fresh "apple" game the guess "p" aborts as written, while the intended update reveals "_pp__", leaves 5 attempts and records "p" |
| Rankings.WinCountCountsWins | FSND-P4-Design-A-Game/Hangman/api.py:332-338 | a user's win_number is the number of that user's scores with won set |
| Rankings.SortByWinsDescSpec | FSND-P4-Design-A-Game/Hangman/api.py:341 | the sort orders ranks by win_number descending, is a permutation, and keeps ranks with equal win_number (zero-win users included) in their original order |
| Rankings.GetUserRankings | FSND-P4-Design-A-Game/Hangman/api.py:327-342 | the result has one rank per user with that user's win count, sorted by win_number descending, and users with equal counts keep their fetch order |

## Findings

| source | as written | input that shows it | evidently intended | confidence | as-written member | corrected member |
|---|---|---|---|---|---|---|
| FSND-P4-Design-A-Game/Hangman/api.py:186 | `guess in game.history` reads an attribute the Game model does not declare (the property is `game_history`), so it raises and the request fails before `put`; the revealed letter, the spent attempt and the guess are never stored | a fresh game on "apple" (6 attempts), guess "p" | record the guess, store the revealed state `_pp__` and the spent attempt, and continue | not executed; the Game model declares no `history` property | Api.StepAsWritten, shown by ApiProperties.HistoryTypoAborts and ApiProperties.AsWrittenDiffersOnlyAtHistoryLookup | Api.Step, with ApiProperties.CorrectLetterReveals |

## Left out

- Persistence: `put`, `get_by_urlsafe`, `query`, `fetch` and the key scheme are replaced by the returned record and Score; concurrent writes are not modelled.
- The protorpc request/response messages, `to_form` and the outcome message texts; only the outcome kind is modelled.
- `random.choice(WORDS_LIST)` in `new_game` is the `word` parameter, required to be in `WORDS_LIST`; `date.today()` in `end_game` is the `today` parameter.
- Strings.IsAlpha and Strings.Lower treat only ASCII letters as letters; Python's Unicode `isalpha` and `lower`, and the Python 2 `str()` of non-ASCII input, are not modelled.
- The `new_game`, `create_user`, `get_user_scores`, `get_user_active_games` and `get_user_all_games` endpoints: user lookup and datastore queries whose logic is not in the source.
- `get_scores`, `get_high_scores` and `get_game_history`: datastore queries and forms only.
- `_cache_average_attempts` and `get_average_attempts_remaining`: a memcache write of a floating-point average; when no game has `game_over` false (cancelled games that are not over are counted) nothing is written.
- main.py's reminder email and cache-refresh handlers: mail, cron and task-queue I/O.
- Rankings.GetUserRankings: the users and scores are parameters in the order the datastore returns them; the per-user query `Score.query(Game.user == user.key)` is taken as selecting the scores whose `user` is that key; Python's `list.sort` is modelled by an insertion sort, which yields the same order because a stable sort by key has only one possible result.
- The Guess-a-Number game.
