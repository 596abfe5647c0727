# Faces autoplay: a Dafny model of the answer store and the game loop

This project models the player of a web-hosted face-identification game.
The player logs in to the portal, starts a game and answers its questions one by one.
Each question shows an image and four suggested names. The player remembers answers in an
answer store: a map from a fingerprint of the image's first 1024 bytes to the name last
declared correct for it. The store is read from the `data` file at start-up and written
back once, after the last question.

Every reply of the service is an input to the method that would have waited for it:

- the login page status, its input elements and the status of the login POST;
- the status and body of the game-start POST;
- for each question, the question record, the image prefix, and the reply to the guess.

The reply to a guess is modelled as a function of the submitted suggestion id
(`Protocol.Server`). This lets lemmas talk about an honest service.

Modules, one file each:

- `Wrappers` (`wrappers.dfy`): `Option` and `Result`.
- `Lookup` (`lookup.dfy`): `FirstWhere`, the first element with a property. It models
  `iter().filter(p).next()`.
- `Protocol` (`protocol.dfy`):
  - the integer widths the player works with: `u32` ids and `i32` scores from the JSON
    records, `u8` image bytes and the `u64` image fingerprint;
  - `Game`, `Question`, `Suggestion` and `GuessResponse` (a question has exactly four
    suggestions);
  - the requests the player sends and the relative paths they go to;
  - decimal rendering of question ids;
  - the login token lookup and the login form.
- `Decision` (`decision.dfy`): the per-question logic as pure functions.
  - `Choose`: the remembered name, or the first suggestion.
  - `GroundTruth`: the guessed suggestion, or the one with the declared correct id.
  - `Play`: one question end to end, including the store update.
- `Players` (`player.dfy`): the class `Player`. It has the options (`training`, the
  seeded `hasher`) and the answer store as a field that `Guess` updates in place.
  Its methods are `Open` (`Player::new`), `Reload`, `Save`, `Login`, `StartGame` and `Guess`.
- `GameLoop` (`game.dfy`): the loop of `main`, as `PlayGame` with a `for` loop calling
  `Player.Guess` (the loop itself is `AnswerQuestions`). It is specified by `PlayRounds`,
  the questions played in order from the starting store. `PlayGame` also computes the
  checked `i32` total and makes the single save. Its outputs separate what the run
  reports on the way (each score, then the total) from whether it got through the save.

Three details of the code that the model keeps:

- Login distinguishes three causes of failure before the POST: the login page's status,
  a missing token input, and a token input without a `value`. The first matching input
  is the only one consulted.
- The data file is rewritten with `File::create` followed by `write_all`. It is not an
  atomic replacement.
- `i32` addition overflow in `scores.iter().sum()` is checked (the default debug
  profile), so an overflowing total stops the run before the save.

One consequence of the code, kept as written: the store remembers a name, not a suggestion
id. If two of a question's suggestions share a name, the first of them is always submitted.
`SecondPlayIsRight` therefore assumes distinct names.

## Model

| member | source | states |
|---|---|---|
| `Lookup.FirstWhere` | src/player.rs:204-210 | the index of the first element satisfying the filter; none exactly when no element does |
| `Decision.Choose` | src/player.rs:204-212 | unknown fingerprint: the first of the four suggestions; known fingerprint: the first suggestion whose value is the stored name, and none exactly when no suggestion carries it |
| `Decision.GroundTruth` | src/player.rs:215-223 | a right guess declares the guessed suggestion; a wrong one declares the first suggestion whose id is the correct id, and none exactly when no suggestion has that id |
| `Decision.Play` | src/player.rs:203-229 | on success: the guess is `Choose`'s, the truth is `GroundTruth`'s for the reply to that guess, the score is the reply's score, `store[fp]` becomes the truth's name, every other entry is unchanged, the keys gain at most `fp` and the size grows by at most one; an unoffered remembered name fails before submitting; any other failure is a wrong guess whose declared correct id is carried by none of the four suggestions |
| `Decision.OnlyFailedLookupsStop` | src/player.rs:204-226 | when a suggestion is chosen and the reply's correct id is among the four, the turn succeeds, whether the guess was right or wrong |
| `Decision.ColdStartGuessesFirst` | src/player.rs:204-223 | for an unknown image the first suggestion is submitted, and the only possible failure is a wrong guess whose declared correct id none of the four suggestions has |
| `Decision.WrongGuessIsCorrected` | src/player.rs:215-226 | after a guess marked wrong the store holds the name of the suggestion with the declared correct id; with distinct names and a different correct id, the wrongly remembered name is replaced |
| `Decision.HonestFeedbackIsLearnt` | src/player.rs:214-226 | against an honest service with distinct ids, a submitted guess always succeeds and stores the correct name, whether the guess was right or wrong |
| `Decision.SecondPlayIsRight` | src/player.rs:204-226 | after one play against an honest service, replaying the same image and suggestions submits the correct suggestion and is marked right |
| `Protocol.Decimal` | src/player.rs:242 | the rendering is non-empty, all digits, starts with '0' only for zero and has one digit exactly below ten |
| `Protocol.DecimalRoundTrip` | src/player.rs:242 | parsing the decimal rendering of a question id gives the id back |
| `Protocol.DecimalInjective` | src/player.rs:242 | distinct ids render differently |
| `Protocol.NextQuestionPathRoundTrip` | src/player.rs:185 | the next-question path is "faces/api/games/" + game id + "/questions/next", and the game id is recovered from it |
| `Protocol.GuessPathRoundTrip` | src/player.rs:238-243 | the guess path is "faces/api/games/" + game id + "/questions/" + decimal id + "/guess", and game id and question id are recovered from it, even for game ids containing '/' |
| `Protocol.GuessPathInjective` | src/player.rs:238-243 | two guess paths are equal only for the same game and question |
| `Protocol.NextQuestionIsNotGuess` | src/player.rs:185 | no next-question path equals any guess path |
| `Protocol.FindToken` | src/player.rs:126-134 | the token is the value of the first input named `__RequestVerificationToken`; no such input gives `TokenElementMissing`, a first one without value gives `TokenValueMissing` |
| `Protocol.LoginForm` | src/player.rs:136-141 | exactly five fields: ReturnUrl=/home, UserName, Password, IsPersistent=true and the token, none overwritten |
| `Players.Player.Open` | src/player.rs:69-91 | a fresh player with the given options whose store is the one the data file yields; it fails exactly on an unparsable file |
| `Players.Player.Reload` | src/player.rs:93-102 | the store becomes the data file's; on a parse error it is left unchanged |
| `Players.Player.Save` | src/player.rs:103-111 | every call hands the current store to the data file, recorded in `saves`, and leaves the store unchanged; the whole store is written, so that loading the file gives the store back; a failed write is `StorageWriteFailed` |
| `Players.Player.Login` | src/player.rs:114-149 | the login page is fetched first; the form with the first token is posted if and only if the page succeeded and a token was found; login succeeds exactly when, in addition, the POST succeeded |
| `Players.Player.StartGame` | src/player.rs:151-182 | posts to "faces/api/games", or "faces/api/games/training" with empty department and establishment filters in training mode; succeeds with the reply exactly on a success status |
| `Players.Player.Guess` | src/player.rs:184-230 | the result and new store are those of `Play` on the image's fingerprint; on failure the store is unchanged; requests: next question, image prefix with range 0-1023, then the guess for the chosen suggestion unless the remembered name is not offered |
| `GameLoop.PlayRounds` | src/main.rs:24-28 | one score per question answered; all questions are answered exactly when none fails |
| `GameLoop.PlayRoundsAppend` | src/main.rs:24-25 | playing two batches of questions is playing the first, then, unless it failed, the second from the store it left |
| `GameLoop.AbortIgnoresLaterRounds` | src/main.rs:25 | after a failing question, later questions change nothing |
| `GameLoop.ScoreIsRoundScore` | src/main.rs:23-26 | the i-th score is the score of the i-th question played against the store the earlier questions left |
| `GameLoop.LearntKeys` | src/main.rs:24-26 | after a complete run the store's keys are the old keys plus the fingerprints of all images played |
| `GameLoop.OneEntryPerNewImage` | src/main.rs:24-26 | a complete run over n new images with distinct fingerprints adds exactly n entries |
| `GameLoop.StoredNamesWereOffered` | src/main.rs:24-25 | every entry of the store after a run is either an untouched old entry or a name some question offered |
| `GameLoop.CheckedSumFrom` | src/main.rs:30 | a checked sum that succeeds equals the mathematical sum of the scores |
| `GameLoop.CheckedSumFits` | src/main.rs:30 | the checked sum succeeds exactly when every partial sum fits in an i32 |
| `GameLoop.AnswerQuestions` | src/main.rs:23-28 | `Guess` is called once per question until one fails; the scores, the store left and the failure are `PlayRounds`'s |
| `GameLoop.PlayGame` | src/main.rs:22-32 | the store is `PlayRounds`'s; the scores reported are `PlayRounds`'s scores, reported even when a later question fails; the total is reported whenever every question was answered, and is absent on overflow; a failed question or an overflowing total stops the run with no call of `Save`; otherwise exactly one `Save` of the final store is made, and the run succeeds exactly when it writes |

## Left out

- HTTP transport, the cookie session, `Url::parse` and `Url::join`: replies are inputs. Paths are the relative strings built before the join.
- Transport and JSON decoding failures (the `?` after `send()` and `json()`): each round is a well-formed reply.
- HTML parsing: the login page is given as its input elements in document order.
- The ahash function with its four fixed seeds: `Player.hasher` is an arbitrary fixed function from image bytes to a 64-bit key. Collisions are possible, as in the source.
- RON serialisation and the file system: the data file is `Absent`, `Unparsable` or a table, and `Players.LoadStore` maps these to the empty store, `StorageCorrupt` and the table's entries (src/player.rs:79-84). A partial file left by a failed write after truncation is not modelled.
- Players.Player.Save: loading what was saved gives the store back by construction of the table abstraction. The RON round trip itself is not proved.
- Environment variables and `println!` output in `main`. `main`'s `unwrap`s on construction, login and game start are modelled by the `Result`s of `Open`, `Login` and `StartGame`, not chained into `PlayGame`.
- GameLoop.PlayGame: takes one reply set per question (`|rounds| == nbQuestions`); a service that stops answering is not modelled.
- GameLoop.CheckedSumFrom: follows the debug profile's overflow check. The release profile's wrap-around of the total is not modelled.
- The guess reply as a function of the submitted suggestion id only: the question id in the body is fixed per question.
