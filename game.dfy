/** A whole run once logged in and a game started: every question of the
    game answered in turn, the scores collected in order and totalled, and
    the answer store written once at the end. */
module GameLoop {
  import opened Wrappers
  import opened Protocol
  import opened Decision
  import opened Players

  /** What the service answers for one question: the question itself, the
      first bytes of its image and the reply to whichever guess is submitted. */
  datatype Round = Round(question: Question, image: Image, server: Server)

  /** The scores of the questions answered so far, the store, and the error
      that stopped the run, if one did. */
  datatype Progress = Progress(scores: seq<i32>, store: Store, failure: Option<Error>)

  /** `rest` preceded by the scores of earlier questions. */
  function Then(scores: seq<i32>, rest: Progress): Progress
  {
    Progress(scores + rest.scores, rest.store, rest.failure)
  }

  /** The rounds played in order against the store, stopping at the first
      failing question. */
  function PlayRounds(store: Store, hasher: Hasher, rounds: seq<Round>): (p: Progress)
    ensures |p.scores| <= |rounds|
    ensures p.failure.None? <==> |p.scores| == |rounds|
    decreases |rounds|
  {
    if rounds == [] then Progress([], store, None)
    else
      match Play(store, hasher(rounds[0].image), rounds[0].question, rounds[0].server)
      case Failure(e) => Progress([], store, Some(e))
      case Success(t) => Then([t.score], PlayRounds(t.store, hasher, rounds[1..]))
  }

  /** The fingerprints of the rounds' images. */
  function Fingerprints(hasher: Hasher, rounds: seq<Round>): (fps: set<u64>)
    ensures forall i :: 0 <= i < |rounds| ==> hasher(rounds[i].image) in fps
    ensures forall x :: x in fps ==> exists i :: 0 <= i < |rounds| && hasher(rounds[i].image) == x
    decreases |rounds|
  {
    if rounds == [] then {}
    else
      var rest := Fingerprints(hasher, rounds[1..]);
      assert forall i :: 1 <= i < |rounds| ==> rounds[1..][i - 1] == rounds[i];
      {hasher(rounds[0].image)} + rest
  }

  /** Some round offers a suggestion named `name`. */
  ghost predicate Offered(rounds: seq<Round>, name: string)
  {
    exists i, j :: 0 <= i < |rounds| && 0 <= j < 4 && rounds[i].question.suggestions[j].value == name
  }

  // ---------------------------------------------------------------------------
  // Properties of a sequence of rounds

  /** Playing `a + b` is playing `a`, then, unless `a` failed, playing `b`
      from the store `a` left. */
  lemma {:induction false} PlayRoundsAppend(store: Store, hasher: Hasher, a: seq<Round>, b: seq<Round>)
    ensures var pa := PlayRounds(store, hasher, a);
      PlayRounds(store, hasher, a + b) ==
        if pa.failure.Some? then pa else Then(pa.scores, PlayRounds(pa.store, hasher, b))
    decreases |a|
  {
    if a == [] {
      assert a + b == b;
    } else {
      assert (a + b)[0] == a[0];
      assert (a + b)[1..] == a[1..] + b;
      var turn := Play(store, hasher(a[0].image), a[0].question, a[0].server);
      if turn.Success? {
        var t := turn.value;
        PlayRoundsAppend(t.store, hasher, a[1..], b);
        var pa' := PlayRounds(t.store, hasher, a[1..]);
        if pa'.failure.None? {
          var pb := PlayRounds(pa'.store, hasher, b);
          assert [t.score] + (pa'.scores + pb.scores) == ([t.score] + pa'.scores) + pb.scores;
        }
      }
    }
  }

  /** A failing question ends the run: the rounds after it change nothing. */
  lemma AbortIgnoresLaterRounds(store: Store, hasher: Hasher, a: seq<Round>, b: seq<Round>)
    requires PlayRounds(store, hasher, a).failure.Some?
    ensures PlayRounds(store, hasher, a + b) == PlayRounds(store, hasher, a)
  {
    PlayRoundsAppend(store, hasher, a, b);
  }

  /** The i-th score is the score of the i-th question, played against the
      store the earlier questions left. */
  lemma ScoreIsRoundScore(store: Store, hasher: Hasher, rounds: seq<Round>, i: nat)
    requires i < |PlayRounds(store, hasher, rounds).scores|
    ensures var before := PlayRounds(store, hasher, rounds[..i]);
      var turn := Play(before.store, hasher(rounds[i].image), rounds[i].question, rounds[i].server);
      && before.failure.None?
      && turn.Success?
      && turn.value.score == PlayRounds(store, hasher, rounds).scores[i]
  {
    var a, b := rounds[..i], rounds[i..];
    assert a + b == rounds;
    PlayRoundsAppend(store, hasher, a, b);
    var whole := PlayRounds(store, hasher, rounds);
    var before := PlayRounds(store, hasher, a);
    assert before.failure.None?;
    assert |before.scores| == i;
    var rest := PlayRounds(before.store, hasher, b);
    assert whole.scores == before.scores + rest.scores;
    assert |rest.scores| > 0;
    var turn := Play(before.store, hasher(rounds[i].image), rounds[i].question, rounds[i].server);
    PlayRoundsFrom(before.store, hasher, rounds, i);
    assert turn.Success?;
    assert rest.scores[0] == turn.value.score;
    assert whole.scores[i] == rest.scores[0];
  }

  /** After a complete run the store's keys are the old keys plus one per
      image seen. */
  lemma {:induction false} LearntKeys(store: Store, hasher: Hasher, rounds: seq<Round>)
    requires PlayRounds(store, hasher, rounds).failure.None?
    ensures PlayRounds(store, hasher, rounds).store.Keys == store.Keys + Fingerprints(hasher, rounds)
    decreases |rounds|
  {
    if rounds != [] {
      CompleteRunStep(store, hasher, rounds);
      var fp := hasher(rounds[0].image);
      var t := Play(store, fp, rounds[0].question, rounds[0].server).value;
      assert Fingerprints(hasher, rounds) == {fp} + Fingerprints(hasher, rounds[1..]);
      LearntKeys(t.store, hasher, rounds[1..]);
    }
  }

  /** The first step of a complete run succeeds, and the rest of the run
      continues from the store it left. */
  lemma CompleteRunStep(store: Store, hasher: Hasher, rounds: seq<Round>)
    requires rounds != [] && PlayRounds(store, hasher, rounds).failure.None?
    ensures var turn := Play(store, hasher(rounds[0].image), rounds[0].question, rounds[0].server);
      && turn.Success?
      && PlayRounds(store, hasher, rounds) == Then([turn.value.score], PlayRounds(turn.value.store, hasher, rounds[1..]))
  {
  }

  /** Images with pairwise distinct fingerprints give as many fingerprints as rounds. */
  lemma {:induction false} DistinctFingerprintsCount(hasher: Hasher, rounds: seq<Round>)
    requires forall i, j :: 0 <= i < j < |rounds| ==> hasher(rounds[i].image) != hasher(rounds[j].image)
    ensures |Fingerprints(hasher, rounds)| == |rounds|
    decreases |rounds|
  {
    if rounds != [] {
      var rest := rounds[1..];
      assert forall i :: 0 <= i < |rest| ==> rest[i] == rounds[i + 1];
      DistinctFingerprintsCount(hasher, rest);
      assert hasher(rounds[0].image) !in Fingerprints(hasher, rest);
    }
  }

  /** A complete run over images never seen before, with pairwise distinct
      fingerprints, adds exactly one entry per question. */
  lemma OneEntryPerNewImage(store: Store, hasher: Hasher, rounds: seq<Round>)
    requires PlayRounds(store, hasher, rounds).failure.None?
    requires forall i, j :: 0 <= i < j < |rounds| ==> hasher(rounds[i].image) != hasher(rounds[j].image)
    requires forall i :: 0 <= i < |rounds| ==> hasher(rounds[i].image) !in store
    ensures |PlayRounds(store, hasher, rounds).store| == |store| + |rounds|
  {
    LearntKeys(store, hasher, rounds);
    DistinctFingerprintsCount(hasher, rounds);
    var fps := Fingerprints(hasher, rounds);
    assert store.Keys !! fps;
    assert |store.Keys + fps| == |store.Keys| + |fps|;
  }

  /** The store only ever holds names it started with or names some question
      offered: each entry is either untouched or a suggestion's name. */
  lemma {:induction false} StoredNamesWereOffered(store: Store, hasher: Hasher, rounds: seq<Round>)
    ensures var final := PlayRounds(store, hasher, rounds).store;
      forall k :: k in final ==> (k in store && final[k] == store[k]) || Offered(rounds, final[k])
    decreases |rounds|
  {
    if rounds != [] {
      var fp := hasher(rounds[0].image);
      match Play(store, fp, rounds[0].question, rounds[0].server)
      case Failure(e) =>
      case Success(t) =>
        StoredNamesWereOffered(t.store, hasher, rounds[1..]);
        var final := PlayRounds(store, hasher, rounds).store;
        forall k | k in final
          ensures (k in store && final[k] == store[k]) || Offered(rounds, final[k])
        {
          if Offered(rounds[1..], final[k]) {
            OfferedLater(rounds, final[k]);
          } else if k == fp {
            assert rounds[0].question.suggestions[t.truth].value == final[k];
          }
        }
    }
  }

  /** A name offered by a later round is offered by the run. */
  lemma OfferedLater(rounds: seq<Round>, name: string)
    requires rounds != [] && Offered(rounds[1..], name)
    ensures Offered(rounds, name)
  {
    var i, j :| 0 <= i < |rounds[1..]| && 0 <= j < 4 && rounds[1..][i].question.suggestions[j].value == name;
    assert rounds[i + 1].question.suggestions[j].value == name;
  }

  // ---------------------------------------------------------------------------
  // The reported total: `scores.iter().sum::<i32>()`, whose additions are
  // checked for i32 overflow (a panic ends the run before the save).

  predicate InI32(x: int) { -0x8000_0000 <= x < 0x8000_0000 }

  function Sum(s: seq<i32>): int
  {
    if s == [] then 0 else s[0] as int + Sum(s[1..])
  }

  /** Adds the scores to `acc` from left to right, failing at the first
      partial sum outside the i32 range. */
  function CheckedSumFrom(acc: i32, s: seq<i32>): (r: Option<i32>)
    ensures r.Some? ==> r.value as int == acc as int + Sum(s)
    decreases |s|
  {
    if s == [] then Some(acc)
    else if InI32(acc as int + s[0] as int) then CheckedSumFrom((acc as int + s[0] as int) as i32, s[1..])
    else None
  }

  function Total(scores: seq<i32>): Option<i32>
  {
    CheckedSumFrom(0, scores)
  }

  lemma SumOfPrefix(s: seq<i32>, k: nat)
    requires 1 <= k <= |s|
    ensures Sum(s[..k]) == s[0] as int + Sum(s[1..][..k - 1])
  {
    assert s[..k][1..] == s[1..][..k - 1];
  }

  /** The checked sum succeeds exactly when every partial sum fits in an i32. */
  lemma {:induction false} CheckedSumFits(acc: i32, s: seq<i32>)
    ensures CheckedSumFrom(acc, s).Some? <==> forall k :: 1 <= k <= |s| ==> InI32(acc as int + Sum(s[..k]))
    decreases |s|
  {
    if s != [] {
      var x := acc as int + s[0] as int;
      assert s[..1] == [s[0]];
      assert Sum(s[..1]) == s[0] as int + Sum([]);
      if InI32(x) {
        CheckedSumFits(x as i32, s[1..]);
        forall k | 1 <= k <= |s| ensures Sum(s[..k]) == s[0] as int + Sum(s[1..][..k - 1]) {
          SumOfPrefix(s, k);
        }
        if forall k :: 1 <= k <= |s| ==> InI32(acc as int + Sum(s[..k])) {
          forall k | 1 <= k <= |s[1..]| ensures InI32(x + Sum(s[1..][..k])) {
            assert InI32(acc as int + Sum(s[..k + 1]));
          }
        }
      }
    }
  }

  // ---------------------------------------------------------------------------
  // The run

  /** The run after the game has started: `game.nbQuestions` guesses in
      sequence, stopping at the first failure, then the total and one save of
      the store. Each score is reported as soon as its question is answered
      and the total as soon as it is computed, so `reported` and `total` are
      what was printed even when the run fails later; `outcome` is whether the
      run got through the save. `guesses` counts the calls of `Guess`. */
  method PlayGame(player: Player, game: Game, rounds: seq<Round>, saveOk: bool)
    returns (outcome: Result<(), Error>, reported: seq<i32>, total: Option<i32>, guesses: nat)
    requires |rounds| == game.nbQuestions as int
    modifies player
    ensures var p := PlayRounds(old(player.store), player.hasher, rounds);
      && player.store == p.store
      && guesses == |p.scores| + (if p.failure.Some? then 1 else 0)
      && reported == p.scores
      && total == (if p.failure.None? then Total(p.scores) else None)
    ensures var p := PlayRounds(old(player.store), player.hasher, rounds);
      && (p.failure.Some? ==> outcome == Failure(p.failure.value) && player.saves == old(player.saves))
      && (p.failure.None? && Total(p.scores).None? ==>
            outcome == Failure(TotalOverflow) && player.saves == old(player.saves))
      && (p.failure.None? && Total(p.scores).Some? ==>
            && player.saves == old(player.saves) + [p.store]
            && outcome == if saveOk then Success(()) else Failure(StorageWriteFailed))
  {
    var failure;
    failure, reported, guesses := AnswerQuestions(player, game, rounds);
    if failure.Some? {
      return Failure(failure.value), reported, None, guesses;
    }
    total := Total(reported);
    if total.None? {
      return Failure(TotalOverflow), reported, total, guesses;
    }
    var written := player.Save(saveOk);
    if written.Failure? {
      return Failure(written.error), reported, total, guesses;
    }
    outcome := Success(());
  }

  /** The loop over the questions: one `Guess` per question until one fails.
      The scores, the store left and the failure are those of `PlayRounds`. */
  method AnswerQuestions(player: Player, game: Game, rounds: seq<Round>)
    returns (failure: Option<Error>, scores: seq<i32>, guesses: nat)
    requires |rounds| == game.nbQuestions as int
    modifies player`store
    ensures PlayRounds(old(player.store), player.hasher, rounds) == Progress(scores, player.store, failure)
    ensures guesses == |scores| + (if failure.Some? then 1 else 0)
  {
    ghost var whole := PlayRounds(player.store, player.hasher, rounds);
    scores, guesses := [], 0;
    for i := 0 to game.nbQuestions as int
      invariant |scores| == i && guesses == i
      invariant whole == Then(scores, PlayRounds(player.store, player.hasher, rounds[i..]))
    {
      var round := rounds[i];
      ghost var before := player.store;
      var score, _ := player.Guess(game, round.question, round.image, round.server);
      guesses := guesses + 1;
      PlayRoundsFrom(before, player.hasher, rounds, i);
      if score.Failure? {
        return Some(score.error), scores, guesses;
      }
      ThenThen(scores, [score.value], PlayRounds(player.store, player.hasher, rounds[i + 1..]));
      scores := scores + [score.value];
    }
    assert rounds[|rounds|..] == [];
    failure := None;
  }

  /** One step of the rounds from position `i`. */
  lemma PlayRoundsFrom(store: Store, hasher: Hasher, rounds: seq<Round>, i: nat)
    requires i < |rounds|
    ensures var turn := Play(store, hasher(rounds[i].image), rounds[i].question, rounds[i].server);
      PlayRounds(store, hasher, rounds[i..]) ==
        if turn.Failure? then Progress([], store, Some(turn.error))
        else Then([turn.value.score], PlayRounds(turn.value.store, hasher, rounds[i + 1..]))
  {
  }

  lemma ThenThen(a: seq<i32>, b: seq<i32>, p: Progress)
    ensures Then(a, Then(b, p)) == Then(a + b, p)
  {
  }
}
