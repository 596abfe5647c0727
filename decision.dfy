/** What the player decides for one question and what it learns from the
    service's feedback, as pure functions of the answer store, the image
    fingerprint, the question and the service's reply. */
module Decision {
  import opened Wrappers
  import opened Lookup
  import opened Protocol

  /** The answer store: image fingerprint to the name last learnt for it. */
  type Store = map<u64, string>

  /** The index of the suggestion to submit: the first one carrying the
      remembered name when the fingerprint is known (none if the name is no
      longer offered), otherwise the first of the four. */
  function Choose(store: Store, fp: u64, s: Suggestions): (r: Option<nat>)
    ensures r.Some? ==> r.value < 4
    ensures fp !in store ==> r == Some(0)
    ensures fp in store ==> (r.None? <==> forall j :: 0 <= j < 4 ==> s[j].value != store[fp])
    ensures fp in store && r.Some? ==> s[r.value].value == store[fp]
    ensures fp in store && r.Some? ==> forall j :: 0 <= j < r.value ==> s[j].value != store[fp]
  {
    if fp in store then
      var name := store[fp];
      FirstWhere(s, (x: Suggestion) => x.value == name)
    else
      Some(0)
  }

  /** The index of the suggestion the feedback declares correct: the guessed
      one when the guess was right, otherwise the first whose id is the
      declared correct id (none if no suggestion has it). */
  function GroundTruth(s: Suggestions, guessed: nat, resp: GuessResponse): (r: Option<nat>)
    requires guessed < 4
    ensures r.Some? ==> r.value < 4
    ensures resp.isCorrect ==> r == Some(guessed)
    ensures !resp.isCorrect ==> (r.None? <==> forall j :: 0 <= j < 4 ==> s[j].id != resp.correctSuggestionId)
    ensures !resp.isCorrect && r.Some? ==> s[r.value].id == resp.correctSuggestionId
    ensures !resp.isCorrect && r.Some? ==> forall j :: 0 <= j < r.value ==> s[j].id != resp.correctSuggestionId
  {
    if resp.isCorrect then Some(guessed)
    else FirstWhere(s, (x: Suggestion) => x.id == resp.correctSuggestionId)
  }

  /** One answered question: the index guessed, the index the feedback
      declared correct, the score received and the store afterwards. */
  datatype Turn = Turn(guessed: nat, truth: nat, score: i32, store: Store)

  /** One question played against the store: choose, submit, learn. */
  function Play(store: Store, fp: u64, q: Question, server: Server): (r: Result<Turn, Error>)
    ensures r.Success? ==> r.value.guessed < 4 && r.value.truth < 4
    ensures r.Success? ==> Choose(store, fp, q.suggestions) == Some(r.value.guessed)
    ensures r.Success? ==>
      var resp := server(q.suggestions[r.value.guessed].id);
      && GroundTruth(q.suggestions, r.value.guessed, resp) == Some(r.value.truth)
      && r.value.score == resp.score
    // the store learns the declared answer for this fingerprint, and only that
    ensures r.Success? ==> fp in r.value.store && r.value.store[fp] == q.suggestions[r.value.truth].value
    ensures r.Success? ==> r.value.store.Keys == store.Keys + {fp}
    ensures r.Success? ==> forall k :: k in store && k != fp ==> r.value.store[k] == store[k]
    ensures r.Success? ==> |r.value.store| <= |store| + 1
    ensures Choose(store, fp, q.suggestions).None? ==> fp in store && r == Failure(StoredNameNotOffered(store[fp]))
    ensures r.Failure? ==> r.error.StoredNameNotOffered? || r.error.CorrectIdNotOffered?
    // a wrong answer is no reason to stop: the turn fails only when a lookup finds nothing
    ensures r.Failure? ==>
      var c := Choose(store, fp, q.suggestions);
      c.None? ||
        var resp := server(q.suggestions[c.value].id);
        && !resp.isCorrect
        && r.error == CorrectIdNotOffered(resp.correctSuggestionId)
        && forall j :: 0 <= j < 4 ==> q.suggestions[j].id != resp.correctSuggestionId
  {
    match Choose(store, fp, q.suggestions)
    case None => Failure(StoredNameNotOffered(store[fp]))
    case Some(g) =>
      var resp := server(q.suggestions[g].id);
      match GroundTruth(q.suggestions, g, resp)
      case None => Failure(CorrectIdNotOffered(resp.correctSuggestionId))
      case Some(t) => Success(Turn(g, t, resp.score, store[fp := q.suggestions[t].value]))
  }

  /** Only a failed lookup stops a turn: whenever a suggestion is chosen and
      the reply's correct id is among the four, the turn succeeds, right
      guess or wrong. */
  lemma OnlyFailedLookupsStop(store: Store, fp: u64, q: Question, server: Server)
    ensures var c := Choose(store, fp, q.suggestions);
      c.Some? && GroundTruth(q.suggestions, c.value, server(q.suggestions[c.value].id)).Some? ==>
        Play(store, fp, q, server).Success?
  {
  }

  /** The service is honest about a question whose correct suggestion has id
      `correct`: every reply names `correct`, and a guess is marked right
      exactly when it submitted `correct`. */
  ghost predicate Honest(server: Server, correct: u32)
  {
    forall id :: server(id).correctSuggestionId == correct && (server(id).isCorrect <==> id == correct)
  }

  /** No two suggestions of the question share a name. */
  predicate DistinctNames(s: Suggestions)
  {
    forall i, j :: 0 <= i < j < 4 ==> s[i].value != s[j].value
  }

  /** No two suggestions of the question share an id. */
  predicate DistinctIds(s: Suggestions)
  {
    forall i, j :: 0 <= i < j < 4 ==> s[i].id != s[j].id
  }

  /** Cold start: an unknown image is answered with the first suggestion, and
      only an id missing from the question can make the turn fail. */
  lemma ColdStartGuessesFirst(store: Store, fp: u64, q: Question, server: Server)
    requires fp !in store
    ensures Play(store, fp, q, server).Success? ==> Play(store, fp, q, server).value.guessed == 0
    ensures Play(store, fp, q, server).Failure? ==>
      var resp := server(q.suggestions[0].id);
      && !resp.isCorrect
      && Play(store, fp, q, server).error == CorrectIdNotOffered(resp.correctSuggestionId)
      && forall j :: 0 <= j < 4 ==> q.suggestions[j].id != resp.correctSuggestionId
  {
  }

  /** Self-correction: after a guess marked wrong, the store holds the name of
      the suggestion with the declared correct id, whatever was remembered or
      guessed before. When that suggestion is another one and names are
      distinct, the wrong name (the remembered one, if any) is replaced. */
  lemma WrongGuessIsCorrected(store: Store, fp: u64, q: Question, server: Server)
    requires Play(store, fp, q, server).Success?
    requires !server(q.suggestions[Play(store, fp, q, server).value.guessed].id).isCorrect
    ensures var t := Play(store, fp, q, server).value;
      var resp := server(q.suggestions[t.guessed].id);
      exists j :: 0 <= j < 4 && q.suggestions[j].id == resp.correctSuggestionId && t.store[fp] == q.suggestions[j].value
    ensures var t := Play(store, fp, q, server).value;
      var resp := server(q.suggestions[t.guessed].id);
      DistinctNames(q.suggestions) && q.suggestions[t.guessed].id != resp.correctSuggestionId ==>
        && t.store[fp] != q.suggestions[t.guessed].value
        && (fp in store ==> t.store[fp] != store[fp])
  {
  }

  /** Against an honest service whose correct id is among the suggestions, a
      turn never fails on the feedback and always stores the correct name. */
  lemma HonestFeedbackIsLearnt(store: Store, fp: u64, q: Question, server: Server, c: nat)
    requires c < 4 && Honest(server, q.suggestions[c].id) && DistinctIds(q.suggestions)
    requires Choose(store, fp, q.suggestions).Some?
    ensures Play(store, fp, q, server).Success?
    ensures Play(store, fp, q, server).value.store[fp] == q.suggestions[c].value
  {
  }

  /** Learning converges: once a question has been played against an honest
      service, playing the same image and suggestions again submits the
      correct suggestion and is marked right. */
  lemma SecondPlayIsRight(store: Store, fp: u64, q: Question, server: Server, c: nat)
    requires c < 4 && Honest(server, q.suggestions[c].id)
    requires DistinctIds(q.suggestions) && DistinctNames(q.suggestions)
    requires Choose(store, fp, q.suggestions).Some?
    ensures Play(store, fp, q, server).Success?
    ensures var again := Play(Play(store, fp, q, server).value.store, fp, q, server);
      again.Success? && again.value.guessed == c && server(q.suggestions[again.value.guessed].id).isCorrect
  {
  }
}
