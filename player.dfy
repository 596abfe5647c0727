/** The player: its options, its answer store, and the requests it makes to
    log in, start a game and answer one question. Every reply of the service
    is an input of the method that would have waited for it. */
module Players {
  import opened Wrappers
  import opened Lookup
  import opened Protocol
  import opened Decision

  /** What the data file holds: nothing, text that does not parse, or a table. */
  datatype DataFile = Absent | Unparsable | Table(entries: Store)

  /** The store a data file yields: an absent file is an empty store, an
      unparsable one an error, a table exactly its entries. */
  function LoadStore(file: DataFile): (r: Result<Store, Error>)
    ensures r.Failure? <==> file.Unparsable?
    ensures r.Failure? ==> r.error == StorageCorrupt
    ensures file.Absent? ==> r == Success(map[])
    ensures file.Table? ==> r == Success(file.entries)
  {
    match file
    case Absent => Success(map[])
    case Unparsable => Failure(StorageCorrupt)
    case Table(entries) => Success(entries)
  }

  class Player {
    const training: bool
    /** The seeded hash of an image prefix (ahash with four fixed seeds). */
    const hasher: Hasher
    /** The answer store, updated in place as questions are answered. */
    var store: Store
    /** The stores handed to the data file, one per `Save` call, oldest first. */
    ghost var saves: seq<Store>

    constructor (training: bool, hasher: Hasher, store: Store)
      ensures this.training == training && this.hasher == hasher && this.store == store
      ensures saves == []
    {
      this.training := training;
      this.hasher := hasher;
      this.store := store;
      saves := [];
    }

    /** A player whose store is read from the data file. */
    static method Open(training: bool, hasher: Hasher, file: DataFile) returns (r: Result<Player, Error>)
      ensures r.Failure? <==> file.Unparsable?
      ensures r.Failure? ==> r.error == StorageCorrupt
      ensures r.Success? ==> fresh(r.value) && r.value.training == training && r.value.hasher == hasher
      ensures r.Success? ==> Success(r.value.store) == LoadStore(file) && r.value.saves == []
    {
      var loaded := LoadStore(file);
      if loaded.Failure? {
        return Failure(loaded.error);
      }
      var p := new Player(training, hasher, loaded.value);
      r := Success(p);
    }

    /** Replaces the store by the data file's contents; on a parse error the
        store is left as it was. */
    method Reload(file: DataFile) returns (r: Result<(), Error>)
      modifies this`store
      ensures r.Failure? <==> file.Unparsable?
      ensures r.Failure? ==> r.error == StorageCorrupt && store == old(store)
      ensures r.Success? ==> Success(store) == LoadStore(file)
    {
      var loaded := LoadStore(file);
      if loaded.Failure? {
        return Failure(loaded.error);
      }
      store := loaded.value;
      r := Success(());
    }

    /** Writes the whole store to the data file, replacing what it held; the
        write succeeds exactly when the file system lets it. Every call, failed
        or not, is recorded in `saves`. */
    method Save(writeOk: bool) returns (r: Result<DataFile, Error>)
      modifies this`saves
      ensures saves == old(saves) + [store]
      ensures r.Success? <==> writeOk
      ensures r.Failure? ==> r.error == StorageWriteFailed
      ensures r.Success? ==> LoadStore(r.value) == Success(store)
    {
      saves := saves + [store];
      if !writeOk {
        return Failure(StorageWriteFailed);
      }
      r := Success(Table(store));
    }

    /** The two-step login: fetch the login page, read the anti-forgery token
        from it, post the credentials with the token. `sent` lists the
        requests made; the form is posted only once a token was found. */
    method Login(userName: string, password: string, pageOk: bool, page: seq<HtmlInput>, postOk: bool)
      returns (r: Result<(), Error>, sent: seq<Request>)
      ensures |sent| >= 1 && sent[0] == Get(LoginAddr, None)
      ensures !pageOk ==> r == Failure(LoginPageStatus) && |sent| == 1
      ensures pageOk && FindToken(page).Failure? ==> r == Failure(FindToken(page).error) && |sent| == 1
      ensures |sent| == 2 <==> pageOk && FindToken(page).Success?
      ensures |sent| == 2 ==> sent[1] == Post(LoginAddr, Form(LoginForm(userName, password, FindToken(page).value)))
      ensures r.Success? <==> pageOk && FindToken(page).Success? && postOk
      ensures |sent| == 2 && !postOk ==> r == Failure(LoginRejected)
    {
      sent := [Get(LoginAddr, None)];
      if !pageOk {
        return Failure(LoginPageStatus), sent;
      }
      var token := FindToken(page);
      if token.Failure? {
        return Failure(token.error), sent;
      }
      var form := LoginForm(userName, password, token.value);
      sent := sent + [Post(LoginAddr, Form(form))];
      if postOk {
        r := Success(());
      } else {
        r := Failure(LoginRejected);
      }
    }

    /** Starts a game: the training endpoint with empty department and
        establishment filters in training mode, the plain endpoint with an
        empty JSON object otherwise. */
    method StartGame(statusOk: bool, reply: Game) returns (r: Result<Game, Error>, sent: Request)
      ensures training ==> sent == Post("faces/api/games/training", GameFilters([], []))
      ensures !training ==> sent == Post("faces/api/games", EmptyJson)
      ensures r.Success? <==> statusOk
      ensures r.Success? ==> r.value == reply
      ensures r.Failure? ==> r.error == GameStartStatus
    {
      var path := FacesAddr + "/games";
      if training {
        path := path + "/training";
      }
      var body := if training then GameFilters([], []) else EmptyJson;
      sent := Post(path, body);
      if !statusOk {
        return Failure(GameStartStatus), sent;
      }
      r := Success(reply);
    }

    /** Answers one question of `game`: `question` is the service's reply to
        the next-question request, `image` the first bytes of its picture and
        `server` the service's reply to the guess submitted. The store learns
        the declared answer for the picture's fingerprint; on any failure it is
        left as it was. `sent` lists the requests made, in order. */
    method Guess(game: Game, question: Question, image: Image, server: Server)
      returns (r: Result<i32, Error>, sent: seq<Request>)
      modifies this`store
      ensures var p := Play(old(store), hasher(image), question, server);
        && (p.Success? ==> r == Success(p.value.score) && store == p.value.store)
        && (p.Failure? ==> r == Failure(p.error) && store == old(store))
      ensures var choice := Choose(old(store), hasher(image), question.suggestions);
        && |sent| == (if choice.Some? then 3 else 2)
        && sent[0] == Post(NextQuestionPath(game.id), EmptyJson)
        && sent[1] == Get(question.imageUrl, Some(ImageRange))
        && (choice.Some? ==> sent[2] == Post(GuessPath(game.id, question.id),
                                             GuessJson(question.id, question.suggestions[choice.value].id)))
    {
      sent := [Post(NextQuestionPath(game.id), EmptyJson), Get(question.imageUrl, Some(ImageRange))];
      var fp := hasher(image);
      var s := question.suggestions;
      var choice := Choose(store, fp, s);
      if choice.None? {
        return Failure(StoredNameNotOffered(store[fp])), sent;
      }
      var suggestion := s[choice.value];
      sent := sent + [Post(GuessPath(game.id, question.id), GuessJson(question.id, suggestion.id))];
      var response := server(suggestion.id);
      var correct := GroundTruth(s, choice.value, response);
      if correct.None? {
        return Failure(CorrectIdNotOffered(response.correctSuggestionId)), sent;
      }
      store := store[fp := s[correct.value].value];
      r := Success(response.score);
    }
  }
}
