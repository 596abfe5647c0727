/** The vocabulary the player shares with the faces service: the integer
    widths it works with (`u32` ids and `i32` scores from the JSON records,
    `u8` image bytes, the `u64` image fingerprint), the records the service
    sends, the requests the player sends (relative paths and bodies) and the
    login form. */
module Protocol {
  import opened Wrappers
  import opened Lookup

  newtype u8 = x: int | 0 <= x < 0x100
  newtype u32 = x: int | 0 <= x < 0x1_0000_0000
  newtype i32 = x: int | -0x8000_0000 <= x < 0x8000_0000
  newtype u64 = x: int | 0 <= x < 0x1_0000_0000_0000_0000

  /** One of the four names offered for a face. */
  datatype Suggestion = Suggestion(id: u32, value: string)

  /** A question always carries exactly four suggestions (`[Suggestion; 4]`). */
  type Suggestions = s: seq<Suggestion> | |s| == 4
    witness [Suggestion(0, ""), Suggestion(0, ""), Suggestion(0, ""), Suggestion(0, "")]

  datatype Question = Question(id: u32, imageUrl: string, suggestions: Suggestions)

  datatype Game = Game(id: string, nbQuestions: u32)

  datatype GuessResponse = GuessResponse(score: i32, isCorrect: bool, correctSuggestionId: u32)

  /** The service's answer to a guess, as a function of the suggestion id submitted. */
  type Server = u32 -> GuessResponse

  /** The bytes of an image prefix and the seeded hash that fingerprints them. */
  type Image = seq<u8>
  type Hasher = Image -> u64

  /** Everything that makes a run stop: each is an `Err` or a panicking `unwrap`. */
  datatype Error =
    | LoginPageStatus          // the GET of the login page was not a success
    | TokenElementMissing      // no verification-token input on the login page
    | TokenValueMissing        // the first such input has no `value` attribute
    | LoginRejected            // the POST of the login form was not a success
    | GameStartStatus          // the POST that starts a game was not a success
    | StoredNameNotOffered(name: string)  // the remembered name is not among the four
    | CorrectIdNotOffered(id: u32)        // the declared correct id is not among the four
    | StorageCorrupt           // the data file exists but does not parse
    | StorageWriteFailed       // the data file could not be written
    | TotalOverflow            // the sum of the scores leaves the i32 range

  /** JSON and form bodies. */
  datatype Body =
    | EmptyJson
    | GameFilters(departmentIds: seq<nat>, establishmentIds: seq<nat>)
    | GuessJson(questionId: u32, suggestionId: u32)
    | Form(fields: map<string, string>)

  /** A request, with its path relative to the service's base URL. */
  datatype Request = Get(path: string, range: Option<string>) | Post(path: string, body: Body)

  const LoginAddr: string := "identity/login"
  const FacesAddr: string := "faces/api"
  const TokenField: string := "__RequestVerificationToken"
  /** Only the first 1024 bytes of an image are fetched. */
  const ImageRange: string := "bytes=0-1023"

  // ---------------------------------------------------------------------------
  // Decimal rendering of question ids (`u32::to_string`)

  predicate IsDigit(c: char) { '0' <= c <= '9' }

  predicate AllDigits(s: string) { forall i :: 0 <= i < |s| ==> IsDigit(s[i]) }

  function DigitChar(d: nat): (c: char)
    requires d < 10
    ensures IsDigit(c) && c as int - '0' as int == d
  {
    ('0' as int + d) as char
  }

  /** The shortest decimal rendering of `n`, without sign or leading zeros. */
  function Decimal(n: nat): (s: string)
    ensures |s| >= 1 && AllDigits(s)
    ensures s[0] == '0' <==> n == 0
    ensures |s| == 1 <==> n < 10
  {
    if n < 10 then [DigitChar(n)] else Decimal(n / 10) + [DigitChar(n % 10)]
  }

  /** The value of a string of digits, most significant first. */
  function ParseDecimal(s: string): nat
    requires AllDigits(s)
  {
    if s == [] then 0
    else ParseDecimal(s[..|s| - 1]) * 10 + (s[|s| - 1] as int - '0' as int)
  }

  lemma {:induction false} DecimalRoundTrip(n: nat)
    ensures ParseDecimal(Decimal(n)) == n
  {
    var s := Decimal(n);
    if n < 10 {
      assert s[..|s| - 1] == [];
    } else {
      assert s[..|s| - 1] == Decimal(n / 10);
      DecimalRoundTrip(n / 10);
    }
  }

  lemma DecimalInjective(a: nat, b: nat)
    ensures Decimal(a) == Decimal(b) ==> a == b
  {
    DecimalRoundTrip(a);
    DecimalRoundTrip(b);
  }

  // ---------------------------------------------------------------------------
  // Relative paths of the game endpoints

  const GamesPrefix: string := FacesAddr + "/games/"
  const QuestionsInfix: string := "/questions/"
  const NextSuffix: string := "/questions/next"
  const GuessSuffix: string := "/guess"

  /** Where the next question of a game is asked for. */
  function NextQuestionPath(gameId: string): string
  {
    FacesAddr + "/games/" + gameId + "/questions/next"
  }

  /** Where the guess for one question of a game is posted. */
  function GuessPath(gameId: string, questionId: u32): string
  {
    FacesAddr + "/games/" + gameId + "/questions/" + Decimal(questionId as nat) + "/guess"
  }

  /** The position of the last '/' of `s`. */
  function LastSlash(s: string): (r: Option<nat>)
    ensures r.Some? ==> r.value < |s| && s[r.value] == '/'
    ensures r.Some? ==> forall j :: r.value < j < |s| ==> s[j] != '/'
    ensures r.None? <==> forall j :: 0 <= j < |s| ==> s[j] != '/'
  {
    if s == [] then None
    else if s[|s| - 1] == '/' then Some(|s| - 1)
    else LastSlash(s[..|s| - 1])
  }

  /** Recovers the game id from a next-question path. */
  function ParseNextQuestionPath(p: string): Option<string>
  {
    if |p| < |GamesPrefix| + |NextSuffix| then None
    else if p[..|GamesPrefix|] != GamesPrefix || p[|p| - |NextSuffix|..] != NextSuffix then None
    else Some(p[|GamesPrefix|..|p| - |NextSuffix|])
  }

  /** Recovers the game id and the question id from a guess path. The question
      id is the digit run between the last '/' and the "/guess" suffix, so a
      game id that itself contains slashes is still recovered whole. */
  function ParseGuessPath(p: string): Option<(string, nat)>
  {
    if |p| < |GamesPrefix| + |GuessSuffix| then None
    else if p[..|GamesPrefix|] != GamesPrefix || p[|p| - |GuessSuffix|..] != GuessSuffix then None
    else ParseGameAndQuestion(p[|GamesPrefix|..|p| - |GuessSuffix|])
  }

  /** Splits "<game id>/questions/<digits>" at its last '/'. */
  function ParseGameAndQuestion(m: string): Option<(string, nat)>
  {
    match LastSlash(m)
    case None => None
    case Some(k) =>
      var digits := m[k + 1..];
      if k + 1 < |QuestionsInfix| || m[k + 1 - |QuestionsInfix|..k + 1] != QuestionsInfix then None
      else if digits == [] || !AllDigits(digits) then None
      else Some((m[..k + 1 - |QuestionsInfix|], ParseDecimal(digits)))
  }

  lemma NextQuestionPathRoundTrip(gameId: string)
    ensures ParseNextQuestionPath(NextQuestionPath(gameId)) == Some(gameId)
  {
  }

  /** The last '/' of `x + y` is the last character of `x` when `y` has none. */
  lemma LastSlashOfJoin(x: string, y: string)
    requires |x| > 0 && x[|x| - 1] == '/'
    requires forall j :: 0 <= j < |y| ==> y[j] != '/'
    ensures LastSlash(x + y) == Some(|x| - 1)
  {
    var m := x + y;
    assert m[|x| - 1] == '/';
    assert forall j :: |x| - 1 < j < |m| ==> m[j] == y[j - |x|];
  }

  lemma GameAndQuestionRoundTrip(gameId: string, questionId: nat)
    ensures ParseGameAndQuestion(gameId + QuestionsInfix + Decimal(questionId)) == Some((gameId, questionId))
  {
    var d := Decimal(questionId);
    var x := gameId + QuestionsInfix;
    var m := x + d;
    var k := |x| - 1;
    assert forall j :: 0 <= j < |d| ==> IsDigit(d[j]);
    LastSlashOfJoin(x, d);
    assert m[k + 1..] == d;
    assert m[k + 1 - |QuestionsInfix|..k + 1] == QuestionsInfix;
    assert m[..k + 1 - |QuestionsInfix|] == gameId;
    DecimalRoundTrip(questionId);
  }

  lemma GuessPathRoundTrip(gameId: string, questionId: u32)
    ensures ParseGuessPath(GuessPath(gameId, questionId)) == Some((gameId, questionId as nat))
  {
    var m := gameId + QuestionsInfix + Decimal(questionId as nat);
    var p := GuessPath(gameId, questionId);
    assert p == GamesPrefix + m + GuessSuffix;
    assert p[..|GamesPrefix|] == GamesPrefix;
    assert p[|p| - |GuessSuffix|..] == GuessSuffix;
    assert p[|GamesPrefix|..|p| - |GuessSuffix|] == m;
    GameAndQuestionRoundTrip(gameId, questionId as nat);
  }

  /** Distinct (game, question) pairs are posted to distinct guess paths. */
  lemma GuessPathInjective(g1: string, q1: u32, g2: string, q2: u32)
    ensures GuessPath(g1, q1) == GuessPath(g2, q2) ==> g1 == g2 && q1 == q2
  {
    GuessPathRoundTrip(g1, q1);
    GuessPathRoundTrip(g2, q2);
  }

  /** A next-question request can never be mistaken for a guess, whatever the game ids. */
  lemma NextQuestionIsNotGuess(g1: string, g2: string, q: u32)
    ensures NextQuestionPath(g1) != GuessPath(g2, q)
  {
    var a, b := NextQuestionPath(g1), GuessPath(g2, q);
    assert a[|a| - 1] == 't';
    assert b[|b| - 1] == 's';
  }

  // ---------------------------------------------------------------------------
  // Login

  /** An `<input>` element of the login page, with its `name` and its optional
      `value` attribute, in document order. */
  datatype HtmlInput = HtmlInput(name: string, value: Option<string>)

  /** The anti-forgery token: the `value` of the FIRST input named
      `__RequestVerificationToken`; a later input is never consulted. */
  function FindToken(inputs: seq<HtmlInput>): (r: Result<string, Error>)
    ensures r == Failure(TokenElementMissing) <==> forall i :: 0 <= i < |inputs| ==> inputs[i].name != TokenField
    ensures r.Failure? ==> r.error in {TokenElementMissing, TokenValueMissing}
    ensures r.Success? <==> exists i :: 0 <= i < |inputs| && inputs[i].name == TokenField && inputs[i].value.Some?
                                     && forall j :: 0 <= j < i ==> inputs[j].name != TokenField
    ensures r.Success? ==> exists i :: 0 <= i < |inputs| && inputs[i].value == Some(r.value)
                                     && inputs[i].name == TokenField
                                     && forall j :: 0 <= j < i ==> inputs[j].name != TokenField
  {
    match FirstWhere(inputs, (e: HtmlInput) => e.name == TokenField)
    case None => Failure(TokenElementMissing)
    case Some(i) =>
      if inputs[i].value.None? then Failure(TokenValueMissing) else Success(inputs[i].value.value)
  }

  /** The form posted to the login endpoint: five distinct fields, none of
      which overwrites another. */
  function LoginForm(userName: string, password: string, token: string): (f: map<string, string>)
    ensures f.Keys == {"ReturnUrl", "UserName", "Password", "IsPersistent", TokenField}
    ensures |f| == 5
    ensures f["ReturnUrl"] == "/home" && f["IsPersistent"] == "true"
    ensures f["UserName"] == userName && f["Password"] == password && f[TokenField] == token
  {
    map[]["ReturnUrl" := "/home"]["UserName" := userName]["Password" := password]
      ["IsPersistent" := "true"][TokenField := token]
  }
}
