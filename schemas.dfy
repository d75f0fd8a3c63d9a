/** The request models and their validators: field bounds declared with `Field(...)`
    and the `@validator` methods of PostCreate, PostUpdate and UserCreate. Pydantic
    checks a field's declared bounds first and runs its validator only on a value that
    passed them; it reports one error per failing field, in field order. */
module Schemas {
  import opened Wrappers
  import opened PyStr

  /** Why a field was rejected. */
  datatype Reason =
    | TooShort(minLength: nat)      // min_length
    | TooLong(maxLength: nat)       // max_length
    | BelowMinimum(ge: int)         // ge
    | AboveMaximum(le: int)         // le
    | ValueError(message: string)   // raised by a @validator

  datatype FieldError = FieldError(field: string, reason: Reason)

  /** The validated bodies. */
  datatype PostCreate = PostCreate(title: string, content: string, published: bool, rating: Option<int>)
  datatype PostUpdate = PostUpdate(title: Option<string>, content: Option<string>,
                                   published: Option<bool>, rating: Option<int>)
  datatype UserCreate = UserCreate(email: string, password: string)
  datatype Vote = Vote(postId: int, dir: int)

  const CREATE_BAD_WORDS: seq<string> := ["spam", "advertisement", "clickbait"]
  const UPDATE_BAD_WORDS: seq<string> := ["spam", "fake", "test"]
  const CREATE_TITLE_MAX := 100
  const UPDATE_TITLE_MIN := 3
  const UPDATE_TITLE_MAX := 200
  const UPDATE_CONTENT_MIN := 1
  const PASSWORD_MIN := 6

  /** Some word of `words` is a substring of the lower-cased `v`. */
  ghost predicate HasBadWord(v: string, words: seq<string>) {
    exists w :: w in words && Occurs(w, Lower(v))
  }

  // ---------------------------------------------------------------------------
  // Field bounds

  /** `rating: Optional[int] = Field(None, ge=0, le=5)`, shared by PostBase and PostUpdate. */
  function CheckRating(v: Option<int>): (r: Result<Option<int>, Reason>)
    ensures r.Ok? <==> v.None? || 0 <= v.value <= 5
    ensures r.Ok? ==> r.value == v
    ensures r.Err? ==> r.error == (if v.value < 0 then BelowMinimum(0) else AboveMaximum(5))
  {
    match v
    case None => Ok(v)
    case Some(n) =>
      if n < 0 then Err(BelowMinimum(0))
      else if n > 5 then Err(AboveMaximum(5))
      else Ok(v)
  }

  /** `Vote.dir: int = Field(..., ge=0, le=1)`. */
  function CheckVoteDir(d: int): (r: Result<int, Reason>)
    ensures r.Ok? <==> d == 0 || d == 1
    ensures r.Ok? ==> r.value == d
  {
    if d < 0 then Err(BelowMinimum(0))
    else if d > 1 then Err(AboveMaximum(1))
    else Ok(d)
  }

  // ---------------------------------------------------------------------------
  // PostCreate

  /** `PostCreate.title_no_bad_words`. */
  function CreateTitleNoBadWords(v: string): (r: Result<string, Reason>)
    ensures r.Err? <==> HasBadWord(v, CREATE_BAD_WORDS)
    ensures r.Ok? ==> r.value == v
    ensures r.Err? ==> r.error == ValueError("Title contains inappropriate content")
  {
    if AnyContained(Lower(v), CREATE_BAD_WORDS) then Err(ValueError("Title contains inappropriate content"))
    else Ok(v)
  }

  /** `PostCreate.content_must_not_be_empty`. */
  function CreateContentNotEmpty(v: string): (r: Result<string, Reason>)
    ensures r.Err? <==> AllSpace(v)
    ensures r.Ok? ==> r.value == v
    ensures r.Err? ==> r.error == ValueError("Content must not be empty or whitespace")
  {
    if Strip(v) == [] then Err(ValueError("Content must not be empty or whitespace"))
    else Ok(v)
  }

  /** `PostBase.title` (`max_length=100`) followed by the PostCreate validator. */
  function CheckCreateTitle(v: string): (r: Result<string, Reason>)
    ensures r.Ok? <==> |v| <= CREATE_TITLE_MAX && !HasBadWord(v, CREATE_BAD_WORDS)
    ensures r.Ok? ==> r.value == v
  {
    if |v| > CREATE_TITLE_MAX then Err(TooLong(CREATE_TITLE_MAX)) else CreateTitleNoBadWords(v)
  }

  function ErrorsOf<T>(field: string, r: Result<T, Reason>): (errs: seq<FieldError>)
    ensures errs == [] <==> r.Ok?
  {
    if r.Ok? then [] else [FieldError(field, r.error)]
  }

  /** Building a PostCreate from a request body; `published` is None when the body omits
      it, and then defaults to true. */
  function ValidatePostCreate(title: string, content: string, published: Option<bool>, rating: Option<int>)
    : (r: Result<PostCreate, seq<FieldError>>)
    ensures r.Ok? <==>
      && |title| <= CREATE_TITLE_MAX && !HasBadWord(title, CREATE_BAD_WORDS)
      && !AllSpace(content)
      && (rating.None? || 0 <= rating.value <= 5)
    ensures r.Ok? ==> r.value == PostCreate(title, content, published.GetOr(true), rating)
    ensures r.Err? ==> 1 <= |r.error| <= 3
  {
    var errs := ErrorsOf("title", CheckCreateTitle(title))
              + ErrorsOf("content", CreateContentNotEmpty(content))
              + ErrorsOf("rating", CheckRating(rating));
    if errs == [] then Ok(PostCreate(title, content, published.GetOr(true), rating)) else Err(errs)
  }

  // ---------------------------------------------------------------------------
  // PostUpdate

  /** `PostUpdate.title_no_bad_words`: only a non-empty title is checked. */
  function UpdateTitleNoBadWords(v: Option<string>): (r: Result<Option<string>, Reason>)
    ensures r.Err? <==> v.Some? && v.value != [] && HasBadWord(v.value, UPDATE_BAD_WORDS)
    ensures r.Ok? ==> r.value == v
    ensures r.Err? ==> r.error == ValueError("Le titre contient des mots interdits")
  {
    if v.Some? && v.value != [] && AnyContained(Lower(v.value), UPDATE_BAD_WORDS) then
      Err(ValueError("Le titre contient des mots interdits"))
    else Ok(v)
  }

  /** `PostUpdate.content_not_empty`: only non-empty content is checked. */
  function UpdateContentNotEmpty(v: Option<string>): (r: Result<Option<string>, Reason>)
    ensures r.Err? <==> v.Some? && v.value != [] && AllSpace(v.value)
    ensures r.Ok? ==> r.value == v
    ensures r.Err? ==> r.error == ValueError("Le contenu ne peut pas être vide")
  {
    if v.Some? && v.value != [] && Strip(v.value) == [] then Err(ValueError("Le contenu ne peut pas être vide"))
    else Ok(v)
  }

  /** `PostUpdate.title` (`min_length=3, max_length=200`) followed by its validator. */
  function CheckUpdateTitle(v: Option<string>): (r: Result<Option<string>, Reason>)
    ensures r.Ok? <==>
      (v.None? || (UPDATE_TITLE_MIN <= |v.value| <= UPDATE_TITLE_MAX && !HasBadWord(v.value, UPDATE_BAD_WORDS)))
    ensures r.Ok? ==> r.value == v
  {
    match v
    case None => UpdateTitleNoBadWords(v)
    case Some(s) =>
      if |s| < UPDATE_TITLE_MIN then Err(TooShort(UPDATE_TITLE_MIN))
      else if |s| > UPDATE_TITLE_MAX then Err(TooLong(UPDATE_TITLE_MAX))
      else UpdateTitleNoBadWords(v)
  }

  /** `PostUpdate.content` (`min_length=1`) followed by its validator. */
  function CheckUpdateContent(v: Option<string>): (r: Result<Option<string>, Reason>)
    ensures r.Ok? <==> v.None? || !AllSpace(v.value)
    ensures r.Ok? ==> r.value == v
  {
    match v
    case None => UpdateContentNotEmpty(v)
    case Some(s) =>
      if |s| < UPDATE_CONTENT_MIN then Err(TooShort(UPDATE_CONTENT_MIN)) else UpdateContentNotEmpty(v)
  }

  /** Building a PostUpdate from a request body; an omitted field is None. */
  function ValidatePostUpdate(title: Option<string>, content: Option<string>,
                              published: Option<bool>, rating: Option<int>)
    : (r: Result<PostUpdate, seq<FieldError>>)
    ensures r.Ok? <==>
      && (title.None? || (3 <= |title.value| <= 200 && !HasBadWord(title.value, UPDATE_BAD_WORDS)))
      && (content.None? || !AllSpace(content.value))
      && (rating.None? || 0 <= rating.value <= 5)
    ensures r.Ok? ==> r.value == PostUpdate(title, content, published, rating)
    ensures r.Err? ==> 1 <= |r.error| <= 3
  {
    var errs := ErrorsOf("title", CheckUpdateTitle(title))
              + ErrorsOf("content", CheckUpdateContent(content))
              + ErrorsOf("rating", CheckRating(rating));
    if errs == [] then Ok(PostUpdate(title, content, published, rating)) else Err(errs)
  }

  // ---------------------------------------------------------------------------
  // UserCreate and Vote

  /** `UserCreate.password_strength`. */
  function PasswordStrength(v: string): (r: Result<string, Reason>)
    ensures r.Ok? <==> |v| >= PASSWORD_MIN
    ensures r.Ok? ==> r.value == v
  {
    if |v| < PASSWORD_MIN then Err(ValueError("Password must be at least 6 characters long")) else Ok(v)
  }

  /** `UserCreate.email_must_be_valid`. */
  function EmailMustBeValid(v: string): (r: Result<string, Reason>)
    ensures r.Ok? <==> '@' in v
    ensures r.Ok? ==> r.value == v
  {
    if '@' !in v then Err(ValueError("Invalid email address")) else Ok(v)
  }

  /** `UserCreate.password` (`min_length=6`) followed by its validator; the validator's
      own length test can then never fail. */
  function CheckPassword(v: string): (r: Result<string, Reason>)
    ensures r.Ok? <==> |v| >= PASSWORD_MIN
    ensures r.Err? ==> r.error == TooShort(PASSWORD_MIN)
    ensures r.Ok? ==> r.value == v
  {
    if |v| < PASSWORD_MIN then Err(TooShort(PASSWORD_MIN)) else PasswordStrength(v)
  }

  /** Building a UserCreate from a request body. */
  function ValidateUserCreate(email: string, password: string): (r: Result<UserCreate, seq<FieldError>>)
    ensures r.Ok? <==> '@' in email && |password| >= PASSWORD_MIN
    ensures r.Ok? ==> r.value == UserCreate(email, password)
    ensures r.Err? ==> 1 <= |r.error| <= 2
  {
    var errs := ErrorsOf("email", EmailMustBeValid(email)) + ErrorsOf("password", CheckPassword(password));
    if errs == [] then Ok(UserCreate(email, password)) else Err(errs)
  }

  /** Building a Vote from a request body. */
  function ValidateVote(postId: int, dir: int): (r: Result<Vote, seq<FieldError>>)
    ensures r.Ok? <==> dir == 0 || dir == 1
    ensures r.Ok? ==> r.value == Vote(postId, dir)
  {
    var errs := ErrorsOf("dir", CheckVoteDir(dir));
    if errs == [] then Ok(Vote(postId, dir)) else Err(errs)
  }

  // ---------------------------------------------------------------------------
  // What the bad-word checks mean

  /** Lower-casing maps an embedded word to the embedded lower-cased word. */
  lemma LowerAround(a: string, w: string, b: string)
    ensures Lower(a + w + b) == Lower(a) + Lower(w) + Lower(b)
    ensures OccursAt(Lower(w), Lower(a + w + b), |Lower(a)|)
  {
    LowerConcat(a + w, b);
    LowerConcat(a, w);
    var l := Lower(a) + Lower(w) + Lower(b);
    assert l[|Lower(a)|..|Lower(a)| + |Lower(w)|] == Lower(w);
  }

  /** The PostCreate title check ignores case: a title with "SPAM" anywhere in it is
      rejected. */
  lemma CapitalSpamRejected(a: string, b: string)
    ensures CreateTitleNoBadWords(a + "SPAM" + b).Err?
  {
    LowerAround(a, "SPAM", b);
    assert Lower("SPAM") == "spam";
    assert "spam" in CREATE_BAD_WORDS;
  }

  /** The checks look for substrings, not words: a PostUpdate title containing "test"
      inside a longer word, such as "Latest news", is rejected. */
  lemma TestInsideWordRejected(a: string, b: string)
    ensures UpdateTitleNoBadWords(Some(a + "test" + b)).Err?
  {
    LowerAround(a, "test", b);
    assert Lower("test") == "test";
    assert "test" in UPDATE_BAD_WORDS;
  }
}
