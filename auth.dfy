/** The mock OAuth login: `GET /auth/providers` advertises the supported
    providers and `POST /auth/mock-login` accepts any token for one of them,
    builds a `User` with defaults for what the client left out, and stores it. */
module Auth {
  import opened Wrappers
  import opened Documents
  import opened Schemas

  /** The body of `POST /auth/mock-login` (`MockAuthRequest`). */
  datatype LoginRequest = LoginRequest(
    provider: string,
    token: Option<string>,
    name: Option<string>,
    email: Option<string>,
    photoUrl: Option<string>)

  datatype LoginError =
    | UnsupportedProvider                  // HTTP 400 "Unsupported provider"
    | InvalidUser(errors: seq<FieldError>) // `User(...)` refused its arguments

  /** The list `GET /auth/providers` returns. */
  const Advertised: seq<string> := ["google", "microsoft", "apple", "mock"]

  /** The set `mock-login` checks the lower-cased provider against. */
  const Supported: set<string> := {"google", "microsoft", "apple", "mock"}

  /** `str.lower()` on one character: `A`-`Z`, and the Kelvin sign, which is the
      one character outside ASCII whose lower case is a single ASCII letter. */
  function LowerChar(c: char): char
  {
    if 'A' <= c <= 'Z' then (c as int + 32) as char
    else if c == '\U{212A}' then 'k'
    else c
  }

  function Lower(s: string): string
  {
    if s == [] then [] else [LowerChar(s[0])] + Lower(s[1..])
  }

  /** `value or default`: both `None` and the empty string fall back. */
  function OrElse(value: Option<string>, default: string): string
  {
    if value.Some? && value.value != "" then value.value else default
  }

  function TextOrNull(value: Option<string>): Value
  {
    if value.Some? then Text(value.value) else Null
  }

  /** The keyword arguments `mock-login` passes to `User(...)` for an accepted
      provider; `is_active` is not among them. */
  function UserArguments(req: LoginRequest, provider: string): Record
  {
    map[
      "name" := Text(OrElse(req.name, "SafeShe User")),
      "email" := Text(OrElse(req.email, "user-" + provider + "@safeshe.app")),
      "provider" := Text(provider),
      "provider_id" := Text(OrElse(req.token, "mock-token")),
      "photo_url" := TextOrNull(req.photoUrl)
    ]
  }

  /** The user document `mock-login` stores, or why it answers with an error. */
  function MockLogin(req: LoginRequest): Result<Record, LoginError>
  {
    var provider := Lower(req.provider);
    if provider !in Supported then Failure(UnsupportedProvider)
    else
      UserWellFormed();
      match Validate(UserSchema, UserArguments(req, provider))
      case Success(doc) => Success(doc)
      case Failure(errors) => Failure(InvalidUser(errors))
  }

  /** The JSON answer to a successful login. */
  function LoginResponse(id: DocId, provider: string): Record
  {
    map["user_id" := OidText(id), "provider" := Text(provider)]
  }

  // ---------------------------------------------------------------------------
  // Properties of the provider check

  /** The set checked is the list advertised. */
  lemma AdvertisedIsSupported()
    ensures forall p :: p in Advertised <==> p in Supported
  {
  }

  lemma {:induction false} LowerLength(s: string)
    ensures |Lower(s)| == |s|
  {
    if s != [] {
      LowerLength(s[1..]);
    }
  }

  lemma {:induction false} LowerAt(s: string, i: nat)
    requires i < |s|
    ensures |Lower(s)| == |s| && Lower(s)[i] == LowerChar(s[i])
  {
    LowerLength(s);
    if i > 0 {
      LowerAt(s[1..], i - 1);
    }
  }

  /** Lower-casing twice is lower-casing once. */
  lemma {:induction false} LowerIdempotent(s: string)
    ensures Lower(Lower(s)) == Lower(s)
  {
    if s != [] {
      LowerIdempotent(s[1..]);
      assert Lower(s) == [LowerChar(s[0])] + Lower(s[1..]);
      assert Lower(s)[1..] == Lower(s[1..]);
    }
  }

  /** A lower-cased string has no upper-case ASCII letter left. */
  lemma LowerHasNoCapital(s: string, i: nat)
    requires i < |Lower(s)|
    ensures !('A' <= Lower(s)[i] <= 'Z')
  {
    LowerLength(s);
    LowerAt(s, i);
  }

  /** The provider check does not depend on letter case. */
  lemma ProviderCaseInsensitive(req: LoginRequest)
    ensures MockLogin(req) == MockLogin(req.(provider := Lower(req.provider)))
  {
    LowerIdempotent(req.provider);
  }

  // ---------------------------------------------------------------------------
  // Properties of the stored user

  /** The arguments always satisfy `User`: every one is a string, or null for
      the photo, and `is_active` takes its default. */
  lemma {:induction false} ArgumentsAccepted(req: LoginRequest, provider: string)
    ensures forall i :: 0 <= i < |UserSchema| ==> CheckField(UserSchema[i], UserArguments(req, provider)).Success?
  {
    var s := UserSchema;
    var args := UserArguments(req, provider);
    forall i | 0 <= i < |s|
      ensures CheckField(s[i], args).Success?
    {
      if i == 0 {} else if i == 1 {} else if i == 2 {} else if i == 3 {} else if i == 4 {} else {}
    }
  }

  /** `mock-login` fails exactly when the lower-cased provider is not one of
      the supported ones. */
  lemma MockLoginAccepts(req: LoginRequest)
    ensures MockLogin(req).Success? <==> Lower(req.provider) in Supported
    ensures MockLogin(req).Failure? ==> MockLogin(req).error == UnsupportedProvider
  {
    UserWellFormed();
    ArgumentsAccepted(req, Lower(req.provider));
  }

  /** What `User(...)` keeps of each argument. */
  lemma ArgumentChecks(req: LoginRequest, p: string)
    ensures var s := UserSchema; var args := UserArguments(req, p);
      && CheckField(s[0], args) == Success(Text(OrElse(req.name, "SafeShe User")))
      && CheckField(s[1], args) == Success(Text(OrElse(req.email, "user-" + p + "@safeshe.app")))
      && CheckField(s[2], args) == Success(Text(p))
  {
  }

  lemma MoreArgumentChecks(req: LoginRequest, p: string)
    ensures var s := UserSchema; var args := UserArguments(req, p);
      && CheckField(s[3], args) == Success(Text(OrElse(req.token, "mock-token")))
      && CheckField(s[4], args) == Success(TextOrNull(req.photoUrl))
      && CheckField(s[5], args) == Success(Bool(true))
  {
  }

  /** The stored user: the name, email and provider id the client sent unless
      missing or empty, the lower-cased provider, the photo as sent, and an
      active account. */
  lemma MockLoginUser(req: LoginRequest)
    requires MockLogin(req).Success?
    ensures var doc := MockLogin(req).value; var p := Lower(req.provider);
      && p in Supported
      && doc.Keys == {"name", "email", "provider", "provider_id", "photo_url", "is_active"}
      && doc["name"] == Text(if req.name.Some? && req.name.value != "" then req.name.value else "SafeShe User")
      && doc["email"] == Text(if req.email.Some? && req.email.value != "" then req.email.value else "user-" + p + "@safeshe.app")
      && doc["provider"] == Text(p)
      && doc["provider_id"] == Text(if req.token.Some? && req.token.value != "" then req.token.value else "mock-token")
      && doc["photo_url"] == (if req.photoUrl.Some? then Text(req.photoUrl.value) else Null)
      && doc["is_active"] == Bool(true)
  {
    var s := UserSchema;
    var p := Lower(req.provider);
    var args := UserArguments(req, p);
    UserWellFormed();
    UserNames();
    ArgumentChecks(req, p);
    MoreArgumentChecks(req, p);
    var doc := Validate(s, args).value;
    assert doc == MockLogin(req).value;
    assert doc[s[0].name] == Text(OrElse(req.name, "SafeShe User"));
    assert doc[s[1].name] == Text(OrElse(req.email, "user-" + p + "@safeshe.app"));
    assert doc[s[2].name] == Text(p);
    assert doc[s[3].name] == Text(OrElse(req.token, "mock-token"));
    assert doc[s[4].name] == TextOrNull(req.photoUrl);
    assert doc[s[5].name] == Bool(true);
  }

  /** The stored user is a valid `User`. */
  lemma MockLoginUserConforms(req: LoginRequest)
    requires MockLogin(req).Success?
    ensures Conforms(UserSchema, MockLogin(req).value)
  {
    UserWellFormed();
    ValidatedConforms(UserSchema, UserArguments(req, Lower(req.provider)));
  }

  /** A client that sends only the provider, in any letter case, is logged
      in with every default. */
  lemma MockDefaults(req: LoginRequest)
    requires Lower(req.provider) == "mock"
    requires req.token.None? && req.name.None? && req.email.None?
    ensures MockLogin(req).Success?
    ensures MockLogin(req).value["email"] == Text("user-mock@safeshe.app")
    ensures MockLogin(req).value["name"] == Text("SafeShe User")
    ensures MockLogin(req).value["provider_id"] == Text("mock-token")
  {
    assert "user-" + Lower(req.provider) + "@safeshe.app" == "user-mock@safeshe.app";
    MockLoginAccepts(req);
    MockLoginUser(req);
  }

  // ---------------------------------------------------------------------------
  // The endpoint

  /** `POST /auth/mock-login`: nothing is stored unless the provider is
      supported; otherwise exactly one `user` document is inserted, and its
      fresh id comes back with the provider. */
  method MockLoginEndpoint(store: DocumentStore, req: LoginRequest) returns (response: Result<Record, LoginError>)
    requires store.Valid()
    modifies store
    ensures store.Valid()
    ensures response.Failure? <==> MockLogin(req).Failure?
    ensures response.Failure? ==> response == MockLogin(req) && store.docs == old(store.docs)
    ensures response.Success? ==>
      && "user_id" in response.value
      && response.value["user_id"].OidText?
      && var id := response.value["user_id"].id;
      && id !in old(store.Ids())
      && store.docs == old(store.docs) + [Document("user", id, MockLogin(req).value)]
      && response.value == LoginResponse(id, Lower(req.provider))
  {
    var login := MockLogin(req);
    if login.Failure? {
      response := Failure(login.error);
      return;
    }
    var id := store.Create("user", login.value);
    response := Success(LoginResponse(id, Lower(req.provider)));
  }
}
