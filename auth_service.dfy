/** The client's session service: the signed-in user is kept as JSON text
    under one key of the browser's `localStorage`. */
module AuthService {

  import opened Options
  import opened Json

  /** The only storage key the service touches. */
  const UserKey := "user"

  /** How the POST to `/login/` ends, as the HTTP client reports it: a
      response with its status and parsed body, or no response at all (the
      network failed). */
  datatype HttpOutcome = Response(status: int, data: Json) | NoResponse

  /** The HTTP client resolves on a 2xx status and rejects otherwise. */
  predicate Accepted(status: int)
  {
    200 <= status < 300
  }

  /** What `login` throws: the error response's body, or a TypeError raised
      while reading a property of null or undefined. */
  datatype Thrown = ErrorBody(data: Json) | TypeError

  /** The message of the TypeError `login` throws, in V8's wording; every
      TypeError that leaves `login` comes from `error.response.data` with no
      `error.response`. */
  const TypeErrorMessage := "Cannot read properties of undefined (reading 'data')"

  /** How the promise returned by `login` settles. */
  datatype Settled = Resolved(data: Json) | Rejected(thrown: Thrown)

  /** `JSON.stringify(user)` as `setItem` stores it: `undefined` is turned
      into the text "undefined". */
  function StoredText(user: Property): (text: string)
    requires !user.ThrowsTypeError?
    ensures user.Present? ==> text == Serialize(user.value)
    ensures user.Undefined? ==> Parse(text) == SyntaxError
  {
    match user
    case Present(v) => Serialize(v)
    case Undefined =>
      UndefinedIsNotJson();
      "undefined"
  }

  lemma UndefinedIsNotJson()
    ensures Parse("undefined") == SyntaxError
  {
    var s := "undefined";
    NoLeadingWs(s);
  }

  /** How `login(email, password)` settles for a given outcome of the POST.
      A success whose body is null fails on `response.data.user`; the catch
      block then fails on `error.response.data` in the same way. */
  function LoginResult(outcome: HttpOutcome): (s: Settled)
    ensures s.Resolved? <==> outcome.Response? && Accepted(outcome.status) && outcome.data != JNull
    ensures s.Resolved? ==> s.data == outcome.data
    ensures outcome.Response? && !Accepted(outcome.status) ==> s == Rejected(ErrorBody(outcome.data))
    ensures s == Rejected(TypeError) <==>
              outcome.NoResponse? || (Accepted(outcome.status) && outcome.data == JNull)
  {
    match outcome
    case NoResponse => Rejected(TypeError)
    case Response(status, data) =>
      if !Accepted(status) then Rejected(ErrorBody(data))
      else if PropertyOf(data, "user").ThrowsTypeError? then Rejected(TypeError)
      else Resolved(data)
  }

  /** The storage after `login`: only a resolved call writes, and only
      `UserKey`, where it puts the text of the body's `user`. */
  function AfterLogin(storage: map<string, string>, outcome: HttpOutcome): (after: map<string, string>)
    ensures LoginResult(outcome).Rejected? ==> after == storage
    ensures LoginResult(outcome).Resolved? ==>
              UserKey in after && after[UserKey] == StoredText(PropertyOf(outcome.data, "user"))
    ensures forall k :: k != UserKey ==>
              (k in after <==> k in storage) && (k in storage ==> after[k] == storage[k])
  {
    match LoginResult(outcome)
    case Resolved(data) => storage[UserKey := StoredText(PropertyOf(data, "user"))]
    case Rejected(_) => storage
  }

  /** What `getCurrentUser()` returns, or the SyntaxError `JSON.parse` throws. */
  datatype UserRead = User(value: Json) | ThrowsSyntaxError

  /** `getCurrentUser()`: null for a missing key or the empty text (both
      falsy), otherwise the parsed text. Whatever value was stored as
      `JSON.stringify` text reads back as itself. */
  function GetCurrentUser(storage: map<string, string>): (u: UserRead)
    ensures UserKey !in storage || storage[UserKey] == "" ==> u == User(JNull)
    ensures u.ThrowsSyntaxError? <==>
              UserKey in storage && storage[UserKey] != "" && Parse(storage[UserKey]).SyntaxError?
    ensures UserKey in storage && storage[UserKey] != "" && Parse(storage[UserKey]).Ok? ==>
              u == User(Parse(storage[UserKey]).value)
    ensures forall v :: UserKey in storage && storage[UserKey] == Serialize(v) ==> u == User(v)
  {
    assert forall v :: UserKey in storage && storage[UserKey] == Serialize(v) ==>
             storage[UserKey] != "" && Parse(storage[UserKey]) == Ok(v) by {
      forall v | UserKey in storage && storage[UserKey] == Serialize(v)
        ensures storage[UserKey] != "" && Parse(storage[UserKey]) == Ok(v)
      {
        RoundTrip(v);
      }
    }
    if UserKey !in storage || storage[UserKey] == "" then User(JNull)
    else
      match Parse(storage[UserKey])
      case Ok(v) => User(v)
      case SyntaxError => ThrowsSyntaxError
  }

  /** `isAuthenticated()`: whether the current user is not null; `None` when
      reading it throws. */
  function IsAuthenticated(storage: map<string, string>): (r: Option<bool>)
    ensures r == Some(false) <==>
              UserKey !in storage || storage[UserKey] == "" || Parse(storage[UserKey]) == Ok(JNull)
    ensures r.None? <==>
              UserKey in storage && storage[UserKey] != "" && Parse(storage[UserKey]).SyntaxError?
  {
    match GetCurrentUser(storage)
    case User(v) => Some(v != JNull)
    case ThrowsSyntaxError => None
  }

  /** The browser's storage, as far as this service uses it. */
  class SessionStore {

    var storage: map<string, string>

    constructor(initial: map<string, string>)
      ensures storage == initial
    {
      storage := initial;
    }

    /** `login(email, password)`, once the POST has ended with `outcome`. */
    method Login(outcome: HttpOutcome) returns (result: Settled)
      modifies this
      ensures result == LoginResult(outcome)
      ensures storage == AfterLogin(old(storage), outcome)
    {
      match outcome
      case NoResponse =>
        result := Rejected(TypeError);
      case Response(status, data) =>
        if !Accepted(status) {
          result := Rejected(ErrorBody(data));
        } else {
          var user := PropertyOf(data, "user");
          if user.ThrowsTypeError? {
            result := Rejected(TypeError);
          } else {
            storage := storage[UserKey := StoredText(user)];
            result := Resolved(data);
          }
        }
    }

    /** `logout()`. */
    method Logout()
      modifies this
      ensures storage == old(storage) - {UserKey}
    {
      storage := storage - {UserKey};
    }
  }

  /** After a resolved login whose body has a `user`, the current user reads
      back as that value, and the session is authenticated unless it is null. */
  lemma SavedUserReadsBack(storage: map<string, string>, outcome: HttpOutcome, u: Json)
    requires LoginResult(outcome).Resolved?
    requires PropertyOf(LoginResult(outcome).data, "user") == Present(u)
    ensures GetCurrentUser(AfterLogin(storage, outcome)) == User(u)
    ensures IsAuthenticated(AfterLogin(storage, outcome)) == Some(u != JNull)
  {
    var after := AfterLogin(storage, outcome);
    assert after[UserKey] == Serialize(u);
    RoundTrip(u);
    assert Serialize(u) != "";
  }

  /** A resolved login whose body has no `user` stores "undefined", which
      every later read fails to parse. */
  lemma MissingUserBreaksReads(storage: map<string, string>, outcome: HttpOutcome)
    requires LoginResult(outcome).Resolved?
    requires PropertyOf(LoginResult(outcome).data, "user").Undefined?
    ensures GetCurrentUser(AfterLogin(storage, outcome)) == ThrowsSyntaxError
    ensures IsAuthenticated(AfterLogin(storage, outcome)).None?
  {
    UndefinedIsNotJson();
  }

  /** After `logout` nobody is signed in, a second `logout` changes nothing,
      and no other key is touched. */
  lemma LogoutSignsOut(storage: map<string, string>)
    ensures GetCurrentUser(storage - {UserKey}) == User(JNull)
    ensures IsAuthenticated(storage - {UserKey}) == Some(false)
    ensures (storage - {UserKey}) - {UserKey} == storage - {UserKey}
    ensures forall k :: k != UserKey && k in storage ==>
              k in storage - {UserKey} && (storage - {UserKey})[k] == storage[k]
  {
  }
}
