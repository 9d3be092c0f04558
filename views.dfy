/** The backend's `login` view: a POST with an email and a password, answered
    with 200 and the user's public fields, 401 or 404. */
module Views {

  import opened Options
  import opened Json
  import opened Models

  /** The status codes the view uses (sections 15.3.1, 15.5.2 and 15.5.5 of
      RFC 9110). */
  const HTTP_200_OK := 200
  const HTTP_401_UNAUTHORIZED := 401
  const HTTP_404_NOT_FOUND := 404

  const LoginOk := "Login exitoso"
  const BadCredentials := "Credenciales inválidas"
  const NoSuchUser := "Usuario no encontrado"

  /** `request.data.get('email')` and `request.data.get('password')`: `None`
      when the field is missing. */
  datatype LoginRequest = LoginRequest(email: Option<string>, password: Option<string>)

  /** The projection of a row the view sends back. */
  datatype UserPayload = UserPayload(id: nat, email: string, nombre: string, tipo: string)

  /** The three answers of the view. */
  datatype LoginResponse =
    | Success(user: UserPayload)
    | InvalidCredentials
    | UserNotFound
  {
    function Status(): (code: int)
      ensures code == HTTP_200_OK <==> Success?
      ensures code == HTTP_401_UNAUTHORIZED <==> InvalidCredentials?
      ensures code == HTTP_404_NOT_FOUND <==> UserNotFound?
    {
      match this
      case Success(_) => HTTP_200_OK
      case InvalidCredentials => HTTP_401_UNAUTHORIZED
      case UserNotFound => HTTP_404_NOT_FOUND
    }

    function Message(): string
    {
      match this
      case Success(_) => LoginOk
      case InvalidCredentials => BadCredentials
      case UserNotFound => NoSuchUser
    }
  }

  /** The `user` part of a successful answer. As sent, it holds the row's
      `id`, `email` and `nombre`, and `tipo_usuario` under `tipo`. The keys
      of that object are fixed by `UserJson`, so the password and the last
      name are not sent. */
  function Payload(u: Usuario): (p: UserPayload)
    ensures PropertyOf(UserJson(p), "id") == Present(JNumber(u.id))
    ensures PropertyOf(UserJson(p), "email") == Present(JString(u.email))
    ensures PropertyOf(UserJson(p), "nombre") == Present(JString(u.nombre))
    ensures PropertyOf(UserJson(p), "tipo") == Present(JString(u.tipoUsuario))
  {
    var p := UserPayload(u.id, u.email, u.nombre, u.tipoUsuario);
    var ms := UserJson(p).members;
    assert ms[0].key == "id" && ms[1].key == "email" && ms[2].key == "nombre" && ms[3].key == "tipo";
    LookupUnique(ms, 0);
    LookupUnique(ms, 1);
    LookupUnique(ms, 2);
    LookupUnique(ms, 3);
    p
  }

  /** Some row carries the email of the request. */
  predicate Registered(table: seq<Usuario>, req: LoginRequest)
  {
    req.email.Some? && exists u :: u in table && u.email == req.email.value
  }

  /** Some row carries both the email and the password of the request. */
  predicate Matches(table: seq<Usuario>, req: LoginRequest)
  {
    && req.email.Some? && req.password.Some?
    && exists u :: u in table && u.email == req.email.value && u.password == req.password.value
  }

  /** `login(request)`: look the row up by email (the table's unique
      constraint holds), then compare the stored password with the one
      received, as plain strings. */
  function Login(table: seq<Usuario>, req: LoginRequest): (r: LoginResponse)
    requires UniqueEmails(table)
    ensures r.Success? <==> Matches(table, req)
    ensures r.InvalidCredentials? <==> Registered(table, req) && !Matches(table, req)
    ensures r.UserNotFound? <==> !Registered(table, req)
    ensures r.Success? ==>
              exists u :: u in table && u.email == req.email.value && r.user == Payload(u)
  {
    match Get(table, req.email)
    case Found(u) =>
      if Some(u.password) == req.password then Success(Payload(u)) else InvalidCredentials
    case DoesNotExist => UserNotFound
    case MultipleObjectsReturned => assert false; UserNotFound
  }

  /** The user object of the answer: `{id, email, nombre, tipo}`. */
  function UserJson(p: UserPayload): (j: Json)
    ensures j.JObject?
    ensures forall key :: PropertyOf(j, key).Present? <==>
              key == "id" || key == "email" || key == "nombre" || key == "tipo"
  {
    var j := JObject([
      Member("id", JNumber(p.id)),
      Member("email", JString(p.email)),
      Member("nombre", JString(p.nombre)),
      Member("tipo", JString(p.tipo))]);
    var ms := j.members;
    assert ms[0].key == "id" && ms[1].key == "email" && ms[2].key == "nombre" && ms[3].key == "tipo";
    assert forall key :: PropertyOf(j, key).Present? <==>
             key == "id" || key == "email" || key == "nombre" || key == "tipo" by {
      forall key
        ensures PropertyOf(j, key).Present? <==>
                  key == "id" || key == "email" || key == "nombre" || key == "tipo"
      {
        LookupLast(ms, key);
      }
    }
    j
  }

  /** The body of the answer: every answer carries its message; only a
      success carries a user, and that user is the payload. */
  function Body(r: LoginResponse): (body: Json)
    ensures PropertyOf(body, "message") == Present(JString(r.Message()))
    ensures PropertyOf(body, "user").Present? <==> r.Success?
    ensures r.Success? ==> PropertyOf(body, "user") == Present(UserJson(r.user))
  {
    var body := match r
      case Success(p) => JObject([Member("message", JString(LoginOk)), Member("user", UserJson(p))])
      case _ => JObject([Member("message", JString(r.Message()))]);
    var ms := body.members;
    assert ms[0] == Member("message", JString(r.Message()));
    LookupLast(ms, "message");
    LookupLast(ms, "user");
    body
  }

  /** The body reaches the client unchanged: parsing its text gives it back. */
  lemma WireRoundTrip(r: LoginResponse)
    ensures Parse(Serialize(Body(r))) == Ok(Body(r))
  {
    RoundTrip(Body(r));
  }
}
