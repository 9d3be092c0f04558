# TecUnify administration: login and session

This project models the login path of the TecUnify administration module, from the Django backend to the React client.

- **Backend.** The `Usuario` record has a unique email, bounded columns and two user kinds. The `login` view looks a row up by email and compares passwords as plain strings. It answers 200 with the user's public fields, 401 "Credenciales inválidas" or 404 "Usuario no encontrado". The request is taken to be a JSON object whose `email` and `password` are strings or absent, which is what the client sends; other request shapes are listed under "Left out".
- **Session service.** `authService.js` keeps the signed-in user as JSON text under the `localStorage` key `user`. `login` writes it, `logout` removes it, `getCurrentUser` parses it, and `isAuthenticated` tests the result for null.
- **Route table.** `App.jsx` keeps `/dashboard` behind `PrivateRoute`, serves `/login` to everyone and sends `/` to `/login`.
- **Login page.** `Login.jsx` holds the state `error`, `loading` and the navigation target. Its `handleSubmit` drives that state from the outcome of `login`.

`JSON.stringify` and `JSON.parse` are modelled concretely, in module `Json`, for the values this path handles. That module proves `Parse(Serialize(v)) == Ok(v)` for every value.

The modules follow the program:

- `Models` covers `models.py`.
- `Views` covers `views.py`.
- `AuthService` covers `authService.js`. The storage is a class with a `storage: map<string, string>` field, and `login` and `logout` are methods on it.
- `App` covers `App.jsx`.
- `LoginPage` covers `Login.jsx`. The page state is a class, and `handleSubmit` is split into two methods. `Submit` is the part before the request. `Settle` is the part after the answer arrives.
- `Scenarios` joins the modules end to end.

The HTTP exchange is an input (`HttpOutcome`): a response with a status and a body, or no response.

`getCurrentUser` does not guard `JSON.parse`, so reading a stored session that is not JSON throws. In the model `GetCurrentUser` gives `ThrowsSyntaxError` there, and `IsAuthenticated` gives `None`.

## Model

| member | source | states |
|---|---|---|
| Models.TipoIsAdminOrUsuario | tecUnify/administracion/backend-django/apps/administracion/models.py:4-13 | a value the `choices` of `tipo_usuario` admit is exactly "ADMIN" or "USUARIO", and each fits the declared 20-character width |
| Models.Str | tecUnify/administracion/backend-django/apps/administracion/models.py:20-21 | the string form is the first name, one space, then the last name (prefix, separator, suffix and length) |
| Models.StrBound | tecUnify/administracion/backend-django/apps/administracion/models.py:20-21 | for a row within its column widths, the string form has at most 201 characters |
| Models.Filter | tecUnify/administracion/backend-django/apps/administracion/views.py:15 | `filter(email=...)` returns exactly the rows of the table with that email, and no more rows than the table has |
| Models.FilterAtMostOne | tecUnify/administracion/backend-django/apps/administracion/models.py:9 | under the unique constraint on email, a lookup by email yields at most one row |
| Models.Get | tecUnify/administracion/backend-django/apps/administracion/views.py:15 | `get(email=...)` raises DoesNotExist exactly when the email is missing or no row has it; a found row is a row of the table with that email; under the unique constraint it never raises MultipleObjectsReturned |
| Views.LoginResponse.Status | tecUnify/administracion/backend-django/apps/administracion/views.py:19-36 | 200, 401 and 404 correspond one to one to success, wrong password and unknown email |
| Views.Payload | tecUnify/administracion/backend-django/apps/administracion/views.py:21-26 | the user object sent for a row has `id`, `email` and `nombre` equal to the row's and `tipo` equal to its `tipo_usuario` (its other keys are ruled out by `Views.UserJson`) |
| Views.Login | tecUnify/administracion/backend-django/apps/administracion/views.py:9-36 | success exactly when a row has the request's email and password; 401 exactly when the email is registered but no row matches both; 404 exactly when the email is not registered; the three are exclusive and exhaustive; a success carries the payload of the matching row |
| Views.Body | tecUnify/administracion/backend-django/apps/administracion/views.py:19-36 | every answer's body has its `message`; it has a `user` exactly on success, and that user is the payload |
| Views.UserJson | tecUnify/administracion/backend-django/apps/administracion/views.py:21-26 | the user object has exactly the keys `id`, `email`, `nombre` and `tipo`, so `password` and `apellido` are absent |
| Views.WireRoundTrip | tecUnify/administracion/backend-django/apps/administracion/views.py:19-36 | the body parses back from its JSON text unchanged |
| Json.RoundTrip | tecUnify/administracion/frontend-web/src/services/authService.js:25 | parsing the text `JSON.stringify` writes gives the value back |
| Json.SerializeInjective | tecUnify/administracion/frontend-web/src/services/authService.js:11 | distinct values are stored as distinct texts |
| Json.PropertyOf | tecUnify/administracion/frontend-web/src/services/authService.js:11 | reading a property of null throws a TypeError; only objects have properties |
| Json.LookupLast | tecUnify/administracion/frontend-web/src/services/authService.js:11 | a property is undefined exactly when no member has the key; otherwise its value is that of the last member with the key |
| Json.SkipWsSuffix | tecUnify/administracion/frontend-web/src/services/authService.js:25 | skipping whitespace leaves a suffix of the text that does not start with whitespace |
| AuthService.StoredText | tecUnify/administracion/frontend-web/src/services/authService.js:11 | a present user is stored as its JSON text; an undefined user is stored as text that does not parse |
| AuthService.UndefinedIsNotJson | tecUnify/administracion/frontend-web/src/services/authService.js:25 | `JSON.parse("undefined")` throws a SyntaxError |
| AuthService.IsAuthenticated | tecUnify/administracion/frontend-web/src/services/authService.js:28-30 | not signed in exactly when the key is absent, empty or parses to null; throws exactly when the stored text is non-empty and does not parse |
| AuthService.SessionStore.Login | tecUnify/administracion/frontend-web/src/services/authService.js:3-17 | `login` settles as `LoginResult` and leaves storage as `AfterLogin`: only a resolved call writes, and only the `user` key |
| AuthService.SessionStore.Logout | tecUnify/administracion/frontend-web/src/services/authService.js:19-21 | `logout` removes the `user` key and nothing else |
| AuthService.LoginResult | tecUnify/administracion/frontend-web/src/services/authService.js:3-17 | `login` resolves exactly on a 2xx answer with a non-null body, and returns that body; a non-2xx answer rethrows its body; it throws a TypeError exactly when there is no response or a 2xx body is null |
| AuthService.AfterLogin | tecUnify/administracion/frontend-web/src/services/authService.js:3-17 | a rejected call leaves storage unchanged; a resolved one stores the text of the body's `user` under `user`; keys other than `user` never change |
| AuthService.GetCurrentUser | tecUnify/administracion/frontend-web/src/services/authService.js:23-26 | a missing or empty `user` key reads as null; otherwise the read is the parsed value, and it throws exactly when the text does not parse; a value stored as its JSON text reads back as itself |
| AuthService.SavedUserReadsBack | tecUnify/administracion/frontend-web/src/services/authService.js:23-26 | after a resolved login, `getCurrentUser` returns the stored `user`, and the session counts as authenticated unless that user is null |
| AuthService.MissingUserBreaksReads | tecUnify/administracion/frontend-web/src/services/authService.js:23-26 | after a resolved login whose body has no `user`, every read of the session throws |
| AuthService.LogoutSignsOut | tecUnify/administracion/frontend-web/src/services/authService.js:19-21 | after `logout`, `getCurrentUser` is null and `isAuthenticated` is false; a second `logout` changes nothing; other keys are kept |
| App.PrivateRoute | tecUnify/administracion/frontend-web/src/App.jsx:8-10 | the child renders exactly when signed in; the redirect to `/login` happens exactly when signed out; rendering throws exactly when reading the session throws |
| App.Route | tecUnify/administracion/frontend-web/src/App.jsx:12-34 | `/login` renders the login page and `/` redirects to `/login`; every redirect goes to `/login`; the dashboard renders only at `/dashboard` with a signed-in user; only an unmatched location is blank |
| App.DashboardIsGated | tecUnify/administracion/frontend-web/src/App.jsx:17-30 | `/dashboard` renders exactly when signed in and redirects to `/login` exactly when signed out; `/login` renders the login page and `/` redirects to `/login`, whatever the session |
| App.RedirectsSettle | tecUnify/administracion/frontend-web/src/App.jsx:30 | every redirect goes to `/login`, which renders the login page, so no redirect chain forms |
| App.AnonymousNeverSeesDashboard | tecUnify/administracion/frontend-web/src/App.jsx:8-10 | without a signed-in user no location renders the dashboard, and every redirect lands on the login page |
| LoginPage.Catch | tecUnify/administracion/frontend-web/src/pages/Login.jsx:21-22 | a shown error is truthy; a truthy `message` of the thrown body is shown as is; a TypeError shows its own message; the catch block itself fails exactly when the thrown body is null |
| LoginPage.ButtonLabel | tecUnify/administracion/frontend-web/src/pages/Login.jsx:73 | the label reads "Cargando..." exactly while loading |
| LoginPage.LoginForm.constructor | tecUnify/administracion/frontend-web/src/pages/Login.jsx:6-9 | the page starts with empty fields, no error and no loading |
| LoginPage.LoginForm.ButtonDisabled | tecUnify/administracion/frontend-web/src/pages/Login.jsx:63-73 | the button is disabled exactly when its label reads "Cargando..." |
| LoginPage.LoginForm.ShowsBanner | tecUnify/administracion/frontend-web/src/pages/Login.jsx:55-59 | a string error shows the banner exactly when it is non-empty |
| LoginPage.LoginForm.SetEmail | tecUnify/administracion/frontend-web/src/pages/Login.jsx:38 | typing in the email input sets `email` and nothing else |
| LoginPage.LoginForm.SetPassword | tecUnify/administracion/frontend-web/src/pages/Login.jsx:49 | typing in the password input sets `password` and nothing else |
| LoginPage.LoginForm.Submit | tecUnify/administracion/frontend-web/src/pages/Login.jsx:12-15 | the handler runs exactly when not loading and both required fields are filled, so never while the button is disabled; it then clears the error and starts loading; otherwise nothing changes |
| LoginPage.LoginForm.Settle | tecUnify/administracion/frontend-web/src/pages/Login.jsx:17-25 | success navigates to `/dashboard`; failure keeps the location and sets the error the catch block computes, or leaves the handler's promise rejected; loading ends either way |
| LoginPage.BodyMessageShown | tecUnify/administracion/frontend-web/src/pages/Login.jsx:22 | a non-empty string `message` in the thrown body is what the page shows |
| LoginPage.NetworkFailureShown | tecUnify/administracion/frontend-web/src/pages/Login.jsx:22 | with no response, `login` throws a TypeError and the page shows that TypeError's message |
| LoginPage.DefaultMessageShown | tecUnify/administracion/frontend-web/src/pages/Login.jsx:22 | a thrown body without a truthy `message` shows "Error al iniciar sesión" |
| Scenarios.Transport | tecUnify/administracion/frontend-web/src/services/authService.js:5-8 | the client receives the view's status and a body equal to what its JSON text parses to |
| Scenarios.EndToEnd | tecUnify/administracion/frontend-web/src/pages/Login.jsx:12-26 | the service resolves exactly when the view accepts the credentials; then the session reads back as the user's public fields and opens the dashboard; otherwise storage is unchanged and the page shows "Credenciales inválidas" or "Usuario no encontrado" |
| Scenarios.SignIn | tecUnify/administracion/frontend-web/src/pages/Login.jsx:12-26 | one visit to the page: with both fields filled, valid credentials lead to `/dashboard` with an authenticated session, and invalid ones leave storage and location unchanged and show the view's message; the handler never rejects |
| Scenarios.SignOut | tecUnify/administracion/frontend-web/src/pages/Dashboard.jsx:9-12 | after signing out the page shows the login form, `/dashboard` redirects to `/login`, and signing out twice leaves the same storage as once |

## Left out

- Json.Parse: numbers with a fraction or an exponent, and `\u` escapes in the surrogate range, are rejected. Every value in this path holds only integers and strings, and `Serialize` never writes those forms.
- Json.PropertyOf: built-in properties (a string's `length`, members inherited from `Object.prototype`) are not modelled. The path reads only `user` and `message`.
- Number width: JavaScript numbers are doubles and Python integers are unbounded. The model uses unbounded integers and does not model precision loss above 2^53.
- Server text: Django REST framework's renderer also escapes U+2028 and U+2029. The characters parse back the same, so only the text differs, and the model writes the server's text with `Serialize`.
- Views.Login requires the unique constraint on email (`models.py` line 9), which the database guarantees. The MultipleObjectsReturned error (an HTTP 500) that a duplicate would raise is therefore unreachable and not modelled as an answer.
- Views.LoginRequest: only a JSON object whose `email` and `password` are strings or absent is modelled. A body that is not an object makes `request.data.get` raise AttributeError (an HTTP 500). A non-string email is looked up by its string form. A non-string password never equals the stored string, so it gets 401.
- Models.WellFormed: `choices` creates no database constraint and `save()` does not call `full_clean()`, so a row saved directly can hold any `tipo_usuario`. The widths become `varchar(n)` columns, which most backends enforce and SQLite ignores. The database backend is not part of this model, so the table is not assumed to hold only well-formed rows.
- Json.Lookup: a parsed object keeps duplicate keys in text order, and the last one wins on lookup. The browser instead merges duplicate keys and lists integer-like keys first. Lookups agree, but the key order of a re-serialized object can differ.
- Database: the timestamps (`auto_now`, `auto_now_add`), the ORM and database collation are not modelled. Email comparison is exact, and the table is a sequence of rows.
- Validation: the Django model does not validate email format on save, and the model does not either.
- The `UsuarioViewSet` CRUD endpoints and the Spring Boot `UsuarioController`/`UsuarioService` are not part of this model. They delegate to library code that is not shown.
- HTTP client: the request itself, the `api` module and the axios error object are not modelled. A resolved call needs a 2xx status, and a missing response stands for a network failure.
- LoginPage.LoginForm.Submit: the browser's `type="email"` format check is not modelled. Any non-empty email is submitted.
- TypeError message: `AuthService.TypeErrorMessage` uses V8's wording. Other engines word it differently.
- Storage failures: `localStorage` quota errors and durability across restarts are not modelled.
- Asynchrony: `handleSubmit` is split at its single `await` into `Submit` and `Settle`, with one request outstanding at a time.
- Routing: URL matching (case, trailing slashes) is abstracted into `App.Location`. React rendering, styling and `console.log` are left out, as is the rendering of an `error` that is an object.
- Dashboard: what `Dashboard.jsx` displays is not modelled. Its sign-out handler is modelled in `Scenarios.SignOut`.
