/** The pieces put together: the page posts the form to the view, the
    service stores the answer, and the route table reads it back. */
module Scenarios {

  import opened Options
  import opened Json
  import opened Models
  import opened Views
  import opened AuthService
  import opened App
  import opened LoginPage

  /** The view's answer as the client's HTTP client reports it. The body
      crosses the wire as JSON text and parses back to itself
      (`Views.WireRoundTrip`). */
  function Transport(r: LoginResponse): (outcome: HttpOutcome)
    ensures outcome.Response? && outcome.status == r.Status()
    ensures Parse(Serialize(Body(r))) == Ok(outcome.data)
  {
    WireRoundTrip(r);
    Response(r.Status(), Body(r))
  }

  /** Logging in end to end: the service resolves exactly when the view
      accepts the credentials; then the stored session reads back as the
      user's public fields and opens the dashboard; otherwise storage is
      untouched and the page shows the view's message. */
  lemma EndToEnd(table: seq<Usuario>, req: LoginRequest, storage: map<string, string>)
    requires UniqueEmails(table)
    ensures var r := Login(table, req);
            var after := AfterLogin(storage, Transport(r));
            && (LoginResult(Transport(r)).Resolved? <==> Matches(table, req))
            && (Matches(table, req) ==>
                  && GetCurrentUser(after) == User(UserJson(r.user))
                  && IsAuthenticated(after) == Some(true)
                  && Route(DashboardPath, after) == Render(DashboardPage))
            && (!Matches(table, req) ==>
                  && after == storage
                  && Catch(LoginResult(Transport(r)).thrown)
                     == Shown(JString(if Registered(table, req) then BadCredentials else NoSuchUser)))
  {
    var r := Login(table, req);
    var out := Transport(r);
    if r.Success? {
      SavedUserReadsBack(storage, out, UserJson(r.user));
    } else {
      BodyMessageShown(Body(r), r.Message());
    }
  }

  /** One visit to the login page: type the credentials, submit, and let
      the answer of the view arrive. Returns whether the handler ran, where
      the page navigated, the error it shows and the storage afterwards. */
  method SignIn(table: seq<Usuario>, storage: map<string, string>, email: string, password: string)
      returns (sent: bool, navigatedTo: Option<Location>, error: Json, unhandled: bool, after: map<string, string>)
    requires UniqueEmails(table)
    ensures sent <==> email != "" && password != ""
    ensures !unhandled
    ensures !sent ==> navigatedTo == None && error == JString("") && after == storage
    ensures sent && Matches(table, LoginRequest(Some(email), Some(password))) ==>
              && navigatedTo == Some(DashboardPath) && error == JString("")
              && IsAuthenticated(after) == Some(true)
              && Route(DashboardPath, after) == Render(DashboardPage)
    ensures sent && !Matches(table, LoginRequest(Some(email), Some(password))) ==>
              && navigatedTo == None && after == storage
              && error == JString(if Registered(table, LoginRequest(Some(email), Some(password)))
                                  then BadCredentials else NoSuchUser)
  {
    var store := new SessionStore(storage);
    var form := new LoginForm();
    form.SetEmail(email);
    form.SetPassword(password);
    sent := form.Submit();
    unhandled := false;
    if sent {
      var req := LoginRequest(Some(email), Some(password));
      EndToEnd(table, req, storage);
      unhandled := form.Settle(store, Transport(Login(table, req)));
    }
    navigatedTo, error, after := form.navigatedTo, form.error, store.storage;
  }

  /** Signing out from the dashboard (`logout()` then a move to `/login`):
      the page lands on the login form, afterwards the dashboard sends the
      visitor back to `/login`, and signing out again changes nothing. */
  method SignOut(storage: map<string, string>) returns (after: map<string, string>, landing: Element, dashboard: Element)
    ensures after == storage - {UserKey}
    ensures landing == Render(LoginPage)
    ensures dashboard == Redirect(LoginPath)
  {
    var store := new SessionStore(storage);
    store.Logout();
    var once := store.storage;
    store.Logout();
    LogoutSignsOut(storage);
    assert store.storage == once;
    after := store.storage;
    landing := Route(LoginPath, after);
    dashboard := Route(DashboardPath, after);
  }
}
