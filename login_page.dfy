/** The login page: the form's state and what submitting it does. */
module LoginPage {

  import opened Options
  import opened Json
  import opened AuthService
  import opened App

  /** The message shown when the thrown value has no usable `message`. */
  const DefaultError := "Error al iniciar sesión"

  const LoadingLabel := "Cargando..."
  const IdleLabel := "Iniciar Sesión"

  /** What the catch block does with a thrown value: show a message, or fail
      itself (reading `message` of null), which leaves the promise of the
      submit handler rejected. */
  datatype Caught = Shown(message: Json) | Rethrown

  /** `setError(err.message || 'Error al iniciar sesión')`. */
  function Catch(err: Thrown): (c: Caught)
    ensures c.Shown? ==> Truthy(c.message)
    ensures c.Rethrown? <==> err == ErrorBody(JNull)
    ensures err == TypeError ==> c == Shown(JString(TypeErrorMessage))
    ensures (err.ErrorBody? && PropertyOf(err.data, "message").Present?
             && Truthy(PropertyOf(err.data, "message").value))
            ==> c == Shown(PropertyOf(err.data, "message").value)
  {
    match err
    case TypeError => Shown(JString(TypeErrorMessage))
    case ErrorBody(data) =>
      match PropertyOf(data, "message")
      case ThrowsTypeError => Rethrown
      case Undefined => Shown(JString(DefaultError))
      case Present(m) => if Truthy(m) then Shown(m) else Shown(JString(DefaultError))
  }

  /** The label of the submit button. */
  function ButtonLabel(loading: bool): (text: string)
    ensures text == LoadingLabel <==> loading
  {
    if loading then LoadingLabel else IdleLabel
  }

  /** The state of the `Login` component. `error` is whatever `setError`
      was given (a JSON value: the body's `message` need not be a string). */
  class LoginForm {

    var email: string
    var password: string
    var error: Json
    var loading: bool
    var navigatedTo: Option<Location>

    /** The initial state: empty fields, no error, not loading. */
    constructor()
      ensures email == "" && password == "" && error == JString("")
      ensures !loading && navigatedTo == None
    {
      email := "";
      password := "";
      error := JString("");
      loading := false;
      navigatedTo := None;
    }

    /** `disabled={loading}`. */
    predicate ButtonDisabled()
      reads this
      ensures ButtonDisabled() <==> ButtonLabel(loading) == LoadingLabel
    {
      loading
    }

    /** `{error && ...}`: the banner is rendered when `error` is truthy. */
    predicate ShowsBanner()
      reads this
      ensures error.JString? ==> (ShowsBanner() <==> error.s != "")
      ensures error.JNull? ==> !ShowsBanner()
    {
      Truthy(error)
    }

    method SetEmail(value: string)
      modifies this
      ensures email == value
      ensures password == old(password) && error == old(error)
      ensures loading == old(loading) && navigatedTo == old(navigatedTo)
    {
      email := value;
    }

    method SetPassword(value: string)
      modifies this
      ensures password == value
      ensures email == old(email) && error == old(error)
      ensures loading == old(loading) && navigatedTo == old(navigatedTo)
    {
      password := value;
    }

    /** Submitting the form. The browser only runs the handler when both
      `required` fields are filled and the submit button is enabled; the
      handler then clears the error and starts loading before the request
      is sent. */
    method Submit() returns (sent: bool)
      modifies this
      ensures sent <==> !old(loading) && old(email) != "" && old(password) != ""
      ensures old(ButtonDisabled()) ==> !sent
      ensures sent ==> error == JString("") && loading && !ShowsBanner()
      ensures !sent ==> error == old(error) && loading == old(loading)
      ensures email == old(email) && password == old(password) && navigatedTo == old(navigatedTo)
    {
      if loading || email == "" || password == "" {
        return false;
      }
      error := JString("");
      loading := true;
      sent := true;
    }

    /** The rest of `handleSubmit`, once the POST has ended with `outcome`:
      `login` runs against `store`; on success the page navigates to
      `/dashboard`, on failure the catch block sets the error; `finally`
      stops loading. `unhandled` is whether the handler's promise rejects. */
    method Settle(store: SessionStore, outcome: HttpOutcome) returns (unhandled: bool)
      requires loading
      modifies this, store
      ensures store.storage == AfterLogin(old(store.storage), outcome)
      ensures !loading && !ButtonDisabled()
      ensures LoginResult(outcome).Resolved? ==>
                navigatedTo == Some(DashboardPath) && error == old(error) && !unhandled
      ensures LoginResult(outcome).Rejected? ==>
                navigatedTo == old(navigatedTo)
                && unhandled == Catch(LoginResult(outcome).thrown).Rethrown?
                && error == (match Catch(LoginResult(outcome).thrown)
                             case Shown(m) => m
                             case Rethrown => old(error))
      ensures email == old(email) && password == old(password)
    {
      var result := store.Login(outcome);
      unhandled := false;
      match result {
        case Resolved(_) =>
          navigatedTo := Some(DashboardPath);
        case Rejected(err) =>
          match Catch(err) {
            case Shown(m) => error := m;
            case Rethrown => unhandled := true;
          }
      }
      loading := false;
    }
  }

  /** A network failure makes `login` throw its TypeError, whose message is
      what the page shows. */
  lemma NetworkFailureShown()
    ensures LoginResult(NoResponse) == Rejected(TypeError)
    ensures Catch(LoginResult(NoResponse).thrown) == Shown(JString(TypeErrorMessage))
  {
  }

  /** A rejected `login` whose body carries a non-empty string message shows
      exactly that message. */
  lemma BodyMessageShown(data: Json, m: string)
    requires PropertyOf(data, "message") == Present(JString(m)) && m != ""
    ensures Catch(ErrorBody(data)) == Shown(JString(m))
  {
  }

  /** Without a usable message the default text is shown. */
  lemma DefaultMessageShown(data: Json)
    requires data != JNull
    requires PropertyOf(data, "message").Undefined?
             || (PropertyOf(data, "message").Present? && !Truthy(PropertyOf(data, "message").value))
    ensures Catch(ErrorBody(data)) == Shown(JString(DefaultError))
  {
  }
}
