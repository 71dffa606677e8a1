/** The user login page: the two-field form, the profile saved under `user` after a
  * successful login, and the message shown when the login fails. The HTTP reply is an
  * input of the submit handler; the redirect timer after success is left out. */
module Login {

  import opened Base
  import opened Text
  import opened Js
  import opened Storage
  import opened Checkout

  const UserKey := "user"
  const DefaultRole := "user"
  const RejectedMessage := "Login gagal. Coba lagi."
  const WrongCredentialsMessage := "Email atau password salah."
  const CorsMessage := "Akses Login Gagal (CORS Error). Pastikan Backend sudah di-deploy dengan settingan yang benar."
  const AppErrorMessage := "Terjadi kesalahan aplikasi."

  /** The form state: one string per input id. */
  type LoginForm = map<string, string>

  /** `{ ...formData, [id]: value }`: the named field takes the value and every other field
    * keeps its own. */
  function Changed(form: LoginForm, id: string, value: string): (r: LoginForm)
    ensures id in r && r[id] == value
    ensures r.Keys == form.Keys + {id}
    ensures forall k :: k in form && k != id ==> r[k] == form[k]
  {
    form[id := value]
  }

  /** `formData.email`: every input is controlled, so a missing field reads as "". */
  function Field(form: LoginForm, id: string): string {
    if id in form then form[id] else ""
  }

  /** The name greeted after login: the backend's `name`, else its `username`, else the
    * part of the typed email before the first '@'. */
  function DisplayName(user: JsObject, email: string): JsValue {
    Or(Or(Prop(user, "name"), Prop(user, "username")), Str(BeforeFirst(email, '@')))
  }

  /** The display name is the first truthy one of the three, and is falsy only when the
    * email has nothing before its first '@'. */
  lemma DisplayNameChoice(user: JsObject, email: string)
    ensures Truthy(Prop(user, "name")) ==> DisplayName(user, email) == Prop(user, "name")
    ensures !Truthy(Prop(user, "name")) && Truthy(Prop(user, "username")) ==>
      DisplayName(user, email) == Prop(user, "username")
    ensures !Truthy(Prop(user, "name")) && !Truthy(Prop(user, "username")) ==>
      DisplayName(user, email) == Str(BeforeFirst(email, '@'))
    ensures !Truthy(DisplayName(user, email)) <==>
      !Truthy(Prop(user, "name")) && !Truthy(Prop(user, "username")) && BeforeFirst(email, '@') == ""
  {
  }

  /** The profile written to storage: `{ id, email, name, role }`. */
  datatype Profile = Profile(id: JsValue, email: JsValue, name: JsValue, role: JsValue)

  /** The profile as the object `JSON.stringify` is given: exactly its four properties.
    * (`JSON.stringify` itself drops a property whose value is `undefined`, so the text it
    * writes can list fewer; the serialised text is not modelled.) */
  function ProfileObject(p: Profile): (o: JsObject)
    ensures o.Keys == {"id", "email", "name", "role"}
    ensures Prop(o, "id") == p.id && Prop(o, "email") == p.email
  {
    map["id" := p.id, "email" := p.email, "name" := p.name, "role" := p.role]
  }

  /** The profile built from the backend's `user` object (empty when it sent none), its
    * top-level `user_id`, and the typed email. */
  function ProfileFor(user: JsObject, userId: JsValue, email: string): (p: Profile)
    ensures p.id == (if Truthy(Prop(user, "id")) then Prop(user, "id") else userId)
    ensures p.email == (if Truthy(Prop(user, "email")) then Prop(user, "email") else Str(email))
    ensures p.name == DisplayName(user, email)
    ensures p.role == (if Truthy(Prop(user, "role")) then Prop(user, "role") else Str(DefaultRole))
    ensures Truthy(p.role)
  {
    Profile(Or(Prop(user, "id"), userId), Or(Prop(user, "email"), Str(email)),
            DisplayName(user, email), Or(Prop(user, "role"), Str(DefaultRole)))
  }

  /** A saved profile identifies the booking's user: with no user id passed to the booking
    * page, its tickets are keyed by the profile's id, or by its email when the id is falsy. */
  lemma SavedProfileKeysBookings(p: Profile, prop: JsValue)
    requires !Truthy(prop)
    ensures BookingUserId(prop, UserObject(ProfileObject(p))) == Or(p.id, p.email)
  {
    var o := ProfileObject(p);
    assert Prop(o, "id_user") == Undefined && Prop(o, "userId") == Undefined;
    assert UserIdFields[1..][1..] == ["userId", "email"];
    assert OrChain(o, ["userId", "email"]) == p.email;
    assert OrChain(o, UserIdFields[1..]) == Or(p.id, p.email);
  }

  /** Why a login request failed: the server answered with an error status (carrying its
    * body's `message`), the request got no answer, or the request could not be made. */
  datatype LoginFailure = Rejected(message: JsValue) | Unanswered | NotSent

  /** The login reply: an answer with its status, the body's `user` (`None` when it is falsy
    * or not an object) and `user_id`, or a failure. */
  datatype LoginReply = Answered(status: int, user: Option<JsObject>, userId: JsValue) | Failed(failure: LoginFailure)

  /** The message a failed request shows. */
  function FailureMessage(f: LoginFailure): (m: JsValue)
    ensures f.Rejected? && Truthy(f.message) ==> m == f.message
    ensures f.Rejected? && !Truthy(f.message) ==> m == Str(WrongCredentialsMessage)
    ensures f.Unanswered? ==> m == Str(CorsMessage)
    ensures f.NotSent? ==> m == Str(AppErrorMessage)
  {
    match f
    case Rejected(message) => Or(message, Str(WrongCredentialsMessage))
    case Unanswered => Str(CorsMessage)
    case NotSent => Str(AppErrorMessage)
  }

  /** Every failure shows a banner: the message is never falsy. */
  lemma FailureMessageShown(f: LoginFailure)
    ensures Truthy(FailureMessage(f))
  {
  }

  class LoginPage {
    var formData: LoginForm
    var loading: bool
    var errorMessage: JsValue
    var loginSuccess: bool
    var userName: JsValue

    constructor ()
      ensures formData == map["email" := "", "password" := ""]
      ensures !loading && errorMessage == Str("") && !loginSuccess && userName == Str("")
    {
      formData := map["email" := "", "password" := ""];
      loading, errorMessage, loginSuccess, userName := false, Str(""), false, Str("");
    }

    /** `handleChange`: the input named `id` now holds `value`. */
    method HandleChange(id: string, value: string)
      modifies this
      ensures formData == Changed(old(formData), id, value)
      ensures loading == old(loading) && errorMessage == old(errorMessage)
      ensures loginSuccess == old(loginSuccess) && userName == old(userName)
    {
      formData := formData[id := value];
    }

    /** Whether the submit button is disabled. */
    predicate SubmitDisabled()
      reads this
    {
      loading || loginSuccess
    }

    /** `handleLogin`: the request carries the typed email and password. A 200 answer saves
      * the profile, greets the user and marks the login successful, leaving the loading
      * state on until the redirect; any other answer or failure shows a message and ends
      * loading, leaving storage alone. */
    method HandleLogin(store: Store<Profile>, reply: LoginReply) returns (request: seq<(string, string)>)
      modifies this, store
      ensures request == [("email", Field(old(formData), "email")), ("password", Field(old(formData), "password"))]
      ensures formData == old(formData)
      ensures reply.Answered? && reply.status == 200 ==>
        var p := ProfileFor(if reply.user.Some? then reply.user.value else map[], reply.userId,
                            Field(old(formData), "email"));
        && store.items == old(store.items)[UserKey := p]
        && userName == p.name && loginSuccess && loading && errorMessage == Str("")
      ensures reply.Answered? && reply.status != 200 ==>
        store.items == old(store.items) && errorMessage == Str(RejectedMessage) && !loading &&
        loginSuccess == old(loginSuccess) && userName == old(userName)
      ensures reply.Failed? ==>
        store.items == old(store.items) && errorMessage == FailureMessage(reply.failure) && !loading &&
        loginSuccess == old(loginSuccess) && userName == old(userName)
      ensures SubmitDisabled() <==> (reply.Answered? && reply.status == 200) || old(loginSuccess)
    {
      loading := true;
      errorMessage := Str("");
      var email := Field(formData, "email");
      request := [("email", email), ("password", Field(formData, "password"))];
      if reply.Answered? {
        if reply.status == 200 {
          var user := if reply.user.Some? then reply.user.value else map[];
          var profile := ProfileFor(user, reply.userId, email);
          store.SetItem(UserKey, profile);
          userName := profile.name;
          loginSuccess := true;
        } else {
          errorMessage := Str(RejectedMessage);
          loading := false;
        }
      } else {
        errorMessage := FailureMessage(reply.failure);
        loading := false;
      }
    }
  }
}
