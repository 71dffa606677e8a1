/** The admin's movie form: filled from the movie being edited or blank for a new one,
  * submitted as multipart data holding only the fields that have a value, to the update
  * endpoint of the edited movie or to the add endpoint. A rejected admin session drops
  * the stored admin token. The HTTP reply is an input of the submit handler. */
module MovieForm {

  import opened Base
  import opened Text
  import opened Js
  import opened Storage
  import opened AdminAuth

  const MissingTokenMessage := "Token Admin hilang. Mohon login ulang."
  const UpdatedMessage := "Berhasil! Film telah diperbarui."
  const AddedMessage := "Berhasil! Film baru telah ditambahkan."
  const SessionEndedMessage := "Sesi Admin berakhir. Silakan Login Ulang."
  const FailurePrefix := "GAGAL: "

  /** The text fields of the form, in the order the form object lists them. */
  const TextKeys: seq<string> :=
    ["title", "description", "genre", "language", "age_rating", "duration", "rating", "trailer_url"]

  /** Every key of the form object, in order: the text fields, the release date, the poster. */
  const FormKeys: seq<string> := TextKeys + ["release_date", "poster"]

  /** The form: one value per key of `FormKeys`. A chosen poster is an `Obj("File")`. */
  type Form = map<string, JsValue>

  predicate WellFormed(form: Form) {
    forall k :: k in FormKeys ==> k in form
  }

  /** The form of a new movie: every text field and the date empty, no poster. */
  function BlankForm(): (form: Form)
    ensures WellFormed(form)
    ensures forall k :: k in TextKeys ==> k in form && form[k] == Str("")
    ensures "release_date" in form && form["release_date"] == Str("")
    ensures "poster" in form && form["poster"] == Null
  {
    assert FormKeys[8] == "release_date" && FormKeys[9] == "poster";
    assert forall i :: 0 <= i < |TextKeys| ==> FormKeys[i] == TextKeys[i] != "poster";
    map k | k in FormKeys :: if k == "poster" then Null else Str("")
  }

  /** `editData.release_date.split('T')[0]`, or "" when the date is falsy. */
  function DateOnly(v: JsValue): JsValue {
    if Truthy(v) then Str(BeforeFirst(ToStr(v), 'T')) else Str("")
  }

  /** The form the modal shows: blank for a new movie; for an edited one each text field
    * is the movie's value or "" when that is falsy, the date is cut at `T`, and the
    * poster is cleared. */
  function FormFor(editData: Option<JsObject>): (form: Form)
    ensures WellFormed(form)
  {
    match editData
    case None => BlankForm()
    case Some(e) =>
      map k | k in FormKeys ::
        if k == "poster" then Null
        else if k == "release_date" then DateOnly(Prop(e, k))
        else Or(Prop(e, k), Str(""))
  }

  /** A text field of the modal holds the edited movie's value when that is truthy, and ""
    * otherwise. */
  lemma FormForText(editData: Option<JsObject>, k: string)
    requires k in TextKeys
    ensures Prop(FormFor(editData), k) ==
      if editData.Some? && Truthy(Prop(editData.value, k)) then Prop(editData.value, k) else Str("")
  {
    var i :| 0 <= i < |TextKeys| && TextKeys[i] == k;
    assert FormKeys[i] == k;
    assert k != "poster" && k != "release_date";
  }

  /** The modal's date is a prefix of the movie's date that stops before any `T`, and no
    * poster file is chosen. */
  lemma FormForDateAndPoster(editData: Option<JsObject>)
    ensures Prop(FormFor(editData), "poster") == Null
    ensures var date := Prop(FormFor(editData), "release_date");
      && date.Str? && 'T' !in date.s
      && (editData.Some? ==> date.s <= ToStr(Prop(editData.value, "release_date")))
  {
    assert FormKeys[8] == "release_date" && FormKeys[9] == "poster";
    if editData.Some? {
      BeforeFirstIsPrefix(ToStr(Prop(editData.value, "release_date")), 'T');
    }
  }

  /** The poster preview the modal shows. */
  function PreviewFor(editData: Option<JsObject>): JsValue {
    match editData
    case None => Null
    case Some(e) => Or(Or(Prop(e, "poster_url"), Prop(e, "poster")), Null)
  }

  /** Whether a value is appended to the submitted data: neither `null` nor "" (strictly). */
  predicate Kept(v: JsValue) {
    v != Null && v != Str("")
  }

  /** The entries `Object.keys(form).forEach` appends for `keys`, in order. */
  function Payload(form: Form, keys: seq<string>): seq<(string, JsValue)>
    requires forall k :: k in keys ==> k in form
  {
    if keys == [] then []
    else
      var k := keys[|keys| - 1];
      Payload(form, keys[..|keys| - 1]) + (if Kept(form[k]) then [(k, form[k])] else [])
  }

  /** The last key of `keys` is appended after the entries of the keys before it. */
  lemma PayloadLast(form: Form, keys: seq<string>)
    requires keys != []
    requires forall k :: k in keys ==> k in form
    ensures var k := keys[|keys| - 1];
      Payload(form, keys) == Payload(form, keys[..|keys| - 1]) + (if Kept(form[k]) then [(k, form[k])] else [])
  {
  }

  /** The payload holds exactly the listed keys whose values are kept, each with its form
    * value. */
  lemma {:induction false} PayloadMembers(form: Form, keys: seq<string>)
    requires forall k :: k in keys ==> k in form
    ensures forall k, v :: (k, v) in Payload(form, keys) <==> k in keys && v == form[k] && Kept(v)
  {
    if keys != [] {
      var init := keys[..|keys| - 1];
      assert keys == init + [keys[|keys| - 1]];
      PayloadMembers(form, init);
      PayloadLast(form, keys);
    } else {
      assert Payload(form, keys) == [];
    }
  }

  /** `x` occurs in `keys` before an occurrence of `y`. */
  predicate ListedBefore(keys: seq<string>, x: string, y: string) {
    exists a, b :: 0 <= a < b < |keys| && keys[a] == x && keys[b] == y
  }

  /** Two payload entries come in the order of their keys in `keys`. */
  lemma {:induction false} PayloadOrder(form: Form, keys: seq<string>)
    requires forall k :: k in keys ==> k in form
    ensures forall i, j :: 0 <= i < j < |Payload(form, keys)| ==>
      ListedBefore(keys, Payload(form, keys)[i].0, Payload(form, keys)[j].0)
  {
    if keys != [] {
      var init := keys[..|keys| - 1];
      var k := keys[|keys| - 1];
      PayloadOrder(form, init);
      PayloadMembers(form, init);
      PayloadLast(form, keys);
      var p, q := Payload(form, init), Payload(form, keys);
      assert q == p + (if Kept(form[k]) then [(k, form[k])] else []);
      assert q[..|p|] == p;
      forall i, j | 0 <= i < j < |q|
        ensures ListedBefore(keys, q[i].0, q[j].0)
      {
        if j < |p| {
          assert ListedBefore(init, p[i].0, p[j].0);
          var a, b :| 0 <= a < b < |init| && init[a] == p[i].0 && init[b] == p[j].0;
          assert q[i] == p[i] && q[j] == p[j];
          assert keys[a] == init[a] && keys[b] == init[b];
          assert 0 <= a < b < |keys| && keys[a] == q[i].0 && keys[b] == q[j].0;
        } else {
          assert j == |p| && Kept(form[k]);
          assert q[i] == p[i] && q[i] in p;
          assert q[i].0 in init;
          var a :| 0 <= a < |init| && init[a] == q[i].0;
          assert q[j] == (k, form[k]);
          assert 0 <= a < |keys| - 1 < |keys| && keys[a] == q[i].0 && keys[|keys| - 1] == q[j].0;
        }
      }
    } else {
      assert Payload(form, keys) == [];
    }
  }

  /** Keys whose values are all dropped contribute nothing. */
  lemma {:induction false} NothingKept(form: Form, keys: seq<string>)
    requires forall k :: k in keys ==> k in form && !Kept(form[k])
    ensures Payload(form, keys) == []
  {
    if keys != [] {
      NothingKept(form, keys[..|keys| - 1]);
    }
  }

  /** An untouched form for a new movie sends no field at all. */
  lemma BlankFormSendsNothing()
    ensures Payload(BlankForm(), FormKeys) == []
  {
    NothingKept(BlankForm(), FormKeys);
  }

  /** An edited movie sends each of its truthy text fields with its own value and never a
    * poster it did not choose. */
  lemma EditFormSends(e: JsObject, k: string)
    requires k in TextKeys
    ensures (k, Prop(e, k)) in Payload(FormFor(Some(e)), FormKeys) <==> Truthy(Prop(e, k))
    ensures forall v :: ("poster", v) !in Payload(FormFor(Some(e)), FormKeys)
  {
    PayloadMembers(FormFor(Some(e)), FormKeys);
    assert k in FormKeys && k != "poster" && k != "release_date";
  }

  /** The submit request: an update of the edited movie, or an addition. */
  datatype Request = Put(path: string, body: seq<(string, JsValue)>) | Post(path: string, body: seq<(string, JsValue)>)

  /** The endpoint the form is submitted to. */
  function RequestFor(editData: Option<JsObject>, body: seq<(string, JsValue)>): (r: Request)
    ensures editData.None? <==> r.Post?
    ensures r.body == body
    ensures editData.Some? && Truthy(Prop(editData.value, "id_movie")) ==>
      r.path == "/admin/updatemovie/" + ToStr(Prop(editData.value, "id_movie"))
    ensures editData.Some? && !Truthy(Prop(editData.value, "id_movie")) ==>
      r.path == "/admin/updatemovie/" + ToStr(Prop(editData.value, "id"))
    ensures editData.None? ==> r.path == "/admin/addmovie"
  {
    match editData
    case Some(e) => Put("/admin/updatemovie/" + ToStr(Or(Prop(e, "id_movie"), Prop(e, "id"))), body)
    case None => Post("/admin/addmovie", body)
  }

  /** The submit reply: success, an error response with its status, `data.message` and
    * status text, or a failure without a response and its message. */
  datatype SubmitReply =
    | Saved
    | ErrorResponse(status: int, message: JsValue, statusText: string)
    | NoResponse(errorMessage: string)

  /** What the modal does after a submit. */
  datatype Outcome = Reload | SavedAndClosed | StayOpen

  /** The alert of a failed submit other than an expired session. */
  function FailureAlert(reply: SubmitReply): string
    requires reply.ErrorResponse? || reply.NoResponse?
  {
    if reply.ErrorResponse? then FailurePrefix + ToStr(Or(reply.message, Str(reply.statusText)))
    else FailurePrefix + reply.errorMessage
  }

  class MovieFormModal {
    var formData: Form
    var previewPoster: JsValue
    var loading: bool

    constructor ()
      ensures formData == BlankForm() && previewPoster == Null && !loading
    {
      formData := BlankForm();
      previewPoster := Null;
      loading := false;
    }

    /** The effect run when the modal opens or the edited movie changes. */
    method Open(editData: Option<JsObject>)
      modifies this
      ensures formData == FormFor(editData) && previewPoster == PreviewFor(editData)
      ensures loading == old(loading)
    {
      formData := FormFor(editData);
      previewPoster := PreviewFor(editData);
    }

    /** Typing into the input of a field: that field changes, the others stay. */
    method ChangeField(key: string, value: string)
      requires key in FormKeys && key != "poster"
      modifies this
      ensures formData == old(formData)[key := Str(value)]
      ensures previewPoster == old(previewPoster) && loading == old(loading)
    {
      formData := formData[key := Str(value)];
    }

    /** Choosing a poster file; choosing none changes nothing. */
    method ChangeImage(file: Option<JsValue>, objectUrl: JsValue)
      modifies this
      ensures file.None? ==> formData == old(formData) && previewPoster == old(previewPoster)
      ensures file.Some? ==> formData == old(formData)["poster" := file.value] && previewPoster == objectUrl
      ensures loading == old(loading)
    {
      if file.Some? {
        formData := formData["poster" := file.value];
        previewPoster := objectUrl;
      }
    }

    /** The `forEach` over the form's keys that fills the submitted data. */
    method BuildPayload() returns (data: seq<(string, JsValue)>)
      requires WellFormed(formData)
      ensures data == Payload(formData, FormKeys)
    {
      data := [];
      var i := 0;
      while i < |FormKeys|
        invariant 0 <= i <= |FormKeys|
        invariant data == Payload(formData, FormKeys[..i])
      {
        var key := FormKeys[i];
        assert FormKeys[..i + 1][..i] == FormKeys[..i];
        if formData[key] != Null && formData[key] != Str("") {
          data := data + [(key, formData[key])];
        }
        i := i + 1;
      }
      assert FormKeys[..i] == FormKeys;
    }

    /** `handleSubmit`. Without a stored admin token it alerts and reloads, sending
      * nothing. Otherwise it sends the payload to the form's endpoint; on success it
      * alerts and closes; a 401 alerts, removes the admin token (only that key) and
      * reloads; any other failure alerts its message. Loading is off afterwards. */
    method HandleSubmit(editData: Option<JsObject>, store: Store<string>, reply: SubmitReply)
      returns (request: Option<Request>, alert: string, outcome: Outcome)
      requires WellFormed(formData)
      modifies this, store
      ensures !loading
      ensures formData == old(formData) && previewPoster == old(previewPoster)
      ensures var token := old(store.GetItem(AdminTokenKey));
        && (token.None? || token == Some("") ==>
              request == None && alert == MissingTokenMessage && outcome == Reload &&
              store.items == old(store.items))
        && (token.Some? && token != Some("") ==>
              && request == Some(RequestFor(editData, Payload(formData, FormKeys)))
              && (reply.Saved? ==>
                    alert == (if editData.Some? then UpdatedMessage else AddedMessage) &&
                    outcome == SavedAndClosed && store.items == old(store.items))
              && (reply.ErrorResponse? && reply.status == 401 ==>
                    alert == SessionEndedMessage && outcome == Reload &&
                    store.items == old(store.items) - {AdminTokenKey})
              && (!reply.Saved? && !(reply.ErrorResponse? && reply.status == 401) ==>
                    alert == FailureAlert(reply) && outcome == StayOpen &&
                    store.items == old(store.items)))
    {
      loading := true;
      var token := store.GetItem(AdminTokenKey);
      if token.None? || token.value == "" {
        request, alert, outcome := None, MissingTokenMessage, Reload;
        loading := false;
        return;
      }
      var data := BuildPayload();
      request := Some(RequestFor(editData, data));
      match reply {
        case Saved =>
          alert := if editData.Some? then UpdatedMessage else AddedMessage;
          outcome := SavedAndClosed;
        case ErrorResponse(status, message, statusText) =>
          if status == 401 {
            alert := SessionEndedMessage;
            store.RemoveItem(AdminTokenKey);
            outcome := Reload;
          } else {
            alert := FailurePrefix + ToStr(Or(message, Str(statusText)));
            outcome := StayOpen;
          }
        case NoResponse(message) =>
          alert := FailurePrefix + message;
          outcome := StayOpen;
      }
      loading := false;
    }
  }
}
