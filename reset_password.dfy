/** The password reset page: a new password typed twice, checked for agreement before the
  * reset link's token and the password are posted. The HTTP reply is an input of the
  * submit handler; the redirect timer after success is left out. */
module ResetPassword {

  import opened Base
  import opened Js

  const ApiBaseUrl := "http://localhost:2000"
  const MismatchMessage := "Konfirmasi password tidak cocok."
  const ChangedMessage := "Password berhasil diubah! Mengalihkan..."
  const ExpiredMessage := "Gagal mereset password. Token mungkin kadaluarsa."

  /** The banner: its kind ("success", "error" or "" for none) and its message. */
  datatype Status = Status(kind: string, message: JsValue)

  const NoStatus := Status("", Str(""))

  /** The reset reply: success, or a failure carrying `err.response?.data?.message`
    * (`undefined` when there was no response or no message). */
  datatype ResetReply = ResetOk | ResetFailed(serverMessage: JsValue)

  /** The request `handleReset` posts: the endpoint of the token, and the password. */
  datatype ResetRequest = ResetRequest(path: string, password: string)

  /** The banner left after a request: success, or the server's message, falling back to
    * the expired-token message. */
  function ReplyStatus(reply: ResetReply): (s: Status)
    ensures reply.ResetOk? <==> s.kind == "success"
    ensures reply.ResetOk? ==> s.message == Str(ChangedMessage)
    ensures reply.ResetFailed? ==> s.kind == "error"
    ensures reply.ResetFailed? && Truthy(reply.serverMessage) ==> s.message == reply.serverMessage
    ensures reply.ResetFailed? && !Truthy(reply.serverMessage) ==> s.message == Str(ExpiredMessage)
  {
    match reply
    case ResetOk => Status("success", Str(ChangedMessage))
    case ResetFailed(m) => Status("error", Or(m, Str(ExpiredMessage)))
  }

  /** Every submit ends with a banner: the message is never falsy. */
  lemma ReplyStatusShown(reply: ResetReply)
    ensures Truthy(ReplyStatus(reply).message)
  {
  }

  class ResetPasswordPage {
    const token: string
    var password: string
    var confirmPassword: string
    var loading: bool
    var status: Status

    constructor (token: string)
      ensures this.token == token
      ensures password == "" && confirmPassword == "" && !loading && status == NoStatus
    {
      this.token := token;
      password, confirmPassword, loading, status := "", "", false, NoStatus;
    }

    method SetPassword(value: string)
      modifies this
      ensures password == value
      ensures confirmPassword == old(confirmPassword) && loading == old(loading) && status == old(status)
    {
      password := value;
    }

    method SetConfirmPassword(value: string)
      modifies this
      ensures confirmPassword == value
      ensures password == old(password) && loading == old(loading) && status == old(status)
    {
      confirmPassword := value;
    }

    /** Whether the submit button can be pressed: not while a request is out, and only
      * with both fields filled in. */
    predicate SubmitEnabled()
      reads this
    {
      !loading && password != "" && confirmPassword != ""
    }

    /** `handleReset` up to the request: two different passwords show the mismatch error
      * and send nothing; otherwise the banner is cleared, loading starts (which disables
      * the button) and the password is posted to the token's endpoint. */
    method SubmitReset() returns (request: Option<ResetRequest>)
      modifies this
      ensures password != confirmPassword ==>
        request == None && status == Status("error", Str(MismatchMessage)) && loading == old(loading)
      ensures password == confirmPassword ==>
        && request == Some(ResetRequest(ApiBaseUrl + "/reset-password/" + token, password))
        && status == NoStatus && loading && !SubmitEnabled()
      ensures password == old(password) && confirmPassword == old(confirmPassword)
    {
      if password != confirmPassword {
        status := Status("error", Str(MismatchMessage));
        return None;
      }
      loading := true;
      status := NoStatus;
      request := Some(ResetRequest(ApiBaseUrl + "/reset-password/" + token, password));
    }

    /** The rest of `handleReset` once the posted request settles: the reply decides the
      * banner and, in `finally`, loading ends, so the button is enabled again exactly when
      * both fields are filled in. */
    method ResetReplied(reply: ResetReply)
      modifies this
      ensures status == ReplyStatus(reply) && !loading
      ensures SubmitEnabled() <==> password != "" && confirmPassword != ""
      ensures password == old(password) && confirmPassword == old(confirmPassword)
    {
      status := ReplyStatus(reply);
      loading := false;
    }
  }
}
