/**
 * The set-password page reached from an invitation link: the checks made
 * before the request and the message shown when it fails.
 */
module SetPassword {
  import opened Wrappers
  import opened JsStrings

  const TooShort := "Password must be at least 8 characters."
  const Mismatch := "Passwords do not match."
  const SetFailed := "Failed to set password."

  /** The message that stops a submission, checked in order: length first, then agreement. */
  function Validate(pw1: string, pw2: string): Option<string> {
    if JsLength(pw1) < 8 then Some(TooShort)
    else if pw1 != pw2 then Some(Mismatch)
    else None
  }

  /** A submission goes ahead exactly for a password of 8 or more code units typed twice alike; a short one is reported as short even when the two differ. */
  lemma ValidateSpec(pw1: string, pw2: string)
    ensures Validate(pw1, pw2).None? <==> JsLength(pw1) >= 8 && pw1 == pw2
    ensures JsLength(pw1) < 8 ==> Validate(pw1, pw2) == Some(TooShort)
    ensures JsLength(pw1) >= 8 && pw1 != pw2 ==> Validate(pw1, pw2) == Some(Mismatch)
  {
  }

  /** The body of a failed response: an object with an optional `detail`, a string, or nothing. */
  datatype ResponseData = ObjectData(detail: Option<string>) | StringData(text: string) | NoData

  /** The error shown after a failure: the detail, else a string body, else a fixed message. */
  function FailureMessage(data: ResponseData): (r: string)
    ensures data.ObjectData? && Truthy(data.detail) ==> r == data.detail.value
    ensures data.StringData? ==> r == data.text
  {
    match data
    case ObjectData(detail) => if Truthy(detail) then detail.value else SetFailed
    case StringData(text) => text
    case NoData => SetFailed
  }

  /** Some message is shown after every failure except one whose body is the empty string. */
  lemma FailureMessageShown(data: ResponseData)
    ensures FailureMessage(data) == "" <==> data == StringData("")
    ensures data.NoData? || (data.ObjectData? && !Truthy(data.detail)) ==> FailureMessage(data) == SetFailed
  {
  }

  /** One call of the set-password endpoint. */
  datatype SetPasswordRequest = SetPasswordRequest(uid: string, token: string, newPassword: string)

  class SetPasswordForm {
    const uid: string
    const token: string
    var pw1: string
    var pw2: string
    var saving: bool
    var error: Option<string>
    var ok: bool
    /** The requests made, oldest first. */
    var requests: seq<SetPasswordRequest>

    /** The page for the link's `uid` and `token` (the route gives "" for a missing one). */
    constructor (uid: string, token: string)
      ensures this.uid == uid && this.token == token
      ensures pw1 == "" && pw2 == "" && !saving && error == None && !ok && requests == []
    {
      this.uid := uid;
      this.token := token;
      pw1, pw2 := "", "";
      saving := false;
      error := None;
      ok := false;
      requests := [];
    }

    /**
     * `submit`: a failed check sets its message and stops; otherwise the
     * request goes out. The button is disabled while a request is saving.
     */
    method Submit()
      requires !saving
      modifies this
      ensures Validate(pw1, pw2).Some? ==> error == Validate(pw1, pw2) && saving == old(saving) && requests == old(requests)
      ensures Validate(pw1, pw2).None? ==>
        error == None && saving && requests == old(requests) + [SetPasswordRequest(uid, token, pw1)]
      ensures pw1 == old(pw1) && pw2 == old(pw2) && ok == old(ok)
    {
      error := None;
      if JsLength(pw1) < 8 {
        error := Some(TooShort);
        return;
      }
      if pw1 != pw2 {
        error := Some(Mismatch);
        return;
      }
      saving := true;
      requests := requests + [SetPasswordRequest(uid, token, pw1)];
    }

    /** The request succeeded; the redirect to the login page follows on a timer. */
    method OnSucceeded()
      modifies this
      ensures ok && !saving
      ensures error == old(error) && pw1 == old(pw1) && pw2 == old(pw2) && requests == old(requests)
    {
      ok := true;
      saving := false;
    }

    /** The request failed with the given body. */
    method OnFailed(data: ResponseData)
      modifies this
      ensures error == Some(FailureMessage(data)) && !saving
      ensures ok == old(ok) && pw1 == old(pw1) && pw2 == old(pw2) && requests == old(requests)
    {
      var msg := match data
        case ObjectData(detail) => if detail.Some? && detail.value != "" then detail.value else SetFailed
        case StringData(text) => text
        case NoData => SetFailed;
      error := Some(msg);
      saving := false;
    }
  }
}
