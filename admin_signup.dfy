/**
 * The organisation-admin sign-up form: when it may be submitted, what it
 * posts, and how a failed request's error body becomes the errors shown
 * under each field.
 */
module AdminSignup {
  import opened Wrappers
  import opened JsStrings

  const PasswordMismatch := "Passwords do not match."
  const SignupFailed := "Signup failed. Please try again."
  const NonFieldKey := "non_field_errors"
  const PasswordHint := "Minimum 8 characters"

  // ---------------------------------------------------------------------
  // the email check

  /** The characters the regular-expression wildcard `.` matches: all but the line terminators. */
  predicate DotMatches(c: char) {
    c != '\n' && c != '\r' && c != '\U{2028}' && c != '\U{2029}'
  }

  /**
   * A match of `.+@.+\..+` with its `@` at `a` and its `.` at `b`: a
   * wildcard character before the `@`, a non-empty run of them between,
   * and one after the dot.
   */
  predicate MatchAt(s: string, a: int, b: int)
    requires 0 < a && a + 1 < b < |s| - 1
  {
    && s[a] == '@' && s[b] == '.'
    && DotMatches(s[a - 1]) && DotMatches(s[b + 1])
    && forall k :: a < k < b ==> DotMatches(s[k])
  }

  /** `/.+@.+\..+/.test(s)`: the pattern is not anchored, so a match anywhere counts. */
  predicate EmailPattern(s: string) {
    exists a, b :: 0 < a && a + 1 < b < |s| - 1 && MatchAt(s, a, b)
  }

  /** Every `local@domain.tld` made of non-empty single-line parts passes. */
  lemma EmailOfParts(local: string, domain: string, tld: string)
    requires local != [] && domain != [] && tld != []
    requires forall k :: 0 <= k < |local| ==> DotMatches(local[k])
    requires forall k :: 0 <= k < |domain| ==> DotMatches(domain[k])
    requires forall k :: 0 <= k < |tld| ==> DotMatches(tld[k])
    ensures EmailPattern(local + "@" + domain + "." + tld)
  {
    var s := local + "@" + domain + "." + tld;
    var a, b := |local|, |local| + 1 + |domain|;
    assert s[a - 1] == local[|local| - 1];
    assert s[b + 1] == tld[0];
    forall k | a < k < b ensures DotMatches(s[k]) {
      assert s[k] == domain[k - a - 1];
    }
    assert MatchAt(s, a, b);
  }

  /** A passing address has an `@` after its first character and a `.` at least two places after it. */
  lemma EmailPatternNeeds(s: string)
    requires EmailPattern(s)
    ensures |s| >= 5
    ensures exists a :: 0 < a < |s| - 3 && s[a] == '@' && '.' in s[a + 2..]
  {
    var a, b :| 0 < a && a + 1 < b < |s| - 1 && MatchAt(s, a, b);
    assert s[a + 2..][b - a - 2] == '.';
  }

  /** The submit button is enabled. */
  predicate CanSubmit(organizationName: string, email: string, password: string, confirm: string, loading: bool) {
    && JsLength(Trim(organizationName)) > 1
    && EmailPattern(email)
    && JsLength(password) >= 8
    && password == confirm
    && !loading
  }

  /**
   * An enabled button means a trimmed organisation name of more than one
   * UTF-16 code unit (so at least one character), a password of at least
   * eight code units (so at least four characters) equal to its
   * confirmation, and an address of at least five characters.
   */
  lemma CanSubmitSpec(organizationName: string, email: string, password: string, confirm: string, loading: bool)
    requires CanSubmit(organizationName, email, password, confirm, loading)
    ensures |Trim(organizationName)| >= 1 && |password| >= 4 && password == confirm && |email| >= 5
  {
    JsLengthBounds(Trim(organizationName));
    JsLengthBounds(password);
    EmailPatternNeeds(email);
  }

  // ---------------------------------------------------------------------
  // errors

  /** One field's entry in the server's error object: a list of messages or one message. */
  datatype FieldError = Messages(list: seq<string>) | Text(text: string)

  /**
   * The form's error state: an object of field errors, or a non-object
   * value (a plain-text error body) on which no field is found.
   */
  datatype ErrorBag = Fields(fields: map<string, FieldError>) | NotAnObject

  function FieldOf(bag: ErrorBag, key: string): Option<FieldError> {
    if bag.Fields? && key in bag.fields then Some(bag.fields[key]) else None
  }

  /** The text `Field` shows for an error: the messages joined by spaces, the message itself, or "". */
  function ErrText(error: Option<FieldError>): string {
    match error
    case None => ""
    case Some(Messages(list)) => Join(list, " ")
    case Some(Text(t)) => t
  }

  /** The hint shows only while there is no error text. */
  predicate ShowsHint(hint: Option<string>, error: Option<FieldError>) {
    Truthy(hint) && ErrText(error) == ""
  }

  predicate ShowsError(error: Option<FieldError>) {
    ErrText(error) != ""
  }

  /** A field shows its hint or its error, never both, and the hint whenever there is no error. */
  lemma HintOrError(hint: Option<string>, error: Option<FieldError>)
    ensures !(ShowsHint(hint, error) && ShowsError(error))
    ensures Truthy(hint) ==> ShowsHint(hint, error) || ShowsError(error)
    ensures error == Some(Messages([PasswordMismatch])) ==> ShowsError(error) && !ShowsHint(hint, error)
  {
  }

  /** The body of a failed request's response, as the client receives it. */
  datatype ErrorBody = ObjectBody(fields: map<string, FieldError>) | TextBody(text: string) | NoBody

  /** The errors after a failure: the body when it is truthy, a generic message otherwise. */
  function FailureErrors(body: ErrorBody): (r: ErrorBag)
    ensures body.ObjectBody? ==> r == Fields(body.fields)
  {
    match body
    case ObjectBody(fields) => Fields(fields)
    case TextBody(t) => if t != "" then NotAnObject else Fields(map[NonFieldKey := Messages([SignupFailed])])
    case NoBody => Fields(map[NonFieldKey := Messages([SignupFailed])])
  }

  /**
   * Without a body the generic message shows as a non-field error; a
   * non-empty plain-text body replaces the errors with a value on which no
   * field, not even the non-field errors, is found.
   */
  lemma FailureErrorsShown(body: ErrorBody, key: string)
    ensures body == NoBody || body == TextBody("") ==>
      ErrText(FieldOf(FailureErrors(body), NonFieldKey)) == SignupFailed
    ensures body.TextBody? && body.text != "" ==> FieldOf(FailureErrors(body), key) == None
  {
  }

  // ---------------------------------------------------------------------
  // submitting

  /** The request body; an empty name is left out. */
  datatype SignupPayload = SignupPayload(organizationName: string, email: string, password: string, name: Option<string>)

  function Payload(organizationName: string, name: string, email: string, password: string): (p: SignupPayload)
    ensures p.organizationName == Trim(organizationName) && p.email == Trim(email) && p.password == password
    ensures p.name.Some? <==> Trim(name) != ""
    ensures p.name.Some? ==> p.name.value == Trim(name)
  {
    var n := Trim(name);
    SignupPayload(Trim(organizationName), Trim(email), password, if n != "" then Some(n) else None)
  }

  /** What the server sends back for a created account. */
  datatype SignupResult = SignupResult(organizationId: string, userId: string, email: string)

  class SignupForm {
    var organizationName: string
    var name: string
    var email: string
    var password: string
    var confirm: string
    var loading: bool
    var success: Option<SignupResult>
    var errors: ErrorBag
    /** The browser's local storage. */
    var storage: map<string, string>
    /** The sign-up requests posted, oldest first. */
    var requests: seq<SignupPayload>

    constructor (stored: map<string, string>)
      ensures organizationName == "" && name == "" && email == "" && password == "" && confirm == ""
      ensures !loading && success == None && errors == Fields(map[])
      ensures storage == stored && requests == []
    {
      organizationName, name, email, password, confirm := "", "", "", "", "";
      loading := false;
      success := None;
      errors := Fields(map[]);
      storage := stored;
      requests := [];
    }

    /**
     * `handleSubmit`: the errors are cleared; mismatched passwords mark
     * both password fields and post nothing; otherwise the request goes out.
     */
    method HandleSubmit()
      modifies this
      ensures password != confirm ==>
        && errors == Fields(map["password" := Messages([PasswordMismatch]), "confirm" := Messages([PasswordMismatch])])
        && requests == old(requests) && loading == old(loading)
      ensures password == confirm ==>
        && errors == Fields(map[]) && loading
        && requests == old(requests) + [Payload(organizationName, name, email, password)]
      ensures organizationName == old(organizationName) && name == old(name) && email == old(email)
      ensures password == old(password) && confirm == old(confirm)
      ensures success == old(success) && storage == old(storage)
    {
      errors := Fields(map[]);
      if password != confirm {
        errors := Fields(map["password" := Messages([PasswordMismatch]), "confirm" := Messages([PasswordMismatch])]);
        return;
      }
      loading := true;
      requests := requests + [Payload(organizationName, name, email, password)];
    }

    /** The request succeeded: the success screen shows and the new ids are stored. */
    method OnSignupSucceeded(result: SignupResult)
      modifies this
      ensures success == Some(result) && !loading
      ensures storage == old(storage)["org_id" := result.organizationId]["user_id" := result.userId]["signup_email" := result.email]
      ensures errors == old(errors) && requests == old(requests)
      ensures organizationName == old(organizationName) && name == old(name) && email == old(email)
      ensures password == old(password) && confirm == old(confirm)
    {
      success := Some(result);
      storage := storage["org_id" := result.organizationId];
      storage := storage["user_id" := result.userId];
      storage := storage["signup_email" := result.email];
      loading := false;
    }

    /** The request failed with the given response body. */
    method OnSignupFailed(body: ErrorBody)
      modifies this
      ensures errors == FailureErrors(body) && !loading
      ensures success == old(success) && storage == old(storage) && requests == old(requests)
      ensures organizationName == old(organizationName) && name == old(name) && email == old(email)
      ensures password == old(password) && confirm == old(confirm)
    {
      match body {
        case ObjectBody(fields) => errors := Fields(fields);
        case TextBody(t) =>
          errors := if t != "" then NotAnObject else Fields(map[NonFieldKey := Messages([SignupFailed])]);
        case NoBody => errors := Fields(map[NonFieldKey := Messages([SignupFailed])]);
      }
      loading := false;
    }
  }
}
