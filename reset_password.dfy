/** The password-reset page (ResetPassword.js): the token taken from the link,
    a two-field form, a two-rule validation chain, and the reset request. */
module ResetPassword {
  import opened Wrappers
  import opened Forms

  datatype ResetForm = ResetForm(password: string, confirmPassword: string)

  /** The form fields an input can name (`e.target.name`). */
  datatype Field = Password | ConfirmPassword

  /** The body of the reset request. The token is sent as read from the link. */
  datatype ResetRequest = ResetRequest(token: Option<string>, password: string)

  const InvalidLink := "Invalid reset link. Please request a new one."
  const PasswordTooShort := "Password must be at least 6 characters"
  const PasswordMismatch := "Passwords do not match"
  const ResetSucceeded := "Password reset successfully! Redirecting to login..."
  const ResetFailed := "Failed to reset password. Please try again."
  const MinPasswordLength := 6

  const EmptyForm := ResetForm("", "")

  /** `!token` is false: the `token` query parameter is present and not the
      empty string. */
  predicate TokenPresent(token: Option<string>): (b: bool)
    ensures !b <==> token in {None, Some("")}
  {
    match token
    case None => false
    case Some(s) => s != ""
  }

  /** `{ ...form, [field]: value }`. */
  function Update(form: ResetForm, field: Field, value: string): (r: ResetForm)
    ensures r.password == (if field == Password then value else form.password)
    ensures r.confirmPassword == (if field == ConfirmPassword then value else form.confirmPassword)
  {
    match field
    case Password => form.(password := value)
    case ConfirmPassword => form.(confirmPassword := value)
  }

  /** The rules of `validateForm`, in the order they are tried. */
  function Rules(form: ResetForm): seq<Check> {
    [ Check(|form.password| >= MinPasswordLength, PasswordTooShort),
      Check(form.password == form.confirmPassword, PasswordMismatch) ]
  }

  /** `validateForm`: the length rule first, then the confirmation rule. The
      form may be submitted exactly when both pass; a mismatch is reported
      only for a password that is long enough. */
  function ValidateForm(form: ResetForm): (r: Option<string>)
    ensures r.None? <==> |form.password| >= MinPasswordLength && form.password == form.confirmPassword
    ensures r == Some(PasswordMismatch) ==> |form.password| >= MinPasswordLength
    ensures r.Some? ==> r.value in {PasswordTooShort, PasswordMismatch}
  {
    if |form.password| < MinPasswordLength then Some(PasswordTooShort)
    else if form.password != form.confirmPassword then Some(PasswordMismatch)
    else None
  }

  /** The `if` chain of `validateForm` is the rule list tried in order. */
  lemma ValidateFormIsFirstFailure(form: ResetForm)
    ensures ValidateForm(form) == FirstFailure(Rules(form))
  {
    var c := Rules(form);
    FirstFailureCons(c[1], []);
    assert [c[1]] + [] == c[1..];
    FirstFailureCons(c[0], c[1..]);
    assert [c[0]] + c[1..] == c;
  }

  /** The request body: exactly the token and the new password. */
  function Payload(token: Option<string>, form: ResetForm): (r: ResetRequest)
    ensures r.token == token && r.password == form.password
  {
    ResetRequest(token, form.password)
  }

  /** The page's state cells; `token` is fixed for the page's lifetime.
      `Submit` runs `handleSubmit` up to the request, `Complete` runs once the
      request settles. */
  class ResetPasswordPage {
    const token: Option<string>
    var form: ResetForm
    var error: string
    var success: string
    var loading: bool
    var tokenValid: bool

    constructor(token: Option<string>)
      ensures this.token == token
      ensures form == EmptyForm && error == "" && success == "" && !loading && tokenValid
    {
      this.token := token;
      form, error, success, loading, tokenValid := EmptyForm, "", "", false, true;
    }

    /** The effect run on mount: a missing or empty token marks the link
        invalid and sets the invalid-link message; otherwise nothing changes. */
    method CheckToken()
      modifies this
      ensures form == old(form) && success == old(success) && loading == old(loading)
      ensures TokenPresent(token) ==> tokenValid == old(tokenValid) && error == old(error)
      ensures !TokenPresent(token) ==> !tokenValid && error == InvalidLink
    {
      if !TokenPresent(token) {
        tokenValid := false;
        error := InvalidLink;
      }
    }

    /** `handleChange`: one field replaced, the error cleared. */
    method HandleChange(field: Field, value: string)
      modifies this
      ensures form == Update(old(form), field, value)
      ensures error == "" && success == old(success) && loading == old(loading) && tokenValid == old(tokenValid)
    {
      form := Update(form, field, value);
      error := "";
    }

    /** `handleSubmit` up to the request: a failing rule sets its message and
        nothing is sent; otherwise `loading` is set and the request body is
        returned. */
    method Submit() returns (request: Option<ResetRequest>)
      modifies this
      ensures form == old(form) && success == old(success) && tokenValid == old(tokenValid)
      ensures ValidateForm(form).Some? ==>
        request.None? && error == ValidateForm(form).value && loading == old(loading)
      ensures ValidateForm(form).None? ==>
        request == Some(Payload(token, form)) && error == old(error) && loading
    {
      var invalid := ValidateForm(form);
      if invalid.Some? {
        error := invalid.value;
        request := None;
        return;
      }
      loading := true;
      request := Some(Payload(token, form));
    }

    /** The request settled. Success sets the success message and empties both
        fields; failure shows the server's message or the fallback. Either way
        `loading` is cleared. */
    method Complete(response: Response)
      requires loading
      modifies this
      ensures !loading && tokenValid == old(tokenValid)
      ensures response.Success? ==>
        success == ResetSucceeded && form == EmptyForm && error == old(error)
      ensures response.Failure? ==>
        error == ShownError(response.message, ResetFailed) && form == old(form) && success == old(success)
    {
      if response.Success? {
        success := ResetSucceeded;
        form := EmptyForm;
      } else {
        error := ShownError(response.message, ResetFailed);
      }
      loading := false;
    }
  }
}
