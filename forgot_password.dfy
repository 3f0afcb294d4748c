/** The forgot-password page (ForgotPassword.js): one email field, a single
    validation rule, and the request for a reset link. */
module ForgotPassword {
  import opened Wrappers
  import opened Forms

  /** The body of the reset-link request. */
  datatype ResetLinkRequest = ResetLinkRequest(email: string)

  const InvalidEmail := "Please enter a valid email address"
  const LinkSent := "Reset link has been sent to your email. Please check your inbox."
  const SendFailed := "Failed to send reset link. Please try again."

  /** `validateEmail`: the only rule is that the address contains `@`. */
  function ValidateEmail(email: string): (r: Option<string>)
    ensures r.None? <==> '@' in email
    ensures r.Some? ==> r.value == InvalidEmail
  {
    if '@' !in email then Some(InvalidEmail) else None
  }

  /** The page's state cells. `Submit` runs `submit` up to the request,
      `Complete` runs once the request settles. */
  class ForgotPasswordPage {
    var email: string
    var error: string
    var success: string
    var loading: bool

    constructor()
      ensures email == "" && error == "" && success == "" && !loading
    {
      email, error, success, loading := "", "", "", false;
    }

    /** `handleChange`: the email takes the input's value, the error is
        cleared. */
    method HandleChange(value: string)
      modifies this
      ensures email == value && error == ""
      ensures success == old(success) && loading == old(loading)
    {
      email := value;
      error := "";
    }

    /** An address without `@` sets the error and sends nothing; otherwise
        `loading` is set and the request carries the address. */
    method Submit() returns (request: Option<ResetLinkRequest>)
      modifies this
      ensures email == old(email) && success == old(success)
      ensures '@' !in email ==> request.None? && error == InvalidEmail && loading == old(loading)
      ensures '@' in email ==> request == Some(ResetLinkRequest(email)) && error == old(error) && loading
    {
      var invalid := ValidateEmail(email);
      if invalid.Some? {
        error := invalid.value;
        request := None;
        return;
      }
      loading := true;
      request := Some(ResetLinkRequest(email));
    }

    /** The request settled. Success sets the success message and clears the
        address; failure shows the server's message or the fallback. Either
        way `loading` is cleared. */
    method Complete(response: Response)
      requires loading
      modifies this
      ensures !loading
      ensures response.Success? ==> success == LinkSent && email == "" && error == old(error)
      ensures response.Failure? ==>
        error == ShownError(response.message, SendFailed) && email == old(email) && success == old(success)
    {
      if response.Success? {
        success := LinkSent;
        email := "";
      } else {
        error := ShownError(response.message, SendFailed);
      }
      loading := false;
    }
  }
}
