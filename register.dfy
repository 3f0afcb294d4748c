/** The registration page (Register.js): a four-field form, a validation
    chain, and the request that sends the form without its confirmation. */
module Register {
  import opened Wrappers
  import opened Forms
  import Text

  datatype RegisterForm = RegisterForm(name: string, email: string, password: string, confirmPassword: string)

  /** The form fields an input can name (`e.target.name`). */
  datatype Field = Name | Email | Password | ConfirmPassword

  /** The body of the registration request. */
  datatype RegisterData = RegisterData(name: string, email: string, password: string)

  const NameRequired := "Name is required"
  const InvalidEmail := "Please enter a valid email address"
  const PasswordTooShort := "Password must be at least 6 characters"
  const PasswordMismatch := "Passwords do not match"
  const RegistrationFailed := "Registration failed. Please try again."
  const MinPasswordLength := 6

  const EmptyForm := RegisterForm("", "", "", "")

  /** `{ ...form, [field]: value }`: the named field takes the new value and
      the other three keep theirs. */
  function Update(form: RegisterForm, field: Field, value: string): (r: RegisterForm)
    ensures r.name == (if field == Name then value else form.name)
    ensures r.email == (if field == Email then value else form.email)
    ensures r.password == (if field == Password then value else form.password)
    ensures r.confirmPassword == (if field == ConfirmPassword then value else form.confirmPassword)
  {
    match field
    case Name => form.(name := value)
    case Email => form.(email := value)
    case Password => form.(password := value)
    case ConfirmPassword => form.(confirmPassword := value)
  }

  /** The rules of `validateForm`, in the order they are tried. */
  function Rules(form: RegisterForm): seq<Check> {
    [ Check(!Text.IsBlank(form.name), NameRequired),
      Check('@' in form.email, InvalidEmail),
      Check(|form.password| >= MinPasswordLength, PasswordTooShort),
      Check(form.password == form.confirmPassword, PasswordMismatch) ]
  }

  /** `validateForm`: the message of the first rule that fails, or None when
      the form may be submitted. A blank name is one made only of whitespace. */
  function ValidateForm(form: RegisterForm): (r: Option<string>)
    ensures r.None? <==>
      && !Text.IsBlank(form.name)
      && '@' in form.email
      && |form.password| >= MinPasswordLength
      && form.password == form.confirmPassword
  {
    if Text.IsBlank(form.name) then Some(NameRequired)
    else if '@' !in form.email then Some(InvalidEmail)
    else if |form.password| < MinPasswordLength then Some(PasswordTooShort)
    else if form.password != form.confirmPassword then Some(PasswordMismatch)
    else None
  }

  /** The `if` chain of `validateForm` is the rule list tried in order. */
  lemma ValidateFormIsFirstFailure(form: RegisterForm)
    ensures ValidateForm(form) == FirstFailure(Rules(form))
  {
    var c := Rules(form);
    var nameOk := !Text.IsBlank(form.name);
    assert c == [Check(nameOk, NameRequired)] + c[1..];
    FirstFailureCons(Check(nameOk, NameRequired), c[1..]);
    RestOfChain(form);
  }

  lemma RestOfChain(form: RegisterForm)
    ensures FirstFailure(Rules(form)[1..]) ==
      if '@' !in form.email then Some(InvalidEmail)
      else if |form.password| < MinPasswordLength then Some(PasswordTooShort)
      else if form.password != form.confirmPassword then Some(PasswordMismatch)
      else None
  {
    var c := Rules(form)[1..];
    FirstFailureCons(c[2], []);
    assert [c[2]] + [] == c[2..];
    FirstFailureCons(c[1], c[2..]);
    assert [c[1]] + c[2..] == c[1..];
    FirstFailureCons(c[0], c[1..]);
    assert [c[0]] + c[1..] == c;
  }

  /** A form whose rules fail from rule `k` on reports rule `k`'s message: the
      order is name, email, password length, confirmation. */
  lemma ValidateFormReportsFirstFailingRule(form: RegisterForm, k: nat)
    requires FailsFirst(Rules(form), k)
    ensures ValidateForm(form) == Some(Rules(form)[k].message)
  {
    FirstFailureIsFirst(Rules(form), k);
    ValidateFormIsFirstFailure(form);
  }

  /** `const { confirmPassword, ...registerData } = form`: the request body is
      the form without its confirmation field. */
  function Payload(form: RegisterForm): (r: RegisterData)
    ensures r.name == form.name && r.email == form.email && r.password == form.password
  {
    RegisterData(form.name, form.email, form.password)
  }

  /** The confirmation never reaches the server: editing it leaves the
      request body unchanged. */
  lemma PayloadIgnoresConfirmation(form: RegisterForm, value: string)
    ensures Payload(Update(form, ConfirmPassword, value)) == Payload(form)
  {
  }

  /** The page's state cells. A submission is split at its `await`: `Submit`
      runs up to the request, `Complete` runs once the request settles. */
  class RegisterPage {
    var form: RegisterForm
    var error: string
    var loading: bool

    constructor()
      ensures form == EmptyForm && error == "" && !loading
    {
      form, error, loading := EmptyForm, "", false;
    }

    /** `handleChange`: one field replaced, the error cleared. */
    method HandleChange(field: Field, value: string)
      modifies this
      ensures form == Update(old(form), field, value)
      ensures error == "" && loading == old(loading)
    {
      form := Update(form, field, value);
      error := "";
    }

    /** `submit` up to the request: a failing rule sets its message and
        nothing is sent; otherwise `loading` is set and the request body is
        returned. Passing validation leaves the error as it was. */
    method Submit() returns (request: Option<RegisterData>)
      modifies this
      ensures form == old(form)
      ensures ValidateForm(form).Some? ==>
        request.None? && error == ValidateForm(form).value && loading == old(loading)
      ensures ValidateForm(form).None? ==>
        request == Some(Payload(form)) && error == old(error) && loading
    {
      var invalid := ValidateForm(form);
      if invalid.Some? {
        error := invalid.value;
        request := None;
        return;
      }
      loading := true;
      request := Some(Payload(form));
    }

    /** The request settled: a failure shows the server's message or the
        fallback; either way `loading` is cleared. */
    method Complete(response: Response)
      requires loading
      modifies this
      ensures form == old(form) && !loading
      ensures response.Success? ==> error == old(error)
      ensures response.Failure? ==> error == ShownError(response.message, RegistrationFailed)
    {
      if response.Failure? {
        error := ShownError(response.message, RegistrationFailed);
      }
      loading := false;
    }
  }
}
