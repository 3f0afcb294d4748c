/** The login page (Login.js): two fields, an empty-field check, the login
    request, and the user record kept in the browser's storage. */
module Login {
  import opened Wrappers
  import opened Forms

  /** The form, which is also the request body. */
  datatype LoginData = LoginData(email: string, password: string)

  /** The form fields an input can name (`e.target.name`). */
  datatype Field = Email | Password

  const MissingFields := "Please enter email and password"
  const LoginFailed := "Invalid credentials. Please try again."
  /** The storage key under which the logged-in user is kept. */
  const UserKey := "user"

  const EmptyData := LoginData("", "")

  /** `{ ...data, [field]: value }`. */
  function Update(data: LoginData, field: Field, value: string): (r: LoginData)
    ensures r.email == (if field == Email then value else data.email)
    ensures r.password == (if field == Password then value else data.password)
  {
    match field
    case Email => data.(email := value)
    case Password => data.(password := value)
  }

  /** `!data.email || !data.password`: the request is sent only when both
      fields are non-empty. No other rule applies. */
  function ValidateData(data: LoginData): (r: Option<string>)
    ensures r.None? <==> data.email != "" && data.password != ""
    ensures r.Some? ==> r.value == MissingFields
  {
    if data.email == "" || data.password == "" then Some(MissingFields) else None
  }

  /** The page's state cells and the browser's `localStorage`. `Submit` runs
      `handleSubmit` up to the request, `Complete` runs once it settles. */
  class LoginPage {
    var data: LoginData
    var error: string
    var loading: bool
    var storage: map<string, string>

    constructor(storage: map<string, string>)
      ensures data == EmptyData && error == "" && !loading && this.storage == storage
    {
      data, error, loading := EmptyData, "", false;
      this.storage := storage;
    }

    /** `handleChange`: one field replaced, the error cleared. */
    method HandleChange(field: Field, value: string)
      modifies this
      ensures data == Update(old(data), field, value)
      ensures error == "" && loading == old(loading) && storage == old(storage)
    {
      data := Update(data, field, value);
      error := "";
    }

    /** An empty field sets the error and sends nothing; otherwise `loading`
        is set and the form itself is the request body. */
    method Submit() returns (request: Option<LoginData>)
      modifies this
      ensures data == old(data) && storage == old(storage)
      ensures ValidateData(data).Some? ==> request.None? && error == MissingFields && loading == old(loading)
      ensures ValidateData(data).None? ==> request == Some(data) && error == old(error) && loading
    {
      var invalid := ValidateData(data);
      if invalid.Some? {
        error := invalid.value;
        request := None;
        return;
      }
      loading := true;
      request := Some(data);
    }

    /** The request settled. Success stores the response body under "user";
        failure shows the server's message or the fallback and leaves the
        storage alone. Either way `loading` is cleared. */
    method Complete(response: Response)
      requires loading
      modifies this
      ensures !loading && data == old(data)
      ensures response.Success? ==> storage == old(storage)[UserKey := response.body] && error == old(error)
      ensures response.Failure? ==>
        error == ShownError(response.message, LoginFailed) && storage == old(storage)
    {
      if response.Success? {
        storage := storage[UserKey := response.body];
      } else {
        error := ShownError(response.message, LoginFailed);
      }
      loading := false;
    }
  }
}
