/** client/src/components/Register.jsx: the registration form's state and `handleSubmit`. The
    `register` call of the auth context is a parameter holding its result; the delayed
    redirect to /login is left out. */
module RegisterForm {
  import opened Js
  import AuthController

  const MismatchError := "Passwords do not match"
  const LengthError := "Password must be at least 6 characters long"
  const DefaultSuccess := "Registration successful! Waiting for admin approval."

  /** The four controlled inputs. */
  datatype FormData = FormData(fullName: string, email: string, password: string, confirmPassword: string)

  /** The input an `onChange` event names with `e.target.name`. */
  datatype Field = FullName | Email | Password | ConfirmPassword

  /** What `register(formData)` resolves to. */
  datatype RegisterResult = RegisterResult(success: bool, message: Option<string>)

  const EmptyForm := FormData("", "", "", "")

  /** `{ ...formData, [name]: value }` */
  function WithField(form: FormData, name: Field, value: string): (r: FormData)
    ensures name.FullName? ==> r == form.(fullName := value)
    ensures name.Email? ==> r == form.(email := value)
    ensures name.Password? ==> r == form.(password := value)
    ensures name.ConfirmPassword? ==> r == form.(confirmPassword := value)
  {
    match name
    case FullName => form.(fullName := value)
    case Email => form.(email := value)
    case Password => form.(password := value)
    case ConfirmPassword => form.(confirmPassword := value)
  }

  /** The client-side checks of `handleSubmit`, in their order: the mismatch is reported
      before the length, so a short mismatched password reports the mismatch. */
  function FormError(form: FormData): (r: Option<string>)
    ensures r.None? <==> form.password == form.confirmPassword && Utf16Length(form.password) >= AuthController.MinPasswordLength
    ensures form.password != form.confirmPassword ==> r == Some(MismatchError)
    ensures form.password == form.confirmPassword && Utf16Length(form.password) < AuthController.MinPasswordLength ==>
              r == Some(LengthError)
  {
    if form.password != form.confirmPassword then Some(MismatchError)
    else if Utf16Length(form.password) < AuthController.MinPasswordLength then Some(LengthError)
    else None
  }

  /** The body the server receives from the form: every input is sent, as a string. */
  function AsBody(form: FormData): AuthController.RegisterBody {
    AuthController.RegisterBody(Some(form.fullName), Some(form.email), Some(form.password), Some(form.confirmPassword))
  }

  /** With every input filled in (the inputs are `required`), the client accepts a form exactly
      when the server's validation does, and both report a mismatch before a short password. */
  lemma ClientAgreesWithServer(form: FormData)
    requires form.fullName != "" && form.email != "" && form.password != "" && form.confirmPassword != ""
    ensures FormError(form).None? <==> AuthController.RegisterValidation(AsBody(form)).None?
    ensures FormError(form) == Some(MismatchError) <==>
              AuthController.RegisterValidation(AsBody(form)) == Some(MismatchError)
  {
  }

  /** The length check counts UTF-16 code units as `password.length` does, so a password of
      three emoji (three characters, six units) is long enough for client and server alike. */
  lemma ThreeEmojiPasswordPasses(fullName: string, email: string)
    requires fullName != "" && email != ""
    ensures var p := "\U{1F600}\U{1F600}\U{1F600}";
            && FormError(FormData(fullName, email, p, p)).None?
            && AuthController.RegisterValidation(AsBody(FormData(fullName, email, p, p))).None?
  {
    ThreeEmojiAreSixUnits();
  }

  class Form {
    var formData: FormData
    var error: string
    var success: string
    var loading: bool

    constructor ()
      ensures formData == EmptyForm && error == "" && success == "" && !loading
    {
      formData, error, success, loading := EmptyForm, "", "", false;
    }

    /** `handleChange` */
    method HandleChange(name: Field, value: string)
      modifies this`formData
      ensures formData == WithField(old(formData), name, value)
    {
      formData := WithField(formData, name, value);
    }

    /** `handleSubmit`: returns the form it passed to `register`, `None` when the checks
        stopped it first. `result` is what that call resolved to. */
    method HandleSubmit(result: RegisterResult) returns (sent: Option<FormData>)
      modifies this
      ensures FormError(old(formData)).Some? ==>
                && sent.None? && error == FormError(old(formData)).value && success == ""
                && formData == old(formData) && loading == old(loading)
      ensures FormError(old(formData)).None? ==> sent == Some(old(formData)) && !loading
      ensures FormError(old(formData)).None? && result.success ==>
                && formData == EmptyForm && error == ""
                && success == if Truthy(result.message) then result.message.value else DefaultSuccess
      ensures FormError(old(formData)).None? && !result.success ==>
                formData == old(formData) && success == "" && error == OrEmpty(result.message)
    {
      error := "";
      success := "";
      var invalid := FormError(formData);
      if invalid.Some? {
        error := invalid.value;
        return None;
      }
      loading := true;
      sent := Some(formData);
      if result.success {
        success := if Truthy(result.message) then result.message.value else DefaultSuccess;
        formData := EmptyForm;
      } else {
        error := OrEmpty(result.message);
      }
      loading := false;
    }
  }
}
