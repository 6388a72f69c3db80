/**
 * The sign-up form (src/views/RegisterPage.tsx): four text fields, checked in
 * a fixed order before the account is handed to the authentication state.
 * Toasts and the header transparency effect are not modelled.
 */
module RegisterPage {
  import opened Types
  import opened Strings
  import opened AuthContext

  datatype Form = Form(name: string, email: string, password: string, confirmPassword: string)

  datatype FormField = NameField | EmailField | PasswordField | ConfirmPasswordField

  /** The three messages the form can show, in the order it checks for them. */
  datatype FormError = AllFieldsRequired | PasswordsDoNotMatch | PasswordTooShortForForm

  /**
   * The checks of `handleSubmit`: an empty field first, then a mismatch between
   * the two passwords, then a password under six UTF-16 code units.
   */
  function Validate(f: Form): (r: Outcome<FormError>)
    ensures r == Fail(AllFieldsRequired) <==>
              (f.name == "" || f.email == "" || f.password == "" || f.confirmPassword == "")
    ensures r == Fail(PasswordsDoNotMatch) <==>
              (f.name != "" && f.email != "" && f.password != "" && f.confirmPassword != ""
               && f.password != f.confirmPassword)
    ensures r == Fail(PasswordTooShortForForm) <==>
              (f.name != "" && f.email != "" && f.password != "" && f.password == f.confirmPassword
               && Utf16Length(f.password) < MinPasswordLength)
    ensures r == Pass <==>
              (f.name != "" && f.email != "" && f.password == f.confirmPassword
               && Utf16Length(f.password) >= MinPasswordLength)
  {
    if f.name == "" || f.email == "" || f.password == "" || f.confirmPassword == "" then
      Fail(AllFieldsRequired)
    else if f.password != f.confirmPassword then
      Fail(PasswordsDoNotMatch)
    else if Utf16Length(f.password) < MinPasswordLength then
      Fail(PasswordTooShortForForm)
    else
      Pass
  }

  /** The form with one field replaced. */
  function WithField(f: Form, field: FormField, value: string): Form
  {
    match field
    case NameField => f.(name := value)
    case EmailField => f.(email := value)
    case PasswordField => f.(password := value)
    case ConfirmPasswordField => f.(confirmPassword := value)
  }

  class RegisterForm {
    const auth: Auth
    var formData: Form
    var isSubmitting: bool

    constructor(auth: Auth)
      ensures this.auth == auth
      ensures formData == Form("", "", "", "") && !isSubmitting
    {
      this.auth := auth;
      formData := Form("", "", "", "");
      isSubmitting := false;
    }

    /** `handleInputChange`: only the named field changes. */
    method InputChange(field: FormField, value: string)
      modifies this
      ensures formData == WithField(old(formData), field, value)
      ensures isSubmitting == old(isSubmitting)
    {
      formData := WithField(formData, field, value);
    }

    /**
     * `handleSubmit`: a form that fails a check reports it and calls nothing;
     * one that passes registers its name, email and password. The form is not
     * submitting afterwards, whatever the outcome.
     */
    method Submit(nowMillis: int) returns (r: Outcome<FormError>)
      modifies this, auth, auth.storage
      ensures r == Validate(old(formData))
      ensures formData == old(formData)
      ensures r.Fail? ==> isSubmitting == old(isSubmitting) && unchanged(auth, auth.storage)
      ensures r == Pass ==>
                && !isSubmitting && !auth.isLoading
                && auth.user == Some(NewUser(nowMillis, formData.name, formData.email))
                && auth.storage.user == Some(Storage.UserJson(auth.user.value))
                && auth.storage.token == Some(MockToken)
                && auth.storage.bookings == old(auth.storage.bookings)
                && auth.storage.services == old(auth.storage.services)
                && auth.storage.users == old(auth.storage.users)
    {
      r := Validate(formData);
      if r.Fail? {
        return;
      }
      isSubmitting := true;
      var registered := auth.Register(formData.name, formData.email, formData.password, nowMillis);
      isSubmitting := false;
    }
  }
}
