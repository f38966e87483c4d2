/** The registration page: the form's fields, its per-field updates, and the
    submit handler that validates the form before calling `register` of the
    authentication provider. */
module RegisterPage {
  import opened Wrappers
  import opened Types
  import Auth

  /** The form. An unset choice (the empty string in the page) is `None`. */
  datatype RegisterForm = RegisterForm(
    email: string,
    password: string,
    name: string,
    role: Option<Role>,
    department: Option<Department>,
    gender: Option<Gender>,
    birthDate: string)

  /** The seven fields of the form. */
  datatype Field = EmailField | PasswordField | NameField | RoleField | DepartmentField | GenderField | BirthDateField

  /** One edit: a text input changed (`handleChange`) or a choice picked
      (`handleSelectChange`). */
  datatype Edit =
    | SetEmail(email: string)
    | SetPassword(password: string)
    | SetName(name: string)
    | SetBirthDate(birthDate: string)
    | SetRole(role: Role)
    | SetDepartment(department: Department)
    | SetGender(gender: Gender)

  /** What a submission ends in: a validation toast, a failed `register`
      toast, or a successful registration that navigates to `to`. */
  datatype SubmitOutcome =
    | Invalid(message: string)
    | RegisterFailed(message: string)
    | Navigated(to: string)

  /** The provider state after a submission, and how it ended. */
  datatype SubmitStep = SubmitStep(auth: Auth.AuthState, outcome: SubmitOutcome)

  /** What a `catch` clause receives: an `Error` with a message, or any other thrown value. */
  datatype Caught = ErrorInstance(message: string) | OtherValue

  const RequiredFieldsMessage := "Пожалуйста, заполните все обязательные поля"
  const DepartmentRequiredMessage := "Пользователи должны указать отдел"
  const GenericRegisterMessage := "Ошибка при регистрации"

  /** The form as first shown: every field empty. */
  const InitialForm := RegisterForm("", "", "", None, None, None, "")

  /** The field an edit writes to. */
  function FieldOf(e: Edit): Field
  {
    match e
    case SetEmail(_) => EmailField
    case SetPassword(_) => PasswordField
    case SetName(_) => NameField
    case SetBirthDate(_) => BirthDateField
    case SetRole(_) => RoleField
    case SetDepartment(_) => DepartmentField
    case SetGender(_) => GenderField
  }

  /** The two forms agree on every field except possibly `f`. */
  predicate AgreeExcept(a: RegisterForm, b: RegisterForm, f: Field)
  {
    && (f == EmailField || a.email == b.email)
    && (f == PasswordField || a.password == b.password)
    && (f == NameField || a.name == b.name)
    && (f == RoleField || a.role == b.role)
    && (f == DepartmentField || a.department == b.department)
    && (f == GenderField || a.gender == b.gender)
    && (f == BirthDateField || a.birthDate == b.birthDate)
  }

  /** The form holds the value an edit writes, in the field it writes to. */
  predicate Holds(form: RegisterForm, e: Edit)
  {
    match e
    case SetEmail(v) => form.email == v
    case SetPassword(v) => form.password == v
    case SetName(v) => form.name == v
    case SetBirthDate(v) => form.birthDate == v
    case SetRole(v) => form.role == Some(v)
    case SetDepartment(v) => form.department == Some(v)
    case SetGender(v) => form.gender == Some(v)
  }

  /** `setFormData({ ...formData, [field]: value })`. */
  function ApplyEdit(form: RegisterForm, e: Edit): (r: RegisterForm)
    ensures Holds(r, e)
    ensures AgreeExcept(form, r, FieldOf(e))
  {
    match e
    case SetEmail(v) => form.(email := v)
    case SetPassword(v) => form.(password := v)
    case SetName(v) => form.(name := v)
    case SetBirthDate(v) => form.(birthDate := v)
    case SetRole(v) => form.(role := Some(v))
    case SetDepartment(v) => form.(department := Some(v))
    case SetGender(v) => form.(gender := Some(v))
  }

  /** Applying an edit twice is the same as applying it once, and an edit
      that writes the value a field already holds changes nothing. */
  lemma ApplyEditIdempotent(form: RegisterForm, e: Edit)
    ensures ApplyEdit(ApplyEdit(form, e), e) == ApplyEdit(form, e)
    ensures Holds(form, e) ==> ApplyEdit(form, e) == form
  {
  }

  /** Every field the first check demands is non-empty. */
  predicate RequiredFilled(form: RegisterForm)
  {
    form.email != "" && form.password != "" && form.name != ""
    && form.role.Some? && form.gender.Some? && form.birthDate != ""
  }

  /** The two client-side checks, in order: the validation message, or `None`
      when the form may be submitted. */
  function Validate(form: RegisterForm): (r: Option<string>)
    ensures r.None? <==> RequiredFilled(form) && (form.role == Some(Role.User) ==> form.department.Some?)
    ensures !RequiredFilled(form) ==> r == Some(RequiredFieldsMessage)
    ensures RequiredFilled(form) && form.role == Some(Role.User) && form.department.None? ==>
              r == Some(DepartmentRequiredMessage)
  {
    if !RequiredFilled(form) then Some(RequiredFieldsMessage)
    else if form.role == Some(Role.User) && form.department.None? then Some(DepartmentRequiredMessage)
    else None
  }

  /** The form handed to `register` as it stands. */
  function ToRegistration(form: RegisterForm): (data: Auth.Registration)
    requires form.role.Some? && form.gender.Some?
    ensures data.email == form.email && data.password == form.password && data.name == form.name
    ensures Some(data.role) == form.role && data.department == form.department
    ensures Some(data.gender) == form.gender && data.birthDate == form.birthDate
  {
    Auth.Registration(form.email, form.password, form.name, form.role.value,
                      form.department, form.gender.value, form.birthDate)
  }

  /** The message the failure toast shows for a caught value: an `Error`'s
      own message, else the generic registration failure text. */
  function DisplayedMessage(c: Caught): (m: string)
    ensures c.ErrorInstance? ==> m == c.message
    ensures c.OtherValue? ==> m == GenericRegisterMessage
  {
    match c
    case ErrorInstance(m) => m
    case OtherValue => GenericRegisterMessage
  }

  /** `handleSubmit`: validate; if the form passes, call `register` with it
      (drawing `id` for the new account) and navigate home only when that
      succeeds. */
  function Submit(form: RegisterForm, auth: Auth.AuthState, id: string): (r: SubmitStep)
    ensures Validate(form).Some? ==> r == SubmitStep(auth, Invalid(Validate(form).value))
    ensures Validate(form).None? ==>
              r.auth == Auth.Register(auth, ToRegistration(form), id).state
    ensures Validate(form).None? ==>
              (r.outcome == Navigated("/") <==> Auth.Register(auth, ToRegistration(form), id).thrown.None?)
    ensures Validate(form).None? && !r.outcome.Navigated? ==>
              r.auth == auth && r.outcome == RegisterFailed(Auth.UserAlreadyExists.message)
  {
    match Validate(form)
    case Some(message) => SubmitStep(auth, Invalid(message))
    case None =>
      var step := Auth.Register(auth, ToRegistration(form), id);
      match step.thrown
      case None => SubmitStep(step.state, Navigated("/"))
      case Some(err) => SubmitStep(step.state, RegisterFailed(DisplayedMessage(ErrorInstance(err.message))))
  }

  /** Submitting the untouched form reports the missing fields and registers nobody. */
  lemma InitialFormRejected(auth: Auth.AuthState, id: string)
    ensures Submit(InitialForm, auth, id) == SubmitStep(auth, Invalid(RequiredFieldsMessage))
  {
  }

  /** A plain user without a department is never registered, whatever else is filled in. */
  lemma UserRoleNeedsDepartment(form: RegisterForm, auth: Auth.AuthState, id: string)
    requires form.role == Some(Role.User) && form.department.None?
    ensures Submit(form, auth, id).auth == auth
    ensures Submit(form, auth, id).outcome.Invalid?
  {
  }

  /** An administrator or manager with every required field filled passes
      validation without a department, and is registered if the email is new. */
  lemma PrivilegedNeedNoDepartment(form: RegisterForm, auth: Auth.AuthState, id: string)
    requires RequiredFilled(form) && form.role != Some(Role.User)
    requires !Auth.Registered(auth.users, form.email)
    ensures Submit(form, auth, id).outcome == Navigated("/")
    ensures Submit(form, auth, id).auth.user.Some?
    ensures Submit(form, auth, id).auth.user.value.department == form.department
  {
  }

  /** A submission keeps the provider's invariant. */
  lemma SubmitPreservesValid(form: RegisterForm, auth: Auth.AuthState, id: string)
    requires Auth.Valid(auth)
    ensures Auth.Valid(Submit(form, auth, id).auth)
  {
    if Validate(form).None? {
      Auth.RegisterPreservesValid(auth, ToRegistration(form), id);
    }
  }
}
