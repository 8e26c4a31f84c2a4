/** The dual-mode Create/Edit employee form of the front end: its state, the
    presence validation of its three text fields, the submit dispatch to the
    employee service, the edit-mode prefill and the per-field error display.

    React's state hooks become the fields of class `Employee`; a request to
    the back end is returned as a `ServiceCall` value, and the answer to an
    asynchronous request is passed in as a parameter. */
module EmployeeForm {
  import opened Wrappers
  import opened JsString

  /** The three values the form edits, and the body it sends to the service
      (`{ firstName, lastName, email }`). */
  datatype EmployeeData = EmployeeData(firstName: string, lastName: string, email: string)

  /** The `errors` record: one message per field, `""` meaning no error. */
  datatype Errors = Errors(firstName: string, lastName: string, email: string)

  const NoErrors := Errors("", "", "")

  const FirstNameRequired := "First Name is Required"
  const LastNameRequired := "Last Name is Required"
  const EmailRequired := "Email Id is Required"

  datatype Field = FirstName | LastName | Email

  /** The form's two modes, chosen by the route parameter `id` of
      `/edit-employee/:id`; `/add-employee` has none. */
  datatype Mode = Create | Edit(id: string)

  /** A request the form makes of the employee service. */
  datatype ServiceCall =
    | GetEmployee(id: string)
    | CreateEmployee(data: EmployeeData)
    | UpdateEmployee(id: string, data: EmployeeData)

  /** `if (id)`: an absent or empty route parameter selects Create mode. */
  function ModeOf(id: Option<string>): Mode {
    if id.Some? && Truthy(id.value) then Edit(id.value) else Create
  }

  function Value(data: EmployeeData, f: Field): string {
    match f
    case FirstName => data.firstName
    case LastName => data.lastName
    case Email => data.email
  }

  function ErrorOf(errors: Errors, f: Field): string {
    match f
    case FirstName => errors.firstName
    case LastName => errors.lastName
    case Email => errors.email
  }

  function RequiredMessage(f: Field): string {
    match f
    case FirstName => FirstNameRequired
    case LastName => LastNameRequired
    case Email => EmailRequired
  }

  /** The error a validation pass records for one field. */
  function FieldError(value: string, f: Field): string {
    if NonBlank(value) then "" else RequiredMessage(f)
  }

  /** The `errors` record a validation pass leaves behind. */
  function ValidatedErrors(data: EmployeeData): Errors {
    Errors(
      FieldError(data.firstName, FirstName),
      FieldError(data.lastName, LastName),
      FieldError(data.email, Email))
  }

  /** The flag `validationForm` returns. */
  predicate IsValid(data: EmployeeData) {
    NonBlank(data.firstName) && NonBlank(data.lastName) && NonBlank(data.email)
  }

  /** The `invalid-feedback` paragraph under a field: rendered (with the
      field's error as its text) only while the field's own value is
      non-blank. `None` means the paragraph is not rendered. */
  function Feedback(value: string, error: string): Option<string> {
    if NonBlank(value) then Some(error) else None
  }

  /** The input's `className`: `is-invalid` is added when the field's error
      is truthy. */
  function InputClassName(error: string): string {
    if Truthy(error) then InvalidClassName else ValidClassName
  }

  const ValidClassName := "form-control "
  const InvalidClassName := "form-control is-invalid"

  /** Validation succeeds exactly when each of the three fields holds at
      least one character that is not white space. */
  lemma ValidIffNoWhiteSpaceOnlyField(data: EmployeeData)
    ensures IsValid(data) <==> forall f: Field :: !AllWhiteSpace(Value(data, f))
  {
    forall f: Field
      ensures NonBlank(Value(data, f)) <==> !AllWhiteSpace(Value(data, f))
    {
      BlankIffAllWhiteSpace(Value(data, f));
    }
    assert IsValid(data) <==> forall f: Field :: NonBlank(Value(data, f)) by {
      assert Value(data, FirstName) == data.firstName;
      assert Value(data, LastName) == data.lastName;
      assert Value(data, Email) == data.email;
    }
  }

  /** The flag and the error record agree: validation succeeds exactly when
      it records no error at all. */
  lemma ValidIffNoErrors(data: EmployeeData)
    ensures IsValid(data) <==> ValidatedErrors(data) == NoErrors
  {
  }

  /** Each recorded error depends only on its own field: `""` when the field
      is non-blank, the field's fixed message otherwise. */
  lemma ErrorDependsOnlyOnOwnField(data: EmployeeData, f: Field)
    ensures NonBlank(Value(data, f)) ==> ErrorOf(ValidatedErrors(data), f) == ""
    ensures !NonBlank(Value(data, f)) ==> ErrorOf(ValidatedErrors(data), f) == RequiredMessage(f)
    ensures forall other: EmployeeData :: Value(other, f) == Value(data, f) ==>
              ErrorOf(ValidatedErrors(other), f) == ErrorOf(ValidatedErrors(data), f)
  {
  }

  /** A field holding only white space (the empty string included) is blank:
      validation fails and records that field's message. */
  lemma WhiteSpaceOnlyFieldFails(data: EmployeeData, f: Field)
    requires AllWhiteSpace(Value(data, f))
    ensures !IsValid(data)
    ensures ErrorOf(ValidatedErrors(data), f) == RequiredMessage(f)
  {
    BlankIffAllWhiteSpace(Value(data, f));
  }

  /** Right after a validation pass, the feedback paragraph of every field
      is either not rendered or rendered empty: a required-field message
      never reaches the page. */
  lemma FeedbackAfterValidation(data: EmployeeData, f: Field)
    ensures Feedback(Value(data, f), ErrorOf(ValidatedErrors(data), f)) in {None, Some("")}
  {
    ErrorDependsOnlyOnOwnField(data, f);
  }

  /** Right after a validation pass, `is-invalid` is set exactly on the
      blank fields. */
  lemma InvalidClassAfterValidation(data: EmployeeData, f: Field)
    ensures (InputClassName(ErrorOf(ValidatedErrors(data), f)) == InvalidClassName) <==> !NonBlank(Value(data, f))
  {
    ErrorDependsOnlyOnOwnField(data, f);
  }

  /** The other half of the inverted display condition: once a field that
      failed validation is typed into, its feedback paragraph appears and
      shows the message recorded while it was blank, because typing does not
      touch `errors`. */
  lemma StaleFeedbackAfterTyping(data: EmployeeData, f: Field, typed: string)
    requires !NonBlank(Value(data, f)) && NonBlank(typed)
    ensures Feedback(typed, ErrorOf(ValidatedErrors(data), f)) == Some(RequiredMessage(f))
    ensures InputClassName(ErrorOf(ValidatedErrors(data), f)) == InvalidClassName
  {
    ErrorDependsOnlyOnOwnField(data, f);
  }

  /** The `Employee` form component. */
  class Employee {
    /** The route parameter `id`, fixed for the life of the component. */
    const id: Option<string>
    var firstName: string
    var lastName: string
    var email: string
    var errors: Errors

    /** The initial state: three empty fields and no errors. */
    constructor (id: Option<string>)
      ensures this.id == id
      ensures firstName == "" && lastName == "" && email == ""
      ensures errors == NoErrors
    {
      this.id := id;
      firstName, lastName, email := "", "", "";
      errors := NoErrors;
    }

    function Data(): EmployeeData
      reads this
    {
      EmployeeData(firstName, lastName, email)
    }

    /** The `onChange` handler of the first-name input. */
    method SetFirstName(value: string)
      modifies this`firstName
      ensures Data() == old(Data()).(firstName := value)
    {
      firstName := value;
    }

    /** The `onChange` handler of the last-name input. */
    method SetLastName(value: string)
      modifies this`lastName
      ensures Data() == old(Data()).(lastName := value)
    {
      lastName := value;
    }

    /** The `onChange` handler of the email input. */
    method SetEmail(value: string)
      modifies this`email
      ensures Data() == old(Data()).(email := value)
    {
      email := value;
    }

    /** The mount effect. In Edit mode it asks the service for the record
        with the route's id; `response` is the record the service answers
        with, or `None` when the request fails. A fetched record's three
        values replace the fields; otherwise nothing changes. */
    method Mount(response: Option<EmployeeData>) returns (call: Option<ServiceCall>)
      modifies this`firstName, this`lastName, this`email
      ensures ModeOf(id).Create? ==> call == None
      ensures ModeOf(id).Edit? ==> call == Some(GetEmployee(ModeOf(id).id))
      ensures Data() == if call.Some? && response.Some? then response.value else old(Data())
    {
      call := None;
      if id.Some? && Truthy(id.value) {
        call := Some(GetEmployee(id.value));
        if response.Some? {
          firstName := response.value.firstName;
          lastName := response.value.lastName;
          email := response.value.email;
        }
      }
    }

    /** `validationForm`: records one error per field in `errors` and
        returns whether all three fields are non-blank. The field values are
        left as they are. */
    method ValidationForm() returns (valid: bool)
      modifies this`errors
      ensures errors == ValidatedErrors(Data())
      ensures valid == IsValid(Data())
    {
      valid := true;
      var errorsCopy := errors;
      if Truthy(Trim(firstName)) {
        errorsCopy := errorsCopy.(firstName := "");
      } else {
        errorsCopy := errorsCopy.(firstName := FirstNameRequired);
        valid := false;
      }
      if Truthy(Trim(lastName)) {
        errorsCopy := errorsCopy.(lastName := "");
      } else {
        errorsCopy := errorsCopy.(lastName := LastNameRequired);
        valid := false;
      }
      if Truthy(Trim(email)) {
        errorsCopy := errorsCopy.(email := "");
      } else {
        errorsCopy := errorsCopy.(email := EmailRequired);
        valid := false;
      }
      errors := errorsCopy;
    }

    /** `saveOrUpdateEmployee`: validates, and only when validation passes
        sends the form's values once, as an update of the route's id in Edit
        mode and as a create in Create mode. */
    method SaveOrUpdateEmployee() returns (call: Option<ServiceCall>)
      modifies this`errors
      ensures errors == ValidatedErrors(Data())
      ensures call.Some? <==> IsValid(Data())
      ensures call.Some? && ModeOf(id).Edit? ==> call == Some(UpdateEmployee(ModeOf(id).id, Data()))
      ensures call.Some? && ModeOf(id).Create? ==> call == Some(CreateEmployee(Data()))
    {
      call := None;
      var valid := ValidationForm();
      if valid {
        var employeeData := EmployeeData(firstName, lastName, email);
        if id.Some? && Truthy(id.value) {
          call := Some(UpdateEmployee(id.value, employeeData));
        } else {
          call := Some(CreateEmployee(employeeData));
        }
      }
    }

    /** The rendered feedback paragraph of a field. */
    function FeedbackOf(f: Field): Option<string>
      reads this
    {
      Feedback(Value(Data(), f), ErrorOf(errors, f))
    }

    /** The rendered `className` of a field's input. */
    function ClassNameOf(f: Field): string
      reads this
    {
      InputClassName(ErrorOf(errors, f))
    }
  }

  /** What the page shows right after a submit: no field displays a
      required-field message, and exactly the blank fields are marked
      `is-invalid`. */
  lemma DisplayAfterSubmit(form: Employee, f: Field)
    requires form.errors == ValidatedErrors(form.Data())
    ensures form.FeedbackOf(f) in {None, Some("")}
    ensures form.ClassNameOf(f) == InvalidClassName <==> !NonBlank(Value(form.Data(), f))
  {
    FeedbackAfterValidation(form.Data(), f);
    InvalidClassAfterValidation(form.Data(), f);
  }

  /** A client of the form, using nothing but the contracts above: mounting
      `/edit-employee/42` fetches record 42 and fills the fields with it. */
  method EditMountScenario()
  {
    var form := new Employee(Some("42"));
    var fetch := form.Mount(Some(EmployeeData("Ada", "Lovelace", "ada@example.com")));
    assert fetch == Some(GetEmployee("42"));
    assert form.Data() == EmployeeData("Ada", "Lovelace", "ada@example.com");
  }

  /** A submit with a whitespace-only last name sends nothing and marks
      that field as required. */
  method BlankSubmitScenario(form: Employee)
    requires AllWhiteSpace(form.lastName)
    modifies form
  {
    WhiteSpaceOnlyFieldFails(form.Data(), LastName);
    var call := form.SaveOrUpdateEmployee();
    assert call == None;
    assert form.errors.lastName == LastNameRequired;
  }

  /** In Edit mode, a submit of three filled-in fields sends one update of
      the route's record with the form's values and clears every error. */
  method EditSubmitScenario(form: Employee)
    requires form.id == Some("42")
    requires NonBlank(form.firstName) && NonBlank(form.lastName) && NonBlank(form.email)
    modifies form
  {
    assert ModeOf(form.id) == Edit("42");
    var call := form.SaveOrUpdateEmployee();
    assert call == Some(UpdateEmployee("42", form.Data()));
    assert form.errors == NoErrors;
  }

  /** After a submit with an empty first name, typing "J" into that field
      shows the stale "First Name is Required" message under it. */
  method StaleFeedbackScenario(form: Employee)
    requires form.firstName == ""
    modifies form
  {
    var call := form.SaveOrUpdateEmployee();
    assert call == None;
    form.SetFirstName("J");
    NonWhiteSpaceMakesNonBlank("J", 0);
    assert form.FeedbackOf(FirstName) == Some(FirstNameRequired);
  }
}
