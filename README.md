# Employee Management System: form validation and employee CRUD

This project models the two pieces of logic in the Employee Management System, and proves properties about them.

- **The employee form** (`Employee.jsx`). It is a Create/Edit form over three text fields: first name, last name and email.
  - The route parameter `id` selects the mode.
  - In Edit mode, mounting the form fetches the record and pre-fills the fields.
  - `validationForm` checks that each field is non-blank after `trim`, writes one message per field into `errors`, and returns a validity flag.
  - `saveOrUpdateEmployee` sends the values only when they are valid: as an update of `id` in Edit mode, as a create otherwise.
  - The page shows a field's feedback paragraph only while the field is non-blank, and marks the input `is-invalid` when its error is non-empty. This display condition is modelled as written. As a result (lemma `FeedbackAfterValidation`), a required-field message is never shown right after a validation pass: the paragraph is either not rendered or rendered empty. The inversion has a second half (lemma `StaleFeedbackAfterTyping`): the setters leave `errors` alone, so once text is typed into a field that failed validation, its paragraph appears with the stale "… is Required" message and the input stays `is-invalid`.
- **The back-end service** (`EmployeeServiceImpl.java`). It provides create, get-by-id, list, update and delete over an id-keyed repository.
  - A missing id raises `ResourceNotFoundException`, whose message ends in the id.
  - The model returns that exception as a `Failure` result, and proves that the failure leaves the store unchanged.

## Layout

- `wrappers.dfy`: `Option` and `Result`.
- `js_string.dfy` (module `JsString`): JavaScript's `String.prototype.trim` and string truthiness.
  - White space is the WhiteSpace and LineTerminator code points of ECMA-262 (sections 12.2 and 12.3).
  - Trimming follows section 22.1.3.32 of the 2024 edition.
- `employee_form.dfy` (module `EmployeeForm`): the form as class `Employee`.
  - The React state hooks become fields, and the `onChange` handlers become setters.
  - The requests the form sends to the front-end employee service (`getEmployee`, `createEmployee`, `updateEmployee`) are returned as `ServiceCall` values.
  - The answer to the asynchronous `getEmployee` is passed in as a parameter.
- `java_long.dfy` (module `JavaLong`): Java's decimal rendering of a `Long`, used in the exception message, and its inverse.
- `employee_entities.dfy` (module `EmployeeEntities`): the `Employee` entity, the `EmployeeDto`, and the mapper.
- `repository.dfy` (module `Repository`): class `EmployeeRepository`, the repository the service uses.
- `employee_service.dfy` (module `EmployeeService`): class `EmployeeServiceImpl`.

## Modelling assumptions

The repository, the entity, the DTO and the mapper lie outside the two modelled files (`Employee.jsx` and `EmployeeServiceImpl.java`), so the back-end model rests on these stated assumptions:

- `save` of an entity with no id stores it under a fresh key the repository chooses. Callers see only that the key was not in use. Inside the model, an increasing counter picks it.
- `save` of an entity that has an id stores it under that id.
- `findById` is a map lookup.
- `deleteById` removes that one key.
- `findAll` lists the stored entities in the order the currently stored keys were inserted; a key saved again after a delete goes to the end.
- The entity and the DTO hold a nullable `Long` id plus first name, last name and email, and the mapper copies all four.

The updated entity is modelled as a value. The setters on the fetched entity become a record update, followed by `save`.

## Model

| member | source | states |
|---|---|---|
| JsString.TrimStart | ems-frontend/src/components/Employee.jsx:65 | trimming the start leaves a suffix that does not begin with white space, and everything removed is white space |
| JsString.TrimEnd | ems-frontend/src/components/Employee.jsx:65 | trimming the end leaves a prefix that does not end with white space, and everything removed is white space |
| JsString.Trim | ems-frontend/src/components/Employee.jsx:65 | `trim()` never grows a string, and its result neither starts nor ends with white space |
| JsString.TrimIsSlice | ems-frontend/src/components/Employee.jsx:71 | `trim()` keeps the contiguous slice of the input that starts where the leading white space ends |
| JsString.TrimCutsWhiteSpace | ems-frontend/src/components/Employee.jsx:77 | everything `trim()` cuts off after the kept slice is white space |
| JsString.BlankIffAllWhiteSpace | ems-frontend/src/components/Employee.jsx:65-77 | a field is blank (`x.trim()` is falsy) exactly when every character is white space, so `""` and whitespace-only values are blank |
| JsString.NonWhiteSpaceMakesNonBlank | ems-frontend/src/components/Employee.jsx:65-77 | a value with any character that is not white space is non-blank |
| EmployeeForm.ValidIffNoWhiteSpaceOnlyField | ems-frontend/src/components/Employee.jsx:60-85 | validation succeeds exactly when each of first name, last name and email holds a character that is not ECMAScript white space; together with `Employee.ValidationForm`'s `valid == IsValid(Data())` this characterises the flag `validationForm` returns |
| EmployeeForm.ValidIffNoErrors | ems-frontend/src/components/Employee.jsx:60-85 | the returned flag is true exactly when the `errors` record written in the same pass holds no message |
| EmployeeForm.ErrorDependsOnlyOnOwnField | ems-frontend/src/components/Employee.jsx:65-82 | each error entry depends only on its own field: `""` when the field is non-blank, otherwise that field's fixed message |
| EmployeeForm.WhiteSpaceOnlyFieldFails | ems-frontend/src/components/Employee.jsx:65-82 | a whitespace-only (or empty) field makes validation fail and records that field's "... is Required" message |
| EmployeeForm.FeedbackAfterValidation | ems-frontend/src/components/Employee.jsx:102-144 | right after validation, each field's feedback paragraph is either not rendered (blank field) or rendered with `""` (non-blank field), so no message is ever shown |
| EmployeeForm.InvalidClassAfterValidation | ems-frontend/src/components/Employee.jsx:102-138 | right after validation, an input's class is `form-control is-invalid` exactly when that field is blank |
| EmployeeForm.StaleFeedbackAfterTyping | ems-frontend/src/components/Employee.jsx:102-144 | when a field that failed validation later holds a non-blank value while `errors` is unchanged, its feedback paragraph shows that field's required message and its input keeps `is-invalid` |
| EmployeeForm.DisplayAfterSubmit | ems-frontend/src/components/Employee.jsx:102-144 | the same two display facts, for the rendered state of a form object whose `errors` come from a validation pass |
| EmployeeForm.Employee.constructor | ems-frontend/src/components/Employee.jsx:10-19 | a new form holds the route's `id`, three empty fields and an all-empty `errors` record |
| EmployeeForm.Employee.SetFirstName | ems-frontend/src/components/Employee.jsx:105 | the first-name input replaces the first name and nothing else |
| EmployeeForm.Employee.SetLastName | ems-frontend/src/components/Employee.jsx:123 | the last-name input replaces the last name and nothing else |
| EmployeeForm.Employee.SetEmail | ems-frontend/src/components/Employee.jsx:139 | the email input replaces the email and nothing else |
| EmployeeForm.Employee.Mount | ems-frontend/src/components/Employee.jsx:23-33 | in Edit mode, mounting requests the record with the route's id and, when it arrives, sets the three fields to its values. In Create mode it requests nothing, and the fields are left unchanged when the request fails |
| EmployeeForm.Employee.ValidationForm | ems-frontend/src/components/Employee.jsx:60-85 | replaces `errors` with the per-field result of validation and returns the validity flag; the field values are untouched |
| EmployeeForm.Employee.SaveOrUpdateEmployee | ems-frontend/src/components/Employee.jsx:35-58 | a submission that fails validation sends nothing. A valid one sends exactly one request: in Edit mode an update of the route's id with `{firstName, lastName, email}`, otherwise a create of those values and never an update |
| JavaLong.NatToDecimal | ems-backend/src/main/java/com/pinakapani/ems/service/impl/EmployeeServiceImpl.java:31 | the decimal rendering of a number is a non-empty string of digits with no leading zero |
| JavaLong.DecimalRoundTrip | ems-backend/src/main/java/com/pinakapani/ems/service/impl/EmployeeServiceImpl.java:31 | reading the decimal digits back gives the number that was rendered |
| JavaLong.LongRoundTrip | ems-backend/src/main/java/com/pinakapani/ems/service/impl/EmployeeServiceImpl.java:31 | parsing `Long.toString(n)` gives back `n`, negative numbers included |
| JavaLong.LongToStringInjective | ems-backend/src/main/java/com/pinakapani/ems/service/impl/EmployeeServiceImpl.java:31 | different ids never render to the same text |
| EmployeeEntities.MapperRoundTrip | ems-backend/src/main/java/com/pinakapani/ems/service/impl/EmployeeServiceImpl.java:22-24 | under the copy-all-four-fields assumption, mapping an entity to a DTO and back (or a DTO to an entity and back) loses nothing |
| Repository.Remove | ems-backend/src/main/java/com/pinakapani/ems/service/impl/EmployeeServiceImpl.java:60 | deleting a key from the listing order keeps exactly the other keys, keeps them distinct, and never lengthens the listing |
| Repository.EmployeeRepository.constructor | ems-backend/src/main/java/com/pinakapani/ems/service/impl/EmployeeServiceImpl.java:18 | a new repository is empty and consistent |
| Repository.EmployeeRepository.FindAllCoversTable | ems-backend/src/main/java/com/pinakapani/ems/service/impl/EmployeeServiceImpl.java:37 | `findAll` lists exactly as many entities as are stored |
| Repository.EmployeeRepository.Save | ems-backend/src/main/java/com/pinakapani/ems/service/impl/EmployeeServiceImpl.java:23 | `save` stores the entity under its own id, or under a fresh key when it has none, changes no other row, and returns the entity as stored |
| Repository.EmployeeRepository.DeleteById | ems-backend/src/main/java/com/pinakapani/ems/service/impl/EmployeeServiceImpl.java:60 | `deleteById` removes exactly that key from the table and from the listing order |
| EmployeeService.NotFoundMessageNamesId | ems-backend/src/main/java/com/pinakapani/ems/service/impl/EmployeeServiceImpl.java:29-31 | the not-found message is the fixed text followed by the id, and the id can be read back from it |
| EmployeeService.MapToEmployeeDtos | ems-backend/src/main/java/com/pinakapani/ems/service/impl/EmployeeServiceImpl.java:38 | the stream map yields one DTO per entity, position by position |
| EmployeeService.EmployeeServiceImpl.CreateEmployee | ems-backend/src/main/java/com/pinakapani/ems/service/impl/EmployeeServiceImpl.java:21-25 | creating stores the mapped DTO and returns it with its stored id. Given no id, it is stored under a fresh key and appended to the listing, and no existing record changes |
| EmployeeService.EmployeeServiceImpl.GetEmployeeById | ems-backend/src/main/java/com/pinakapani/ems/service/impl/EmployeeServiceImpl.java:28-33 | fails with `ResourceNotFoundException` and the id's message exactly when the id is absent. Otherwise it returns that record's id, first name, last name and email |
| EmployeeService.EmployeeServiceImpl.GetAllEmployees | ems-backend/src/main/java/com/pinakapani/ems/service/impl/EmployeeServiceImpl.java:36-39 | one DTO per stored record, in store order, as many as there are records, with every stored record among them. The store is not modified |
| EmployeeService.EmployeeServiceImpl.UpdateEmployee | ems-backend/src/main/java/com/pinakapani/ems/service/impl/EmployeeServiceImpl.java:42-53 | an absent id fails with `ResourceNotFoundException` and leaves the store unchanged. A present id gets exactly its first name, last name and email overwritten from the DTO, keeps its id, and leaves every other record alone. The result is the record as stored |
| EmployeeService.EmployeeServiceImpl.DeleteEmployee | ems-backend/src/main/java/com/pinakapani/ems/service/impl/EmployeeServiceImpl.java:56-61 | an absent id fails with `ResourceNotFoundException` and leaves the store unchanged. A present id is removed, and every other record remains |

## Left out

- React rendering and hook scheduling are not modelled, because they are framework behaviour: JSX markup, `useState`/`useEffect` timing, re-renders, and the `UPDATE`/`ADD` heading. State is plain fields. The mount effect is one method, which runs once because `id` is fixed for the component's life.
- Promises, `console.log`/`console.error`, `e.preventDefault()` and `navigate("/employees")` after a successful request are effects rather than logic. A request appears as the `ServiceCall` it sends. A rejected fetch is a `None` response.
- EmployeeForm.Employee.Mount: the fetched record is reduced to the three fields the component reads. The response's id is not modelled.
- EmployeeForm.Employee.Mount: fetched and stored names are assumed non-null, since a Dafny `string` cannot be null. In the source the controller does not validate its request bodies (`EmployeeController.java:21` and `:39` have no `@Valid`), so a record can be stored with a missing field; fetching it makes `setFirstName(response.data.firstName)` (`Employee.jsx:27`) store `null`, and the next `firstName.trim()` (`Employee.jsx:65` on submit, `Employee.jsx:108` on render) throws a `TypeError`. The model does not capture that crash.
- `ListEmployee.jsx`, `App.jsx`, `Header.jsx` and the footer are not part of this model, because they hold no logic beyond fetching, rendering and routing. The only thing taken from `App.jsx` is that `/edit-employee/:id` supplies `id`, and that is the form's `id` parameter.
- `EmployeeController.java` is not part of this model. It only maps HTTP requests to the service and sets status codes.
- The repository, entity, DTO, mapper, JPA id generation and Spring/Lombok wiring lie outside the two modelled files. They are replaced by the assumptions listed above.
- EmployeeService.EmployeeServiceImpl.CreateEmployee: for a DTO that carries an id, the model stores the record under that id (the `save` assumption). JPA's actual merge behaviour for such an entity is not modelled.
- The model does not capture that the fetched entity is a managed JPA object whose setters write through before `save`. Only the state after `save` is modelled.
- Ids are unbounded integers. 64-bit `Long` overflow of the key generator is not modelled.
- Java strings are UTF-16 and JavaScript strings are sequences of UTF-16 code units. The model uses Unicode scalar values, which give the same result for every white-space code point involved, all of which lie in the Basic Multilingual Plane.
