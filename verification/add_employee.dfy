/** The "Add New Employee" dialog as a pure state transition: field edits, the
    required-field gate, construction of the new record with its defaults, and the
    reset that follows a successful submission. */
module AddEmployee {
  import opened Values
  import opened Forms
  import opened Text
  import EmployeeList

  datatype AddForm = AddForm(
    firstName: string,
    lastName: string,
    email: string,
    phone: string,
    department: string,
    position: string,
    location: string,
    salary: string,
    employeeNumber: string,
    homeAddress: string,
    hireDate: string,
    emergencyContactName: string,
    emergencyContactRelation: string,
    emergencyContactPhone: string)

  datatype AddField =
    | FirstName | LastName | Email | Phone | Department | Position | Location | Salary
    | EmployeeNumber | HomeAddress | HireDate
    | EmergencyContactName | EmergencyContactRelation | EmergencyContactPhone

  function Get(form: AddForm, field: AddField): string {
    match field
    case FirstName => form.firstName
    case LastName => form.lastName
    case Email => form.email
    case Phone => form.phone
    case Department => form.department
    case Position => form.position
    case Location => form.location
    case Salary => form.salary
    case EmployeeNumber => form.employeeNumber
    case HomeAddress => form.homeAddress
    case HireDate => form.hireDate
    case EmergencyContactName => form.emergencyContactName
    case EmergencyContactRelation => form.emergencyContactRelation
    case EmergencyContactPhone => form.emergencyContactPhone
  }

  /** `handleInputChange`: sets exactly the named field. */
  function SetField(form: AddForm, field: AddField, value: string): (r: AddForm)
    ensures Get(r, field) == value
    ensures forall g :: g != field ==> Get(r, g) == Get(form, g)
  {
    match field
    case FirstName => form.(firstName := value)
    case LastName => form.(lastName := value)
    case Email => form.(email := value)
    case Phone => form.(phone := value)
    case Department => form.(department := value)
    case Position => form.(position := value)
    case Location => form.(location := value)
    case Salary => form.(salary := value)
    case EmployeeNumber => form.(employeeNumber := value)
    case HomeAddress => form.(homeAddress := value)
    case HireDate => form.(hireDate := value)
    case EmergencyContactName => form.(emergencyContactName := value)
    case EmergencyContactRelation => form.(emergencyContactRelation := value)
    case EmergencyContactPhone => form.(emergencyContactPhone := value)
  }

  /** The form as first rendered and after every successful submission. */
  const EmptyForm := AddForm("", "", "", "", "", "", "", "", "", "", "", "", "", "")

  function Required(form: AddForm): RequiredFields {
    RequiredFields(form.firstName, form.lastName, form.email, form.department, form.position, form.hireDate)
  }

  const DefaultPhone := "+1 (555) 000-0000"
  const DefaultLocation := "Remote"

  /** The object handed to `onEmployeeAdded`. */
  datatype NewEmployee = NewEmployee(
    id: int,
    name: string,
    email: string,
    phone: string,
    department: string,
    position: string,
    status: EmployeeList.EmployeeStatus,
    location: string,
    joinDate: string,
    salary: int,
    employeeNumber: string,
    homeAddress: string,
    hireDate: string,
    emergencyContactName: string,
    emergencyContactRelation: string,
    emergencyContactPhone: string)

  /** `parseFloat(salary) || 0`: `NaN` (and a parsed zero) become 0. */
  function SalaryOrZero(parse: string -> Parsed, text: string): int {
    match parse(text)
    case NaN => 0
    case Num(v) => v
  }

  /** The record built from a form; `id` stands for `Date.now()` at submission. */
  function NewRecord(form: AddForm, id: int, parse: string -> Parsed): NewEmployee {
    NewEmployee(
      id,
      form.firstName + " " + form.lastName,
      form.email,
      if form.phone == "" then DefaultPhone else form.phone,
      form.department,
      form.position,
      EmployeeList.Active,
      if form.location == "" then DefaultLocation else form.location,
      form.hireDate,
      SalaryOrZero(parse, form.salary),
      form.employeeNumber,
      form.homeAddress,
      form.hireDate,
      form.emergencyContactName,
      form.emergencyContactRelation,
      form.emergencyContactPhone)
  }

  /** What the new record promises about the form it came from. */
  lemma NewRecordFields(form: AddForm, id: int, parse: string -> Parsed)
    requires parse("") == NaN
    ensures var e := NewRecord(form, id, parse);
      && e.id == id
      && e.name == form.firstName + " " + form.lastName
      && e.joinDate == form.hireDate && e.hireDate == form.hireDate
      && (form.phone == "" ==> e.phone == DefaultPhone)
      && (form.phone != "" ==> e.phone == form.phone)
      && (form.location == "" ==> e.location == DefaultLocation)
      && (form.location != "" ==> e.location == form.location)
      && e.status == EmployeeList.Active
      && (form.salary == "" ==> e.salary == 0)
      && (parse(form.salary) == NaN ==> e.salary == 0)
      && (parse(form.salary).Num? ==> e.salary == parse(form.salary).value)
      && e.email == form.email && e.department == form.department && e.position == form.position
  {
  }

  /** Whether the dialog is open, and its draft. */
  datatype AddDialog = AddDialog(form: AddForm, open: bool)

  /** The dialog after a submission, the record emitted (if any), and the toast. */
  datatype AddOutcome = AddOutcome(dialog: AddDialog, added: Option<NewEmployee>, toast: Toast)

  /** `handleSubmit`. */
  function Submit(d: AddDialog, id: int, parse: string -> Parsed): (r: AddOutcome)
    ensures r.added.None? <==> !Complete(Required(d.form))
    ensures r.added.None? ==> r.dialog == d && r.toast == ValidationError
    ensures r.added.Some? ==>
      && r.added.value.name == d.form.firstName + " " + d.form.lastName
      && r.added.value.hireDate == d.form.hireDate
      && r.added.value.status == EmployeeList.Active
      && r.added.value == NewRecord(d.form, id, parse)
      && r.dialog == AddDialog(EmptyForm, false)
      && r.toast == Success
  {
    if !Complete(Required(d.form)) then
      AddOutcome(d, None, ValidationError)
    else
      AddOutcome(AddDialog(EmptyForm, false), Some(NewRecord(d.form, id, parse)), Success)
  }

  /** After a successful submission every field reads `""`, so submitting again at once
      is refused and emits nothing. */
  lemma ResubmitIsRefused(d: AddDialog, id1: int, id2: int, parse: string -> Parsed)
    requires Submit(d, id1, parse).added.Some?
    ensures forall f :: Get(Submit(d, id1, parse).dialog.form, f) == ""
    ensures Submit(Submit(d, id1, parse).dialog, id2, parse).added.None?
  {
  }

  /** One `handleInputChange(field, value)` call. */
  datatype Edit = Edit(field: AddField, value: string)

  /** The draft after a sequence of edits, applied in order. */
  function ApplyEdits(form: AddForm, edits: seq<Edit>): (r: AddForm)
    ensures forall f :: (forall k :: 0 <= k < |edits| ==> edits[k].field != f) ==> Get(r, f) == Get(form, f)
    ensures forall k :: 0 <= k < |edits| && (forall j :: k < j < |edits| ==> edits[j].field != edits[k].field) ==>
      Get(r, edits[k].field) == edits[k].value
    decreases |edits|
  {
    if |edits| == 0 then form
    else
      var init, last := edits[..|edits| - 1], edits[|edits| - 1];
      assert forall k :: 0 <= k < |init| ==> init[k] == edits[k];
      SetField(ApplyEdits(form, init), last.field, last.value)
  }

  /** The fields the dialog renders an input for (AddEmployeeDialog.tsx:115-209). The
      hire date, employee number, home address and emergency contact have none. */
  predicate IsRendered(f: AddField) {
    f in {FirstName, LastName, Email, Phone, Department, Position, Location, Salary}
  }

  /** As written, the hire date stays `""` whatever the user types into the rendered
      inputs, so every submission is refused with the validation toast. */
  lemma RenderedDialogNeverAdds(edits: seq<Edit>, open: bool, id: int, parse: string -> Parsed)
    requires forall k :: 0 <= k < |edits| ==> IsRendered(edits[k].field)
    ensures Get(ApplyEdits(EmptyForm, edits), HireDate) == ""
    ensures Submit(AddDialog(ApplyEdits(EmptyForm, edits), open), id, parse).added.None?
    ensures Submit(AddDialog(ApplyEdits(EmptyForm, edits), open), id, parse).toast == ValidationError
  {
    RenderedEditsKeepHireDate(EmptyForm, edits);
  }

  /** No rendered input writes the hire date. */
  lemma {:induction false} RenderedEditsKeepHireDate(form: AddForm, edits: seq<Edit>)
    requires forall k :: 0 <= k < |edits| ==> IsRendered(edits[k].field)
    ensures ApplyEdits(form, edits).hireDate == form.hireDate
    decreases |edits|
  {
    if |edits| > 0 {
      var init := edits[..|edits| - 1];
      assert forall k :: 0 <= k < |init| ==> init[k] == edits[k];
      RenderedEditsKeepHireDate(form, init);
    }
  }

  /** With a hire-date input, as the gate and the record's `joinDate` evidently intend,
      a draft holding the five other required fields becomes addable once a date is
      entered, and the employee joins on that date. */
  lemma HireDateInputEnablesAdd(form: AddForm, date: string, open: bool, id: int, parse: string -> Parsed)
    requires date != ""
    requires form.firstName != "" && form.lastName != "" && form.email != ""
    requires form.department != "" && form.position != ""
    ensures var d := AddDialog(SetField(form, HireDate, date), open);
      && Submit(d, id, parse).added.Some?
      && Submit(d, id, parse).added.value.joinDate == date
      && Submit(d, id, parse).dialog == AddDialog(EmptyForm, false)
  {
  }

  /** The card the directory shows for the emitted record. */
  function ListEntry(e: NewEmployee): EmployeeList.Employee {
    EmployeeList.Employee(e.id, e.name, e.email, e.phone, e.department, e.position,
                          e.status, None, e.location, e.joinDate)
  }

  /** A successful submission adds one card at the end of the directory; it is shown
      under the "Active" status select whenever its search and department match. */
  lemma AddedEmployeeIsListedLast(
    employees: seq<EmployeeList.Employee>, d: AddDialog, id: int, parse: string -> Parsed,
    c: EmployeeList.Criteria)
    requires Submit(d, id, parse).added.Some?
    requires c.status in {EmployeeList.All, EmployeeList.EmployeeStatus.Active.Label()}
    requires EmployeeList.MatchesSearch(ListEntry(Submit(d, id, parse).added.value), c.searchTerm)
    requires c.department in {EmployeeList.All, d.form.department}
    ensures var e := ListEntry(Submit(d, id, parse).added.value);
      EmployeeList.Visible(EmployeeList.AddEmployee(employees, e), c)
        == EmployeeList.Visible(employees, c) + [e]
  {
    var e := ListEntry(Submit(d, id, parse).added.value);
    EmployeeList.VisibleAfterAdd(employees, e, c);
  }

  /** A first and last name without spaces give the new card a two-letter avatar: the
      upper-cased first letters of the two names. */
  lemma AddedEmployeeInitials(d: AddDialog, id: int, parse: string -> Parsed)
    requires Submit(d, id, parse).added.Some?
    requires ' ' !in d.form.firstName && ' ' !in d.form.lastName
    ensures Initials(Submit(d, id, parse).added.value.name)
         == [UpperChar(d.form.firstName[0]), UpperChar(d.form.lastName[0])]
  {
    var first := d.form.firstName;
    var last := d.form.lastName;
    SplitFirstWord(first, last);
    SplitWithoutSpace(last);
    assert Split(first + " " + last) == [first, last];
    InitialsPerWord(first + " " + last);
  }
}
