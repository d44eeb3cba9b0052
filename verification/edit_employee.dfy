/** The "Edit Employee" dialog as a pure state transition: prefilling the draft from a
    stored row, field edits, the required-field gate, and the update it issues. */
module EditEmployee {
  import opened Values
  import opened Forms
  import opened Text
  import AddEmployee

  /** The stored employee row as the dialog receives it; `Option` marks optional columns. */
  datatype EmployeeRow = EmployeeRow(
    id: string,
    employeeNumber: Option<string>,
    firstName: string,
    lastName: string,
    email: string,
    department: string,
    position: string,
    status: Option<string>,
    hireDate: string,
    salary: Option<int>,
    homeAddress: Option<string>,
    emergencyContactName: Option<string>,
    emergencyContactRelation: Option<string>,
    emergencyContactPhone: Option<string>,
    emergencyContactAddress: Option<string>,
    previousEmployer: Option<string>,
    previousCompanyName: Option<string>,
    previousCompanyAddress: Option<string>,
    contactNumber: Option<string>,
    employmentDetails: Option<string>,
    immediateSupervisor: Option<string>)

  datatype EditForm = EditForm(
    firstName: string,
    lastName: string,
    email: string,
    contactNumber: string,
    department: string,
    position: string,
    salary: string,
    employeeNumber: string,
    homeAddress: string,
    hireDate: string,
    status: string,
    emergencyContactName: string,
    emergencyContactRelation: string,
    emergencyContactPhone: string,
    emergencyContactAddress: string,
    previousEmployer: string,
    previousCompanyName: string,
    previousCompanyAddress: string,
    employmentDetails: string,
    immediateSupervisor: string)

  datatype EditField =
    | FirstName | LastName | Email | ContactNumber | Department | Position | Salary
    | EmployeeNumber | HomeAddress | HireDate | Status
    | EmergencyContactName | EmergencyContactRelation | EmergencyContactPhone | EmergencyContactAddress
    | PreviousEmployer | PreviousCompanyName | PreviousCompanyAddress
    | EmploymentDetails | ImmediateSupervisor

  function Get(form: EditForm, field: EditField): string {
    match field
    case FirstName => form.firstName
    case LastName => form.lastName
    case Email => form.email
    case ContactNumber => form.contactNumber
    case Department => form.department
    case Position => form.position
    case Salary => form.salary
    case EmployeeNumber => form.employeeNumber
    case HomeAddress => form.homeAddress
    case HireDate => form.hireDate
    case Status => form.status
    case EmergencyContactName => form.emergencyContactName
    case EmergencyContactRelation => form.emergencyContactRelation
    case EmergencyContactPhone => form.emergencyContactPhone
    case EmergencyContactAddress => form.emergencyContactAddress
    case PreviousEmployer => form.previousEmployer
    case PreviousCompanyName => form.previousCompanyName
    case PreviousCompanyAddress => form.previousCompanyAddress
    case EmploymentDetails => form.employmentDetails
    case ImmediateSupervisor => form.immediateSupervisor
  }

  /** `handleInputChange`: sets exactly the named field. */
  function SetField(form: EditForm, field: EditField, value: string): (r: EditForm)
    ensures Get(r, field) == value
    ensures forall g :: g != field ==> Get(r, g) == Get(form, g)
  {
    match field
    case FirstName => form.(firstName := value)
    case LastName => form.(lastName := value)
    case Email => form.(email := value)
    case ContactNumber => form.(contactNumber := value)
    case Department => form.(department := value)
    case Position => form.(position := value)
    case Salary => form.(salary := value)
    case EmployeeNumber => form.(employeeNumber := value)
    case HomeAddress => form.(homeAddress := value)
    case HireDate => form.(hireDate := value)
    case Status => form.(status := value)
    case EmergencyContactName => form.(emergencyContactName := value)
    case EmergencyContactRelation => form.(emergencyContactRelation := value)
    case EmergencyContactPhone => form.(emergencyContactPhone := value)
    case EmergencyContactAddress => form.(emergencyContactAddress := value)
    case PreviousEmployer => form.(previousEmployer := value)
    case PreviousCompanyName => form.(previousCompanyName := value)
    case PreviousCompanyAddress => form.(previousCompanyAddress := value)
    case EmploymentDetails => form.(employmentDetails := value)
    case ImmediateSupervisor => form.(immediateSupervisor := value)
  }

  /** The text a row holds for a non-salary field; an absent optional column reads `""`. */
  function RowText(e: EmployeeRow, field: EditField): string
    requires field != Salary
  {
    match field
    case FirstName => e.firstName
    case LastName => e.lastName
    case Email => e.email
    case ContactNumber => OrEmpty(e.contactNumber)
    case Department => e.department
    case Position => e.position
    case EmployeeNumber => OrEmpty(e.employeeNumber)
    case HomeAddress => OrEmpty(e.homeAddress)
    case HireDate => e.hireDate
    case Status => OrEmpty(e.status)
    case EmergencyContactName => OrEmpty(e.emergencyContactName)
    case EmergencyContactRelation => OrEmpty(e.emergencyContactRelation)
    case EmergencyContactPhone => OrEmpty(e.emergencyContactPhone)
    case EmergencyContactAddress => OrEmpty(e.emergencyContactAddress)
    case PreviousEmployer => OrEmpty(e.previousEmployer)
    case PreviousCompanyName => OrEmpty(e.previousCompanyName)
    case PreviousCompanyAddress => OrEmpty(e.previousCompanyAddress)
    case EmploymentDetails => OrEmpty(e.employmentDetails)
    case ImmediateSupervisor => OrEmpty(e.immediateSupervisor)
  }

  /** The prefill effect: copies the row into the draft, `|| ""` for absent columns and
      `salary?.toString() || ""` for the salary. */
  function Prefill(e: EmployeeRow): (form: EditForm)
    ensures forall f :: f != Salary ==> Get(form, f) == RowText(e, f)
    ensures form.salary == "" <==> e.salary.None?
    ensures e.salary.Some? ==> form.salary == Show(e.salary.value)
  {
    var salary := match e.salary case None => "" case Some(n) => Show(n);
    EditForm(
      e.firstName, e.lastName, e.email, OrEmpty(e.contactNumber), e.department, e.position,
      salary, OrEmpty(e.employeeNumber), OrEmpty(e.homeAddress), e.hireDate, OrEmpty(e.status),
      OrEmpty(e.emergencyContactName), OrEmpty(e.emergencyContactRelation),
      OrEmpty(e.emergencyContactPhone), OrEmpty(e.emergencyContactAddress),
      OrEmpty(e.previousEmployer), OrEmpty(e.previousCompanyName),
      OrEmpty(e.previousCompanyAddress), OrEmpty(e.employmentDetails),
      OrEmpty(e.immediateSupervisor))
  }

  /** A prefilled salary is a decimal numeral of the stored amount (a stored 0 reads
      "0", which is non-empty and so is not turned into `null` on save). */
  lemma PrefilledSalaryReadsBack(e: EmployeeRow)
    requires e.salary.Some?
    ensures Prefill(e).salary != ""
    ensures ReadInt(Prefill(e).salary) == Some(e.salary.value)
  {
    ReadShow(e.salary.value);
  }

  function Required(form: EditForm): RequiredFields {
    RequiredFields(form.firstName, form.lastName, form.email, form.department, form.position, form.hireDate)
  }

  /** The object passed to `.update(...)`; `salary` is `None` for SQL `null`. */
  datatype UpdatePayload = UpdatePayload(
    firstName: string,
    lastName: string,
    email: string,
    contactNumber: string,
    department: string,
    position: string,
    salary: Option<Parsed>,
    employeeNumber: string,
    homeAddress: string,
    hireDate: string,
    status: string,
    emergencyContactName: string,
    emergencyContactRelation: string,
    emergencyContactPhone: string,
    emergencyContactAddress: string,
    previousEmployer: string,
    previousCompanyName: string,
    previousCompanyAddress: string,
    employmentDetails: string,
    immediateSupervisor: string)

  /** The payload column written for a non-salary field. */
  function Column(p: UpdatePayload, field: EditField): string
    requires field != Salary
  {
    match field
    case FirstName => p.firstName
    case LastName => p.lastName
    case Email => p.email
    case ContactNumber => p.contactNumber
    case Department => p.department
    case Position => p.position
    case EmployeeNumber => p.employeeNumber
    case HomeAddress => p.homeAddress
    case HireDate => p.hireDate
    case Status => p.status
    case EmergencyContactName => p.emergencyContactName
    case EmergencyContactRelation => p.emergencyContactRelation
    case EmergencyContactPhone => p.emergencyContactPhone
    case EmergencyContactAddress => p.emergencyContactAddress
    case PreviousEmployer => p.previousEmployer
    case PreviousCompanyName => p.previousCompanyName
    case PreviousCompanyAddress => p.previousCompanyAddress
    case EmploymentDetails => p.employmentDetails
    case ImmediateSupervisor => p.immediateSupervisor
  }

  /** `salary ? parseFloat(salary) : null`, every other column verbatim from the draft. */
  function Payload(form: EditForm, parse: string -> Parsed): (p: UpdatePayload)
    ensures forall f :: f != Salary ==> Column(p, f) == Get(form, f)
    ensures p.salary.None? <==> form.salary == ""
    ensures p.salary.Some? ==> p.salary.value == parse(form.salary)
  {
    UpdatePayload(
      form.firstName, form.lastName, form.email, form.contactNumber, form.department,
      form.position, if form.salary == "" then None else Some(parse(form.salary)),
      form.employeeNumber, form.homeAddress, form.hireDate, form.status,
      form.emergencyContactName, form.emergencyContactRelation, form.emergencyContactPhone,
      form.emergencyContactAddress, form.previousEmployer, form.previousCompanyName,
      form.previousCompanyAddress, form.employmentDetails, form.immediateSupervisor)
  }

  /** `.update(payload).eq('id', id)`. */
  datatype UpdateCall = UpdateCall(id: string, payload: UpdatePayload)

  datatype EditDialog = EditDialog(form: EditForm, open: bool)

  /** The dialog after a submission, the update issued (if any), whether
      `onEmployeeUpdated` ran, and the toast. */
  datatype EditOutcome = EditOutcome(dialog: EditDialog, update: Option<UpdateCall>, notified: bool, toast: Toast)

  /** `handleSubmit`; `storeFails` is whether the store answers the update with an error. */
  function Submit(d: EditDialog, employee: EmployeeRow, parse: string -> Parsed, storeFails: bool): (r: EditOutcome)
    ensures r.update.None? <==> !Complete(Required(d.form))
    ensures r.update.Some? ==> r.update.value.id == employee.id
    ensures r.update.Some? ==> forall f :: f != Salary ==> Column(r.update.value.payload, f) == Get(d.form, f)
    ensures r.update.Some? ==>
      r.update.value.payload.salary == (if d.form.salary == "" then None else Some(parse(d.form.salary)))
    ensures r.update.Some? ==> r.update.value.payload == Payload(d.form, parse)
    ensures r.notified <==> r.update.Some? && !storeFails
    ensures r.dialog.form == d.form
    ensures r.dialog.open == (d.open && !r.notified)
    ensures r.toast == (if r.update.None? then ValidationError else if storeFails then Failure else Success)
  {
    if !Complete(Required(d.form)) then
      EditOutcome(d, None, false, ValidationError)
    else
      var call := UpdateCall(employee.id, Payload(d.form, parse));
      if storeFails then EditOutcome(d, Some(call), false, Failure)
      else EditOutcome(d.(open := false), Some(call), true, Success)
  }

  /** Opening the dialog on a row and saving without edits writes every text column back
      as the row held it, turns absent optional columns into `""`, and writes the salary
      back unchanged (`null` when absent), provided `parseFloat` reads every decimal
      integer numeral as its value. */
  lemma PrefillThenSaveWritesBack(e: EmployeeRow, open: bool, parse: string -> Parsed, storeFails: bool)
    requires forall s :: ReadInt(s).Some? ==> parse(s) == Num(ReadInt(s).value)
    requires Complete(RequiredFields(e.firstName, e.lastName, e.email, e.department, e.position, e.hireDate))
    ensures var r := Submit(EditDialog(Prefill(e), open), e, parse, storeFails);
      && r.update.Some?
      && r.update.value.id == e.id
      && (forall f :: f != Salary ==> Column(r.update.value.payload, f) == RowText(e, f))
      && r.update.value.payload.salary == (match e.salary case None => None case Some(n) => Some(Num(n)))
  {
    if e.salary.Some? {
      ReadShow(e.salary.value);
    }
    var form := Prefill(e);
    assert Required(form) == RequiredFields(e.firstName, e.lastName, e.email, e.department, e.position, e.hireDate);
  }

  /** The two dialogs disagree on an empty salary: the add dialog records 0, the edit
      dialog writes `null`. */
  lemma EmptySalarySentinels(addForm: AddEmployee.AddForm, editForm: EditForm, id: int, parse: string -> Parsed)
    requires parse("") == NaN
    requires addForm.salary == "" && editForm.salary == ""
    ensures AddEmployee.NewRecord(addForm, id, parse).salary == 0
    ensures Payload(editForm, parse).salary == None
  {
  }
}
