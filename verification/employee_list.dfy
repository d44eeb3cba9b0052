/** The employee directory view: in-memory search and filters, the card badge colour,
    the avatar initials, and appending a newly added employee. */
module EmployeeList {
  import opened Values
  import opened Seqs
  import opened Text

  /** `'Active' | 'Inactive' | 'On Leave'`. */
  datatype EmployeeStatus = Active | Inactive | OnLeave {
    function Label(): string {
      match this
      case Active => "Active"
      case Inactive => "Inactive"
      case OnLeave => "On Leave"
    }
  }

  datatype Employee = Employee(
    id: int,
    name: string,
    email: string,
    phone: string,
    department: string,
    position: string,
    status: EmployeeStatus,
    avatar: Option<string>,
    location: string,
    joinDate: string)

  /** The value of the department and status selects that means "no constraint". */
  const All := "all"

  /** The three inputs of the view: free-text term, department select, status select. */
  datatype Criteria = Criteria(searchTerm: string, department: string, status: string)

  /** The view's state when it first renders. */
  const InitialCriteria := Criteria("", All, All)

  /** Case-insensitive substring match against name, email or department. */
  predicate MatchesSearch(e: Employee, term: string) {
    var t := ToLower(term);
    || Contains(ToLower(e.name), t)
    || Contains(ToLower(e.email), t)
    || Contains(ToLower(e.department), t)
  }

  predicate MatchesDepartment(e: Employee, department: string) {
    department == All || e.department == department
  }

  predicate MatchesStatus(e: Employee, status: string) {
    status == All || e.status.Label() == status
  }

  predicate Matches(e: Employee, c: Criteria) {
    MatchesSearch(e, c.searchTerm) && MatchesDepartment(e, c.department) && MatchesStatus(e, c.status)
  }

  function Matcher(c: Criteria): Employee -> bool {
    e => Matches(e, c)
  }

  /** `filteredEmployees`: the employees shown as cards. */
  function Visible(employees: seq<Employee>, c: Criteria): (r: seq<Employee>)
    ensures |r| <= |employees|
    ensures forall e :: e in r <==> e in employees && Matches(e, c)
    ensures forall e :: multiset(r)[e] == if Matches(e, c) then multiset(employees)[e] else 0
  {
    FilterMultiplicity(Matcher(c), employees);
    Filter(Matcher(c), employees)
  }

  /** The shown cards keep the list's order and invent nothing. */
  lemma VisibleIsSubsequence(employees: seq<Employee>, c: Criteria)
    ensures IsSubsequence(Visible(employees, c), employees)
  {
    FilterIsSubsequence(Matcher(c), employees);
  }

  /** With a non-"all" department select, every shown employee is in exactly that
      department (case-sensitive), whatever the search term. */
  lemma DepartmentFilterIsExact(employees: seq<Employee>, c: Criteria)
    requires c.department != All
    ensures forall e :: e in Visible(employees, c) ==> e.department == c.department
  {
  }

  /** With a non-"all" status select, every shown employee carries exactly that status
      label, and every employee with that label, matching department and search, is shown. */
  lemma StatusFilterIsExact(employees: seq<Employee>, c: Criteria)
    requires c.status != All
    ensures forall e :: e in Visible(employees, c) ==> e.status.Label() == c.status
    ensures forall e ::
      (e in employees && e.status.Label() == c.status
       && MatchesSearch(e, c.searchTerm) && MatchesDepartment(e, c.department))
      ==> e in Visible(employees, c)
  {
  }

  /** The initial state (empty term, both selects "all") shows every employee. */
  lemma InitialCriteriaShowAll(employees: seq<Employee>)
    ensures Visible(employees, InitialCriteria) == employees
  {
    assert ToLower("") == "";
    FilterKeepsAll(Matcher(InitialCriteria), employees);
  }

  /** An empty search term constrains nothing: only the two selects decide. */
  lemma EmptySearchMatchesAll(e: Employee)
    ensures MatchesSearch(e, "")
  {
    assert ToLower("") == "";
  }

  /** The search ignores the case the term was typed in. */
  lemma SearchIgnoresCase(employees: seq<Employee>, c: Criteria)
    ensures Visible(employees, c.(searchTerm := ToUpper(c.searchTerm))) == Visible(employees, c)
  {
    LowerOfUpper(c.searchTerm);
    FilterAgrees(Matcher(c.(searchTerm := ToUpper(c.searchTerm))), Matcher(c), employees);
  }

  /** `handleAddEmployee`: `[...prev, newEmployee]`. */
  function AddEmployee(employees: seq<Employee>, e: Employee): (r: seq<Employee>)
    ensures |r| == |employees| + 1
    ensures r[..|employees|] == employees && r[|employees|] == e
  {
    employees + [e]
  }

  /** After an employee is appended, the shown cards are the old ones, in the same
      order, followed by the new employee exactly when it matches the criteria. */
  lemma VisibleAfterAdd(employees: seq<Employee>, e: Employee, c: Criteria)
    ensures Visible(AddEmployee(employees, e), c)
         == Visible(employees, c) + (if Matches(e, c) then [e] else [])
  {
    FilterSnoc(Matcher(c), employees, e);
  }

  /** "No employees found matching your criteria." */
  predicate ShowsEmptyState(employees: seq<Employee>, c: Criteria) {
    |Visible(employees, c)| == 0
  }

  /** The empty state is shown exactly when no employee matches. */
  lemma EmptyStateIffNoMatch(employees: seq<Employee>, c: Criteria)
    ensures ShowsEmptyState(employees, c) <==> forall i :: 0 <= i < |employees| ==> !Matches(employees[i], c)
  {
    var r := Visible(employees, c);
    if |r| > 0 {
      assert r[0] in r;
    }
    if exists i :: 0 <= i < |employees| && Matches(employees[i], c) {
      var i :| 0 <= i < |employees| && Matches(employees[i], c);
      assert employees[i] in r;
    }
  }

  const GreenBadge := "bg-green-100 text-green-800"
  const RedBadge := "bg-red-100 text-red-800"
  const YellowBadge := "bg-yellow-100 text-yellow-800"
  const GrayBadge := "bg-gray-100 text-gray-800"

  /** `getStatusColor`: a distinct badge class per status label, grey for anything else. */
  function StatusColor(status: string): (cls: string)
    ensures cls == GreenBadge <==> status == Active.Label()
    ensures cls == RedBadge <==> status == Inactive.Label()
    ensures cls == YellowBadge <==> status == OnLeave.Label()
    ensures cls == GrayBadge <==> status !in {Active.Label(), Inactive.Label(), OnLeave.Label()}
  {
    match status
    case "Active" => GreenBadge
    case "Inactive" => RedBadge
    case "On Leave" => YellowBadge
    case _ => GrayBadge
  }
}
