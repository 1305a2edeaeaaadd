/**
 * The admin employee-management page: a page-local employee list with a
 * search filter, an add form validated before appending, a face capture
 * filling the form's image, an edit action loading an employee into the
 * form, and delete.
 */
module EmployeeManagement {
  import opened Text
  import opened Wrappers
  import opened EmployeeStore
  import Seqs

  /** The add form (`newEmployee`). */
  datatype Form = Form(name: string, email: string, position: string, department: string, faceImage: string)

  const EmptyForm := Form("", "", "", "", "")

  /** The `name` attributes of the form's inputs. */
  datatype Input = NameInput | EmailInput | PositionInput | DepartmentInput

  /** `{ ...form, [name]: value }`. */
  function SetInput(f: Form, input: Input, value: string): (r: Form)
    ensures InputValue(r, input) == value
    ensures forall other :: other != input ==> InputValue(r, other) == InputValue(f, other)
    ensures r.faceImage == f.faceImage
  {
    match input
    case NameInput => f.(name := value)
    case EmailInput => f.(email := value)
    case PositionInput => f.(position := value)
    case DepartmentInput => f.(department := value)
  }

  /** The form value of an input. */
  function InputValue(f: Form, input: Input): string {
    match input
    case NameInput => f.name
    case EmailInput => f.email
    case PositionInput => f.position
    case DepartmentInput => f.department
  }

  /** The search: the lower-cased term occurs in the lower-cased name, email, department or position. */
  predicate SearchMatches(e: Employee, term: string) {
    var t := Lower(term);
    Contains(Lower(e.name), t) || Contains(Lower(e.email), t)
      || Contains(Lower(e.department), t) || Contains(Lower(e.position), t)
  }

  /** `filteredEmployees`. */
  function FilteredEmployees(employees: seq<Employee>, term: string): (r: seq<Employee>)
    ensures forall e :: e in r <==> e in employees && SearchMatches(e, term)
    ensures forall e: Employee :: multiset(r)[e] == if SearchMatches(e, term) then multiset(employees)[e] else 0
    ensures Seqs.IsSubsequence(r, employees)
  {
    var keep := (e: Employee) => SearchMatches(e, term);
    assert forall e: Employee :: multiset(Seqs.Filter(employees, keep))[e] == if keep(e) then multiset(employees)[e] else 0 by {
      forall e: Employee { Seqs.FilterCounts(employees, keep, e); }
    }
    Seqs.FilterIsSubsequence(employees, keep);
    Seqs.Filter(employees, keep)
  }

  /** The empty search shows every employee, in order. */
  lemma EmptySearchShowsAll(employees: seq<Employee>)
    ensures FilteredEmployees(employees, "") == employees
  {
    forall e | e in employees ensures SearchMatches(e, "") {
      ContainsEmpty(Lower(e.name));
    }
    Seqs.FilterAllKept(employees, (e: Employee) => SearchMatches(e, ""));
  }

  /** Why `handleAddEmployee` did or did not add. */
  datatype AddOutcome = Added | MissingNameOrEmail | MissingFaceImage

  /** The validation order: name and email first, then the face image. */
  function Validate(f: Form): (o: AddOutcome)
    ensures o == MissingNameOrEmail <==> f.name == "" || f.email == ""
    ensures o == MissingFaceImage <==> f.name != "" && f.email != "" && f.faceImage == ""
    ensures o == Added <==> f.name != "" && f.email != "" && f.faceImage != ""
  {
    if f.name == "" || f.email == "" then MissingNameOrEmail
    else if f.faceImage == "" then MissingFaceImage
    else Added
  }

  /** `{ ...form, id }`. */
  function WithId(f: Form, id: string): (e: Employee)
    ensures e.id == id && e.name == f.name && e.email == f.email
    ensures e.position == f.position && e.department == f.department && e.faceImage == f.faceImage
  {
    Employee(id, f.name, f.email, f.position, f.department, f.faceImage)
  }

  /** The form loaded for editing an employee: its five form fields. */
  function FormOf(e: Employee): (f: Form)
    ensures WithId(f, e.id) == e
  {
    Form(e.name, e.email, e.position, e.department, e.faceImage)
  }

  /** `employees.find(emp => emp.id === id)`: the first employee carrying `id`. */
  function FindById(s: seq<Employee>, id: string): (r: Option<Employee>)
    ensures r.Some? <==> HasId(s, id)
    ensures r.Some? ==> r.value in s && r.value.id == id
    ensures r.Some? ==> exists i :: 0 <= i < |s| && s[i] == r.value && forall j :: 0 <= j < i ==> s[j].id != id
    decreases |s|
  {
    if s == [] then None
    else if s[0].id == id then Some(s[0])
    else
      var r := FindById(s[1..], id);
      assert r.Some? ==> exists i :: 0 <= i < |s[1..]| && s[1..][i] == r.value && forall j :: 0 <= j < i ==> s[1..][j].id != id;
      assert HasId(s, id) ==> HasId(s[1..], id) by {
        if HasId(s, id) {
          var e :| e in s && e.id == id;
          assert e != s[0];
          assert e in s[1..];
        }
      }
      if r.Some? then
        var i :| 0 <= i < |s[1..]| && s[1..][i] == r.value && forall j :: 0 <= j < i ==> s[1..][j].id != id;
        assert s[i + 1] == r.value && forall j :: 0 <= j < i + 1 ==> s[j].id != id;
        r
      else r
  }

  class EmployeeManagementPage {
    var employees: seq<Employee>
    var searchTerm: string
    var isAddingEmployee: bool
    var showFaceScanner: bool
    var newEmployee: Form

    constructor ()
      ensures employees == InitialEmployees && searchTerm == ""
      ensures !isAddingEmployee && !showFaceScanner && newEmployee == EmptyForm
    {
      employees := InitialEmployees;
      searchTerm := "";
      isAddingEmployee := false;
      showFaceScanner := false;
      newEmployee := EmptyForm;
    }

    /** The employees listed under the current search term. */
    function Shown(): (r: seq<Employee>)
      reads this
      ensures forall e :: e in r <==> e in employees && SearchMatches(e, searchTerm)
      ensures forall e: Employee :: multiset(r)[e] == if SearchMatches(e, searchTerm) then multiset(employees)[e] else 0
      ensures Seqs.IsSubsequence(r, employees)
    {
      FilteredEmployees(employees, searchTerm)
    }

    method SetSearchTerm(term: string)
      modifies this
      ensures searchTerm == term && employees == old(employees) && newEmployee == old(newEmployee)
      ensures isAddingEmployee == old(isAddingEmployee) && showFaceScanner == old(showFaceScanner)
    {
      searchTerm := term;
    }

    /** `handleInputChange`: set exactly the named input. */
    method HandleInputChange(input: Input, value: string)
      modifies this
      ensures newEmployee == SetInput(old(newEmployee), input, value)
      ensures employees == old(employees) && searchTerm == old(searchTerm)
      ensures isAddingEmployee == old(isAddingEmployee) && showFaceScanner == old(showFaceScanner)
    {
      newEmployee := SetInput(newEmployee, input, value);
    }

    /**
     * `handleAddEmployee`, with `now` the id `Date.now().toString()` yields.
     * An invalid form changes nothing; a valid one is appended under that id,
     * the form is cleared and the add panel and scanner are closed.
     */
    method HandleAddEmployee(now: string) returns (outcome: AddOutcome)
      modifies this
      ensures outcome == Validate(old(newEmployee))
      ensures outcome != Added ==>
        && employees == old(employees) && newEmployee == old(newEmployee)
        && isAddingEmployee == old(isAddingEmployee) && showFaceScanner == old(showFaceScanner)
      ensures outcome == Added ==>
        && employees == Add(old(employees), WithId(old(newEmployee), now))
        && newEmployee == EmptyForm && !isAddingEmployee && !showFaceScanner
      ensures searchTerm == old(searchTerm)
    {
      if newEmployee.name == "" || newEmployee.email == "" {
        return MissingNameOrEmail;
      }
      if newEmployee.faceImage == "" {
        return MissingFaceImage;
      }
      var withId := Employee(now, newEmployee.name, newEmployee.email, newEmployee.position,
        newEmployee.department, newEmployee.faceImage);
      employees := employees + [withId];
      newEmployee := Form("", "", "", "", "");
      isAddingEmployee := false;
      showFaceScanner := false;
      outcome := Added;
    }

    /** `handleFaceCapture`: store the image in the form and hide the scanner. */
    method HandleFaceCapture(image: string)
      modifies this
      ensures newEmployee == old(newEmployee).(faceImage := image) && !showFaceScanner
      ensures employees == old(employees) && searchTerm == old(searchTerm)
      ensures isAddingEmployee == old(isAddingEmployee)
    {
      newEmployee := newEmployee.(faceImage := image);
      showFaceScanner := false;
    }

    /**
     * `handleEditEmployee`: load the first employee with `id` into the form
     * and open the panel; with no such employee nothing changes. The list
     * itself is never changed.
     */
    method HandleEditEmployee(id: string) returns (found: bool)
      modifies this
      ensures found <==> HasId(old(employees), id)
      ensures employees == old(employees) && searchTerm == old(searchTerm)
      ensures showFaceScanner == old(showFaceScanner)
      ensures !found ==> newEmployee == old(newEmployee) && isAddingEmployee == old(isAddingEmployee)
      ensures found ==> newEmployee == FormOf(FindById(employees, id).value) && isAddingEmployee
    {
      var toEdit := FindById(employees, id);
      if toEdit.None? {
        return false;
      }
      var e := toEdit.value;
      newEmployee := Form(e.name, e.email, e.position, e.department, e.faceImage);
      isAddingEmployee := true;
      found := true;
    }

    /** `handleDeleteEmployee`. */
    method HandleDeleteEmployee(id: string)
      modifies this
      ensures employees == Delete(old(employees), id)
      ensures !HasId(employees, id)
      ensures newEmployee == old(newEmployee) && searchTerm == old(searchTerm)
      ensures isAddingEmployee == old(isAddingEmployee) && showFaceScanner == old(showFaceScanner)
    {
      employees := Delete(employees, id);
    }
  }

  /** Adding through the page and deleting the new id again leaves the list as it was, when the id is fresh. */
  method AddThenDeleteOnPage(image: string, now: string) returns (before: seq<Employee>, after: seq<Employee>)
    requires image != "" && !HasId(InitialEmployees, now)
    ensures before == after == InitialEmployees
  {
    var page := new EmployeeManagementPage();
    before := page.employees;
    page.HandleInputChange(NameInput, "Ada");
    page.HandleInputChange(EmailInput, "ada@example.com");
    page.HandleFaceCapture(image);
    var outcome := page.HandleAddEmployee(now);
    assert outcome == Added;
    page.HandleDeleteEmployee(now);
    AddThenDeleteRestores(InitialEmployees, WithId(Form("Ada", "ada@example.com", "", "", image), now));
    after := page.employees;
  }
}
