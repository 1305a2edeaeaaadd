/**
 * The client-side employee store: a list of employee records replaced
 * wholesale by three actions, append, partial-merge update and delete-by-id.
 */
module EmployeeStore {
  import opened Wrappers
  import Seqs

  datatype Employee = Employee(
    id: string,
    name: string,
    email: string,
    position: string,
    department: string,
    faceImage: string)

  /**
   * `Partial<Employee>`: each property either present (`Some`) or absent (`None`).
   * Spreading it over a record overrides exactly the present properties.
   */
  datatype PartialEmployee = PartialEmployee(
    id: Option<string>,
    name: Option<string>,
    email: Option<string>,
    position: Option<string>,
    department: Option<string>,
    faceImage: Option<string>)

  /** The four seeded employees. */
  const InitialEmployees: seq<Employee> := [
    Employee("2", "John Doe", "john@example.com", "Software Developer", "Engineering",
      "https://images.pexels.com/photos/220453/pexels-photo-220453.jpeg?auto=compress&cs=tinysrgb&w=1260&h=750&dpr=1"),
    Employee("3", "Sarah Johnson", "sarah@example.com", "UI Designer", "Design",
      "https://images.pexels.com/photos/415829/pexels-photo-415829.jpeg?auto=compress&cs=tinysrgb&w=1260&h=750&dpr=1"),
    Employee("4", "Michael Wilson", "michael@example.com", "Project Manager", "Management",
      "https://images.pexels.com/photos/614810/pexels-photo-614810.jpeg?auto=compress&cs=tinysrgb&w=1260&h=750&dpr=1"),
    Employee("5", "Emily Davis", "emily@example.com", "Marketing Specialist", "Marketing",
      "https://images.pexels.com/photos/774909/pexels-photo-774909.jpeg?auto=compress&cs=tinysrgb&w=1260&h=750&dpr=1")
  ]

  /** The ids of a list of employees, in order. */
  function Ids(s: seq<Employee>): (r: seq<string>)
    ensures |r| == |s| && forall i :: 0 <= i < |s| ==> r[i] == s[i].id
  {
    seq(|s|, i requires 0 <= i < |s| => s[i].id)
  }

  /** No id occurs twice. */
  predicate DistinctIds(s: seq<Employee>) {
    forall i, j :: 0 <= i < j < |s| ==> s[i].id != s[j].id
  }

  /** Some employee of `s` carries `id`. */
  predicate HasId(s: seq<Employee>, id: string) {
    exists e :: e in s && e.id == id
  }

  /** The seed holds four employees with the distinct ids 2, 3, 4 and 5. */
  lemma InitialStore()
    ensures |InitialEmployees| == 4
    ensures Ids(InitialEmployees) == ["2", "3", "4", "5"]
    ensures DistinctIds(InitialEmployees)
  {
  }

  /** `addEmployee`: append at the end. */
  function Add(s: seq<Employee>, e: Employee): (r: seq<Employee>)
    ensures |r| == |s| + 1
    ensures r[..|s|] == s && r[|s|] == e
  {
    s + [e]
  }

  /** `{ ...emp, ...partial }`. */
  function Merge(e: Employee, p: PartialEmployee): (r: Employee)
    ensures p == PartialEmployee(None, None, None, None, None, None) ==> r == e
    ensures p.id.None? ==> r.id == e.id
    ensures p.id.Some? && p.name.Some? && p.email.Some? && p.position.Some? && p.department.Some? && p.faceImage.Some? ==>
      r == Employee(p.id.value, p.name.value, p.email.value, p.position.value, p.department.value, p.faceImage.value)
  {
    Employee(
      p.id.GetOr(e.id),
      p.name.GetOr(e.name),
      p.email.GetOr(e.email),
      p.position.GetOr(e.position),
      p.department.GetOr(e.department),
      p.faceImage.GetOr(e.faceImage))
  }

  /** `updateEmployee`: merge the partial into every entry carrying `id`. */
  function Update(s: seq<Employee>, id: string, p: PartialEmployee): (r: seq<Employee>)
    ensures |r| == |s|
    ensures forall i :: 0 <= i < |s| && s[i].id != id ==> r[i] == s[i]
    ensures forall i :: 0 <= i < |s| && s[i].id == id ==> r[i] == Merge(s[i], p)
    decreases |s|
  {
    if s == [] then []
    else [if s[0].id == id then Merge(s[0], p) else s[0]] + Update(s[1..], id, p)
  }

  /**
   * In an updated entry every property present in the partial takes the
   * partial's value and every absent one keeps the old value.
   */
  lemma UpdateMatchingEntry(s: seq<Employee>, id: string, p: PartialEmployee, i: int)
    requires 0 <= i < |s| && s[i].id == id
    ensures var u := Update(s, id, p)[i];
      && (p.id.Some? ==> u.id == p.id.value) && (p.id.None? ==> u.id == s[i].id)
      && (p.name.Some? ==> u.name == p.name.value) && (p.name.None? ==> u.name == s[i].name)
      && (p.email.Some? ==> u.email == p.email.value) && (p.email.None? ==> u.email == s[i].email)
      && (p.position.Some? ==> u.position == p.position.value)
      && (p.position.None? ==> u.position == s[i].position)
      && (p.department.Some? ==> u.department == p.department.value)
      && (p.department.None? ==> u.department == s[i].department)
      && (p.faceImage.Some? ==> u.faceImage == p.faceImage.value)
      && (p.faceImage.None? ==> u.faceImage == s[i].faceImage)
  {
  }

  /** Updating an id that no entry carries changes nothing. */
  lemma UpdateAbsentIsIdentity(s: seq<Employee>, id: string, p: PartialEmployee)
    requires !HasId(s, id)
    ensures Update(s, id, p) == s
  {
    var r := Update(s, id, p);
    assert forall i :: 0 <= i < |s| ==> r[i] == s[i] by {
      forall i | 0 <= i < |s| ensures r[i] == s[i] {
        assert s[i] in s;
      }
    }
  }

  /** An empty partial changes nothing, whatever the id. */
  lemma UpdateEmptyPartialIsIdentity(s: seq<Employee>, id: string)
    ensures Update(s, id, PartialEmployee(None, None, None, None, None, None)) == s
  {
    var r := Update(s, id, PartialEmployee(None, None, None, None, None, None));
    assert forall i :: 0 <= i < |s| ==> r[i] == s[i];
  }

  /** `deleteEmployee`: keep the entries whose id differs. */
  function Delete(s: seq<Employee>, id: string): (r: seq<Employee>)
    ensures forall e :: e in r ==> e.id != id
    ensures forall e :: e in s && e.id != id ==> e in r
    ensures forall e: Employee :: e.id != id ==> multiset(r)[e] == multiset(s)[e]
    ensures Seqs.IsSubsequence(r, s)
  {
    var keep := (e: Employee) => e.id != id;
    assert forall e: Employee :: multiset(Seqs.Filter(s, keep))[e] == if keep(e) then multiset(s)[e] else 0 by {
      forall e: Employee { Seqs.FilterCounts(s, keep, e); }
    }
    Seqs.FilterIsSubsequence(s, keep);
    Seqs.Filter(s, keep)
  }

  /** Deleting twice is deleting once. */
  lemma DeleteIdempotent(s: seq<Employee>, id: string)
    ensures Delete(Delete(s, id), id) == Delete(s, id)
  {
    Seqs.FilterIdempotent(s, (e: Employee) => e.id != id);
  }

  /** Deleting an id that no entry carries changes nothing. */
  lemma DeleteAbsentIsIdentity(s: seq<Employee>, id: string)
    requires !HasId(s, id)
    ensures Delete(s, id) == s
  {
    Seqs.FilterAllKept(s, (e: Employee) => e.id != id);
  }

  /** Adding an employee under a fresh id and deleting that id restores the list. */
  lemma AddThenDeleteRestores(s: seq<Employee>, e: Employee)
    requires !HasId(s, e.id)
    ensures Delete(Add(s, e), e.id) == s
  {
    var keep := (x: Employee) => x.id != e.id;
    Seqs.FilterSnoc(s, e, keep);
    Seqs.FilterAllKept(s, keep);
  }
}
