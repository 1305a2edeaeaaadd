/**
 * The attendance table's view logic: a search filter over the records, a
 * sort of the filtered copy by one column, and the two-variable sort state
 * that a click on a column header updates.
 */
module AttendanceTable {
  import opened Wrappers
  import opened Text
  import Seqs

  datatype Status = Present | Absent | Late

  datatype AttendanceRecord = AttendanceRecord(
    id: string,
    employeeId: string,
    employeeName: string,
    date: string,
    timeIn: string,
    timeOut: Option<string>,
    status: Status,
    department: Option<string>)

  /** `keyof AttendanceRecord`. */
  datatype Field = Id | EmployeeId | EmployeeName | Date | TimeIn | TimeOut | StatusField | Department

  datatype Direction = Asc | Desc

  /** The string a status is stored as. */
  function StatusText(s: Status): string {
    match s
    case Present => "present"
    case Absent => "absent"
    case Late => "late"
  }

  /** The properties every record carries; `timeOut` and `department` may be undefined. */
  predicate AlwaysPresent(f: Field) {
    f != TimeOut && f != Department
  }

  /** `record[field]`, `None` standing for `undefined`. */
  function FieldValue(r: AttendanceRecord, f: Field): (v: Option<string>)
    ensures AlwaysPresent(f) ==> v.Some?
  {
    match f
    case Id => Some(r.id)
    case EmployeeId => Some(r.employeeId)
    case EmployeeName => Some(r.employeeName)
    case Date => Some(r.date)
    case TimeIn => Some(r.timeIn)
    case TimeOut => r.timeOut
    case StatusField => Some(StatusText(r.status))
    case Department => r.department
  }

  /** `x < y` on two property values: a comparison with `undefined` is false. */
  predicate ValueLess(x: Option<string>, y: Option<string>) {
    x.Some? && y.Some? && StrLess(x.value, y.value)
  }

  /** The comparator handed to `sort`: negative, positive or zero. */
  function Compare(a: AttendanceRecord, b: AttendanceRecord, f: Field, d: Direction): (c: int)
    ensures -1 <= c <= 1
    ensures c == 0 <==> !ValueLess(FieldValue(a, f), FieldValue(b, f)) && !ValueLess(FieldValue(b, f), FieldValue(a, f))
  {
    if ValueLess(FieldValue(a, f), FieldValue(b, f)) then (if d == Asc then -1 else 1)
    else if ValueLess(FieldValue(b, f), FieldValue(a, f)) then (if d == Asc then 1 else -1)
    else 0
  }

  /** The comparator is antisymmetric: swapping its arguments negates it. */
  lemma CompareAntisymmetric(a: AttendanceRecord, b: AttendanceRecord, f: Field, d: Direction)
    ensures Compare(a, b, f, d) == -Compare(b, a, f, d)
  {
    var x, y := FieldValue(a, f), FieldValue(b, f);
    if x.Some? && y.Some? {
      StrLessAsymmetric(x.value, y.value);
    }
  }

  /** `a` must come strictly before `b`. */
  predicate Precedes(a: AttendanceRecord, b: AttendanceRecord, f: Field, d: Direction) {
    Compare(a, b, f, d) < 0
  }

  /** `a` precedes `b` exactly when its value is the smaller one (ascending) or the larger one (descending). */
  lemma PrecedesMeaning(a: AttendanceRecord, b: AttendanceRecord, f: Field, d: Direction)
    ensures Precedes(a, b, f, d) <==>
      if d == Asc then ValueLess(FieldValue(a, f), FieldValue(b, f))
      else ValueLess(FieldValue(b, f), FieldValue(a, f))
  {
    var x, y := FieldValue(a, f), FieldValue(b, f);
    if x.Some? && y.Some? {
      StrLessAsymmetric(x.value, y.value);
    }
  }

  lemma PrecedesAsymmetric(a: AttendanceRecord, b: AttendanceRecord, f: Field, d: Direction)
    ensures Precedes(a, b, f, d) ==> !Precedes(b, a, f, d)
  {
    PrecedesMeaning(a, b, f, d);
    PrecedesMeaning(b, a, f, d);
    var x, y := FieldValue(a, f), FieldValue(b, f);
    if x.Some? && y.Some? {
      StrLessAsymmetric(x.value, y.value);
    }
  }

  lemma PrecedesTransitive(a: AttendanceRecord, b: AttendanceRecord, c: AttendanceRecord, f: Field, d: Direction)
    requires Precedes(a, b, f, d) && Precedes(b, c, f, d)
    ensures Precedes(a, c, f, d)
  {
    PrecedesMeaning(a, b, f, d);
    PrecedesMeaning(b, c, f, d);
    PrecedesMeaning(a, c, f, d);
    var x, y, z := FieldValue(a, f), FieldValue(b, f), FieldValue(c, f);
    if d == Asc {
      StrLessTransitive(x.value, y.value, z.value);
    } else {
      StrLessTransitive(z.value, y.value, x.value);
    }
  }

  /** No record strictly precedes one placed before it. */
  predicate Sorted(s: seq<AttendanceRecord>, f: Field, d: Direction) {
    forall i, j :: 0 <= i < j < |s| ==> !Precedes(s[j], s[i], f, d)
  }

  /** Insert `x` before the first record it strictly precedes, that is after every record it ties with. */
  function Insert(x: AttendanceRecord, s: seq<AttendanceRecord>, f: Field, d: Direction): (r: seq<AttendanceRecord>)
    ensures multiset(r) == multiset(s) + multiset{x}
    decreases |s|
  {
    if s == [] then [x]
    else if Precedes(x, s[0], f, d) then [x] + s
    else
      assert s == [s[0]] + s[1..];
      [s[0]] + Insert(x, s[1..], f, d)
  }

  /** A record that no later record precedes can go in front of a sorted sequence. */
  lemma PrependSorted(x: AttendanceRecord, s: seq<AttendanceRecord>, f: Field, d: Direction)
    requires Sorted(s, f, d)
    requires forall j :: 0 <= j < |s| ==> !Precedes(s[j], x, f, d)
    ensures Sorted([x] + s, f, d)
  {
    var r := [x] + s;
    forall i, j | 0 <= i < j < |r| ensures !Precedes(r[j], r[i], f, d) {
      assert r[j] == s[j - 1];
      if i > 0 {
        assert r[i] == s[i - 1];
      }
    }
  }

  /** Inserting into a sorted sequence keeps it sorted. */
  lemma {:induction false} InsertSorted(x: AttendanceRecord, s: seq<AttendanceRecord>, f: Field, d: Direction)
    requires Sorted(s, f, d)
    ensures Sorted(Insert(x, s, f, d), f, d)
    decreases |s|
  {
    if s == [] {
    } else if Precedes(x, s[0], f, d) {
      forall j | 0 <= j < |s| ensures !Precedes(s[j], x, f, d) {
        PrecedesAsymmetric(x, s[0], f, d);
        if j > 0 && Precedes(s[j], x, f, d) {
          PrecedesTransitive(s[j], x, s[0], f, d);
        }
      }
      PrependSorted(x, s, f, d);
    } else {
      assert Sorted(s[1..], f, d);
      InsertSorted(x, s[1..], f, d);
      var rest := Insert(x, s[1..], f, d);
      forall j | 0 <= j < |rest| ensures !Precedes(rest[j], s[0], f, d) {
        assert rest[j] in multiset(rest);
        assert rest[j] == x || rest[j] in s[1..];
      }
      PrependSorted(s[0], rest, f, d);
    }
  }

  /** The comparator sort: a stable insertion sort, each new record inserted into the sorted prefix. */
  function Sort(s: seq<AttendanceRecord>, f: Field, d: Direction): (r: seq<AttendanceRecord>)
    ensures multiset(r) == multiset(s)
    ensures Sorted(r, f, d)
    decreases |s|
  {
    if s == [] then []
    else
      assert s == s[..|s| - 1] + [s[|s| - 1]];
      var prefix := Sort(s[..|s| - 1], f, d);
      InsertSorted(s[|s| - 1], prefix, f, d);
      Insert(s[|s| - 1], prefix, f, d)
  }

  /** The search: name or department contains the term case-insensitively, or the date contains it verbatim. */
  predicate Matches(r: AttendanceRecord, term: string) {
    || Contains(Lower(r.employeeName), Lower(term))
    || Contains(r.date, term)
    || (r.department.Some? && r.department.value != "" && Contains(Lower(r.department.value), Lower(term)))
  }

  /** `filteredRecords`. */
  function FilteredRecords(records: seq<AttendanceRecord>, term: string): (r: seq<AttendanceRecord>)
    ensures forall x :: x in r <==> x in records && Matches(x, term)
    ensures forall x: AttendanceRecord :: multiset(r)[x] == if Matches(x, term) then multiset(records)[x] else 0
    ensures Seqs.IsSubsequence(r, records)
  {
    var keep := (x: AttendanceRecord) => Matches(x, term);
    assert forall x: AttendanceRecord :: multiset(Seqs.Filter(records, keep))[x] == if keep(x) then multiset(records)[x] else 0 by {
      forall x: AttendanceRecord { Seqs.FilterCounts(records, keep, x); }
    }
    Seqs.FilterIsSubsequence(records, keep);
    Seqs.Filter(records, keep)
  }

  /** The empty search term keeps every record, in order. */
  lemma EmptySearchKeepsAll(records: seq<AttendanceRecord>)
    ensures FilteredRecords(records, "") == records
  {
    forall x | x in records ensures Matches(x, "") {
      ContainsEmpty(Lower(x.employeeName));
    }
    Seqs.FilterAllKept(records, x => Matches(x, ""));
  }

  /** `sortedRecords`: the filtered records, sorted on a copy. */
  function SortedRecords(records: seq<AttendanceRecord>, term: string, f: Field, d: Direction): (r: seq<AttendanceRecord>)
    ensures multiset(r) == multiset(FilteredRecords(records, term))
    ensures Sorted(r, f, d)
  {
    Sort(FilteredRecords(records, term), f, d)
  }

  /** On an always-present column, ascending order gives non-decreasing values and descending non-increasing ones. */
  lemma SortedByValue(records: seq<AttendanceRecord>, term: string, f: Field, d: Direction)
    requires AlwaysPresent(f)
    ensures var r := SortedRecords(records, term, f, d);
      forall i, j :: 0 <= i < j < |r| ==>
        var vi, vj := FieldValue(r[i], f).value, FieldValue(r[j], f).value;
        if d == Asc then vi == vj || StrLess(vi, vj) else vi == vj || StrLess(vj, vi)
  {
    var r := SortedRecords(records, term, f, d);
    forall i, j | 0 <= i < j < |r|
      ensures var vi, vj := FieldValue(r[i], f).value, FieldValue(r[j], f).value;
        if d == Asc then vi == vj || StrLess(vi, vj) else vi == vj || StrLess(vj, vi)
    {
      PrecedesMeaning(r[j], r[i], f, d);
      StrLessTotal(FieldValue(r[i], f).value, FieldValue(r[j], f).value);
    }
  }

  datatype SortIcon = ChevronUp | ChevronDown

  /** The sort state: the column sorted on and its direction. */
  datatype SortState = SortState(field: Field, direction: Direction)

  const InitialSort := SortState(Date, Desc)

  function Flip(d: Direction): Direction {
    if d == Asc then Desc else Asc
  }

  /** `handleSort`: a click on the current column flips its direction; a click on another selects it ascending. */
  function NextSort(s: SortState, clicked: Field): (t: SortState)
    ensures t.field == clicked
    ensures s.field == clicked ==> t.direction != s.direction
    ensures s.field != clicked ==> t.direction == Asc
  {
    if s.field == clicked then SortState(s.field, Flip(s.direction))
    else SortState(clicked, Asc)
  }

  /** Two clicks on the current column restore the state; two on a new one leave it descending. */
  lemma TwoClicks(s: SortState, clicked: Field)
    ensures s.field == clicked ==> NextSort(NextSort(s, clicked), clicked) == s
    ensures s.field != clicked ==> NextSort(NextSort(s, clicked), clicked) == SortState(clicked, Desc)
  {
  }

  /** `renderSortIcon`: an icon only on the sorted column, up when ascending and down when descending. */
  function SortIconFor(s: SortState, column: Field): (r: Option<SortIcon>)
    ensures r.Some? <==> column == s.field
    ensures r.Some? ==> (r.value == ChevronUp <==> s.direction == Asc)
  {
    if s.field != column then None
    else if s.direction == Asc then Some(ChevronUp) else Some(ChevronDown)
  }

  /** The table's state: the search box and the sort state. */
  class TableView {
    var searchTerm: string
    var sortField: Field
    var sortDirection: Direction

    constructor ()
      ensures searchTerm == "" && SortState(sortField, sortDirection) == InitialSort
    {
      searchTerm := "";
      sortField := Date;
      sortDirection := Desc;
    }

    function State(): SortState
      reads this
    {
      SortState(sortField, sortDirection)
    }

    method HandleSort(field: Field)
      modifies this
      ensures State() == NextSort(old(State()), field)
      ensures searchTerm == old(searchTerm)
    {
      if sortField == field {
        sortDirection := if sortDirection == Asc then Desc else Asc;
      } else {
        sortField := field;
        sortDirection := Asc;
      }
    }

    method SetSearchTerm(term: string)
      modifies this
      ensures searchTerm == term && State() == old(State())
    {
      searchTerm := term;
    }

    /** The rows shown for `records` in the current state. */
    function Rows(records: seq<AttendanceRecord>): (r: seq<AttendanceRecord>)
      reads this
      ensures multiset(r) == multiset(FilteredRecords(records, searchTerm))
      ensures Sorted(r, sortField, sortDirection)
    {
      SortedRecords(records, searchTerm, sortField, sortDirection)
    }
  }
}
