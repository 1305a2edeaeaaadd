/** The admin attendance page: a constant list of records and an optional exact-date filter. */
module AttendanceRecords {
  import opened Wrappers
  import opened AttendanceTable
  import Seqs

  const MockRecords: seq<AttendanceRecord> := [
    AttendanceRecord("1", "EMP001", "John Doe", "2025-04-24", "09:02 AM", Some("05:30 PM"), Present, Some("Engineering")),
    AttendanceRecord("2", "EMP002", "Jane Smith", "2025-04-24", "09:47 AM", Some("05:15 PM"), Late, Some("Marketing")),
    AttendanceRecord("3", "EMP003", "Robert Johnson", "2025-04-24", "-", None, Absent, Some("Finance")),
    AttendanceRecord("4", "EMP001", "John Doe", "2025-04-24", "08:55 AM", Some("05:05 PM"), Present, Some("Engineering")),
    AttendanceRecord("5", "EMP002", "Jane Smith", "2025-04-24", "08:48 AM", Some("05:30 PM"), Present, Some("Marketing")),
    AttendanceRecord("6", "EMP003", "Robert Johnson", "2025-04-24", "09:20 AM", Some("05:15 PM"), Late, Some("Finance")),
    AttendanceRecord("7", "EMP001", "John Doe", "2025-04-24", "08:50 AM", Some("05:10 PM"), Present, Some("Engineering")),
    AttendanceRecord("8", "EMP002", "Jane Smith", "2025-04-24", "-", None, Absent, Some("Marketing"))
  ]

  /** `dateFilter ? records.filter(r => r.date === dateFilter) : records`. */
  function ByDate(records: seq<AttendanceRecord>, dateFilter: string): (r: seq<AttendanceRecord>)
    ensures dateFilter == "" ==> r == records
    ensures dateFilter != "" ==> forall x :: x in r <==> x in records && x.date == dateFilter
    ensures Seqs.IsSubsequence(r, records)
  {
    if dateFilter == "" then
      Seqs.SubsequenceReflexive(records);
      records
    else
      Seqs.FilterIsSubsequence(records, (x: AttendanceRecord) => x.date == dateFilter);
      Seqs.Filter(records, (x: AttendanceRecord) => x.date == dateFilter)
  }

  /** A non-empty filter keeps every matching record, each as often as before, and in order. */
  lemma ByDateCounts(records: seq<AttendanceRecord>, dateFilter: string, x: AttendanceRecord)
    requires dateFilter != ""
    ensures multiset(ByDate(records, dateFilter))[x] == if x.date == dateFilter then multiset(records)[x] else 0
  {
    Seqs.FilterCounts(records, (x: AttendanceRecord) => x.date == dateFilter, x);
  }

  /** Filtering twice by the same date is filtering once. */
  lemma ByDateIdempotent(records: seq<AttendanceRecord>, dateFilter: string)
    ensures ByDate(ByDate(records, dateFilter), dateFilter) == ByDate(records, dateFilter)
  {
    if dateFilter != "" {
      Seqs.FilterIdempotent(records, (x: AttendanceRecord) => x.date == dateFilter);
    }
  }

  /** The records the page hands to the table. */
  function PageRecords(dateFilter: string): (r: seq<AttendanceRecord>)
    ensures Seqs.IsSubsequence(r, MockRecords)
    ensures dateFilter == "" ==> r == MockRecords
  {
    ByDate(MockRecords, dateFilter)
  }

  /** The mock records carry the distinct ids 1 to 8, in that order. */
  lemma MockIds()
    ensures |MockRecords| == 8
    ensures forall i :: 0 <= i < 8 ==> MockRecords[i].id == [('1' as int + i) as char]
    ensures forall i, j :: 0 <= i < j < |MockRecords| ==> MockRecords[i].id != MockRecords[j].id
  {
  }

  /** Every absent record shows `-` as its time in and has no time out. */
  lemma AbsentRecordsHaveNoTimes()
    ensures forall r :: r in MockRecords && r.status == Absent ==> r.timeIn == "-" && r.timeOut.None?
  {
  }

  /** All mock records fall on one day, so filtering on it keeps them all. */
  lemma FilterOnMockDay()
    ensures PageRecords("2025-04-24") == MockRecords
  {
    Seqs.FilterAllKept(MockRecords, (x: AttendanceRecord) => x.date == "2025-04-24");
  }
}
