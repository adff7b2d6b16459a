/**
 * The administrator's dashboard: the conjunctive filter over the report list,
 * the counters above it, and the status update applied to the list and to the
 * report open in the side sheet.
 */
module Admin {
  import opened Base
  import opened Types
  import Text

  /** The department drop-down: "all" or one service. */
  datatype DeptFilter = AllDepartments | Department(service: Service)

  /** The severity drop-down: "all" or one severity. */
  datatype SeverityFilter = AllSeverities | OnlySeverity(severity: Severity)

  /** Case-insensitive search on the id or the description; an empty query matches everything. */
  predicate MatchesQuery(r: Report, query: string) {
    query == ""
    || Text.Includes(Text.ToLower(r.id), Text.ToLower(query))
    || Text.Includes(Text.ToLower(r.description), Text.ToLower(query))
  }

  /** The filter callback: each active criterion must hold. */
  predicate Keep(r: Report, dept: DeptFilter, severity: SeverityFilter, query: string) {
    && (dept.Department? ==> dept.service in r.services)
    && (severity.OnlySeverity? ==> r.severity == severity.severity)
    && MatchesQuery(r, query)
  }

  /** `a` is `b` with some elements dropped, the rest in their original order. */
  predicate IsSubsequence<T(==)>(a: seq<T>, b: seq<T>)
    decreases |b|
  {
    if |a| == 0 then true
    else if |b| == 0 then false
    else if a[0] == b[0] then IsSubsequence(a[1..], b[1..])
    else IsSubsequence(a, b[1..])
  }

  /** `filteredReports`: the reports the criteria keep. */
  function Filter(reports: seq<Report>, dept: DeptFilter, severity: SeverityFilter, query: string): (kept: seq<Report>)
    ensures forall r :: r in kept <==> r in reports && Keep(r, dept, severity, query)
    ensures |kept| <= |reports|
    ensures forall r :: multiset(kept)[r] == if Keep(r, dept, severity, query) then multiset(reports)[r] else 0
  {
    if |reports| == 0 then []
    else
      var rest := Filter(reports[1..], dept, severity, query);
      assert reports == [reports[0]] + reports[1..];
      assert multiset(reports) == multiset{reports[0]} + multiset(reports[1..]);
      assert forall r :: r in reports <==> r == reports[0] || r in reports[1..];
      if Keep(reports[0], dept, severity, query) then
        assert multiset([reports[0]] + rest) == multiset{reports[0]} + multiset(rest);
        [reports[0]] + rest
      else rest
  }

  /** Filtering keeps the reports' order: the result is a subsequence of the list. */
  lemma {:induction false} FilterIsSubsequence(reports: seq<Report>, dept: DeptFilter, severity: SeverityFilter, query: string)
    ensures IsSubsequence(Filter(reports, dept, severity, query), reports)
  {
    if |reports| > 0 {
      FilterIsSubsequence(reports[1..], dept, severity, query);
      var rest := Filter(reports[1..], dept, severity, query);
      if !Keep(reports[0], dept, severity, query) {
        SubsequenceSkip(rest, reports[0], reports[1..]);
      }
    }
  }

  /** A subsequence of `b` is a subsequence of `b` with an element put in front. */
  lemma {:induction false} SubsequenceSkip<T>(a: seq<T>, x: T, b: seq<T>)
    requires IsSubsequence(a, b)
    ensures IsSubsequence(a, [x] + b)
    decreases |b|, 1
  {
    assert ([x] + b)[1..] == b;
    if |a| > 0 && a[0] == x {
      SubsequenceSkipHead(a, b);
    }
  }

  /** Dropping the first element of a subsequence leaves a subsequence. */
  lemma {:induction false} SubsequenceSkipHead<T>(a: seq<T>, b: seq<T>)
    requires |a| > 0 && IsSubsequence(a, b)
    ensures IsSubsequence(a[1..], b)
    decreases |b|, 0
  {
    assert |b| > 0;
    assert [b[0]] + b[1..] == b;
    if a[0] == b[0] {
      SubsequenceSkip(a[1..], b[0], b[1..]);
    } else {
      SubsequenceSkipHead(a, b[1..]);
      SubsequenceSkip(a[1..], b[0], b[1..]);
    }
  }

  /** With no criterion active the whole list is shown. */
  lemma {:induction false} FilterNothingActive(reports: seq<Report>)
    ensures Filter(reports, AllDepartments, AllSeverities, "") == reports
  {
    if |reports| > 0 {
      FilterNothingActive(reports[1..]);
      assert [reports[0]] + reports[1..] == reports;
    }
  }

  /** What each active criterion guarantees of the kept reports. */
  lemma FilterCriteria(reports: seq<Report>, dept: DeptFilter, severity: SeverityFilter, query: string)
    ensures forall r :: r in Filter(reports, dept, severity, query) ==>
      && (dept.Department? ==> dept.service in r.services)
      && (severity.OnlySeverity? ==> r.severity == severity.severity)
      && (query != "" ==> Text.Includes(Text.ToLower(r.id), Text.ToLower(query))
                          || Text.Includes(Text.ToLower(r.description), Text.ToLower(query)))
  {
  }

  // ---------------------------------------------------------------------------
  // Counters

  /** The "active" counter: reports not yet resolved. */
  function CountActive(reports: seq<Report>): (n: nat)
    ensures n <= |reports|
    ensures n == 0 <==> forall r :: r in reports ==> r.status == Resolved
  {
    if |reports| == 0 then 0
    else
      assert forall r :: r in reports <==> r == reports[0] || r in reports[1..];
      (if reports[0].status != Resolved then 1 else 0) + CountActive(reports[1..])
  }

  /** The "resolved" counter. */
  function CountResolved(reports: seq<Report>): (n: nat)
    ensures n <= |reports|
    ensures n == 0 <==> forall r :: r in reports ==> r.status != Resolved
  {
    if |reports| == 0 then 0
    else
      assert forall r :: r in reports <==> r == reports[0] || r in reports[1..];
      (if reports[0].status == Resolved then 1 else 0) + CountResolved(reports[1..])
  }

  /** The "critical" counter. */
  function CountCritical(reports: seq<Report>): (n: nat)
    ensures n <= |reports|
    ensures n == 0 <==> forall r :: r in reports ==> r.severity != Critical
  {
    if |reports| == 0 then 0
    else
      assert forall r :: r in reports <==> r == reports[0] || r in reports[1..];
      (if reports[0].severity == Critical then 1 else 0) + CountCritical(reports[1..])
  }

  /** Active and resolved emergencies partition the list. */
  lemma {:induction false} ActivePlusResolved(reports: seq<Report>)
    ensures CountActive(reports) + CountResolved(reports) == |reports|
  {
    if |reports| > 0 {
      ActivePlusResolved(reports[1..]);
    }
  }

  datatype Stats = Stats(active: nat, critical: nat, resolved: nat)

  /** The three computed counters, in one pass over the list. */
  method ComputeStats(reports: seq<Report>) returns (stats: Stats)
    ensures stats.active == CountActive(reports)
    ensures stats.critical == CountCritical(reports)
    ensures stats.resolved == CountResolved(reports)
    ensures stats.active + stats.resolved == |reports|
    ensures stats.critical <= |reports|
  {
    var active, critical, resolved := 0, 0, 0;
    var i := |reports|;
    while i > 0
      invariant 0 <= i <= |reports|
      invariant active == CountActive(reports[i..])
      invariant critical == CountCritical(reports[i..])
      invariant resolved == CountResolved(reports[i..])
      invariant active + resolved == |reports| - i
      invariant critical <= |reports| - i
    {
      i := i - 1;
      assert reports[i..][1..] == reports[i + 1..];
      if reports[i].status != Resolved { active := active + 1; } else { resolved := resolved + 1; }
      if reports[i].severity == Critical { critical := critical + 1; }
    }
    assert reports[0..] == reports;
    stats := Stats(active, critical, resolved);
  }

  // ---------------------------------------------------------------------------
  // Status updates

  /** The list after `handleStatusUpdate`: every report with the id gets the new status. */
  function UpdateStatus(reports: seq<Report>, id: string, status: ReportStatus): (updated: seq<Report>)
    ensures |updated| == |reports|
    ensures forall i :: 0 <= i < |reports| ==> updated[i].(status := reports[i].status) == reports[i]
    ensures forall i :: 0 <= i < |reports| && reports[i].id == id ==> updated[i].status == status
    ensures forall i :: 0 <= i < |reports| && reports[i].id != id ==> updated[i] == reports[i]
  {
    seq(|reports|, i requires 0 <= i < |reports| =>
      if reports[i].id == id then reports[i].(status := status) else reports[i])
  }

  /** Any status is accepted, earlier ones included; repeating an update changes nothing more. */
  lemma UpdateIdempotent(reports: seq<Report>, id: string, first: ReportStatus, second: ReportStatus)
    ensures UpdateStatus(UpdateStatus(reports, id, first), id, second) == UpdateStatus(reports, id, second)
    ensures UpdateStatus(UpdateStatus(reports, id, first), id, first) == UpdateStatus(reports, id, first)
  {
  }

  /** The report open in the side sheet follows the update only when its id matches. */
  function UpdateSelected(selected: Option<Report>, id: string, status: ReportStatus): (r: Option<Report>)
    ensures r.None? <==> selected.None?
    ensures selected.Some? && selected.value.id == id ==> r == Some(selected.value.(status := status))
    ensures selected.Some? && selected.value.id != id ==> r == selected
  {
    match selected
    case None => None
    case Some(s) => if s.id == id then Some(s.(status := status)) else selected
  }

  datatype Dashboard = Dashboard(reports: seq<Report>, selected: Option<Report>)

  /** `handleStatusUpdate` on the whole dashboard state. */
  function HandleStatusUpdate(d: Dashboard, id: string, status: ReportStatus): (r: Dashboard)
    ensures |r.reports| == |d.reports|
    ensures forall i :: 0 <= i < |d.reports| && d.reports[i].id == id ==> r.reports[i] == d.reports[i].(status := status)
    ensures forall i :: 0 <= i < |d.reports| && d.reports[i].id != id ==> r.reports[i] == d.reports[i]
    ensures r.selected.Some? <==> d.selected.Some?
    ensures d.selected.Some? && d.selected.value.id == id ==> r.selected == Some(d.selected.value.(status := status))
    ensures d.selected.Some? && d.selected.value.id != id ==> r.selected == d.selected
  {
    Dashboard(UpdateStatus(d.reports, id, status), UpdateSelected(d.selected, id, status))
  }

  /** A sheet showing an entry of the list still shows an entry of the list after an update. */
  lemma UpdateKeepsSelectionInList(d: Dashboard, id: string, status: ReportStatus)
    requires d.selected.Some? && d.selected.value in d.reports
    ensures var d' := HandleStatusUpdate(d, id, status);
      d'.selected.Some? && d'.selected.value in d'.reports
  {
    var k :| 0 <= k < |d.reports| && d.reports[k] == d.selected.value;
    assert HandleStatusUpdate(d, id, status).reports[k] == HandleStatusUpdate(d, id, status).selected.value;
  }
}
