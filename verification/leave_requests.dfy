/** The leave requests page: the three status tallies, the approved-leave calendar
    highlights, and the "Recent Requests" panel. Calendar dates are day numbers. */
module LeaveRequests {
  import opened Values
  import opened Seqs

  /** The joined `employees (first_name, last_name)` part of a fetched row. */
  datatype EmployeeName = EmployeeName(firstName: string, lastName: string)

  datatype LeaveRequest = LeaveRequest(
    id: string,
    employeeId: string,
    startDate: int,
    endDate: int,
    daysRequested: int,
    leaveType: string,
    reason: string,
    status: string,
    createdAt: int,
    employee: Option<EmployeeName>)

  const Pending := "pending"
  const Approved := "approved"
  const Rejected := "rejected"

  function HasStatus(status: string): LeaveRequest -> bool {
    (r: LeaveRequest) => r.status == status
  }

  /** `getStatusCounts`; the "Declined" card counts status `'rejected'`. */
  datatype StatusCounts = StatusCounts(pending: nat, approved: nat, declined: nat)

  /** The number of rows whose status is exactly `status`. */
  ghost function RowsWith(requests: seq<LeaveRequest>, status: string): nat {
    |set i | 0 <= i < |requests| && requests[i].status == status|
  }

  function CountsOf(requests: seq<LeaveRequest>): (c: StatusCounts)
    ensures c.pending <= |requests| && c.approved <= |requests| && c.declined <= |requests|
    ensures c.pending == RowsWith(requests, Pending)
    ensures c.approved == RowsWith(requests, Approved)
    ensures c.declined == RowsWith(requests, Rejected)
  {
    CountIsIndexCount(HasStatus(Pending), requests, set i | 0 <= i < |requests| && requests[i].status == Pending);
    CountIsIndexCount(HasStatus(Approved), requests, set i | 0 <= i < |requests| && requests[i].status == Approved);
    CountIsIndexCount(HasStatus(Rejected), requests, set i | 0 <= i < |requests| && requests[i].status == Rejected);
    StatusCounts(
      Count(HasStatus(Pending), requests),
      Count(HasStatus(Approved), requests),
      Count(HasStatus(Rejected), requests))
  }

  predicate IsKnownStatus(status: string) {
    status == Pending || status == Approved || status == Rejected
  }

  /** The three tallies never exceed the number of rows, and they account for every row
      exactly when no row carries some other status (a row with any other status is
      counted nowhere). */
  lemma {:induction false} CountsCoverKnownStatuses(requests: seq<LeaveRequest>)
    ensures var c := CountsOf(requests); c.pending + c.approved + c.declined <= |requests|
    ensures var c := CountsOf(requests);
      c.pending + c.approved + c.declined == |requests|
      <==> forall i :: 0 <= i < |requests| ==> IsKnownStatus(requests[i].status)
    decreases |requests|
  {
    if |requests| > 0 {
      CountsCoverKnownStatuses(requests[1..]);
      var rest := requests[1..];
      assert forall i :: 0 <= i < |rest| ==> rest[i] == requests[i + 1];
      if forall i :: 0 <= i < |rest| ==> IsKnownStatus(rest[i].status) {
        assert IsKnownStatus(requests[0].status) ==> forall i :: 0 <= i < |requests| ==> IsKnownStatus(requests[i].status) by {
          if IsKnownStatus(requests[0].status) {
            forall i | 0 <= i < |requests|
              ensures IsKnownStatus(requests[i].status)
            {
              if i > 0 { assert requests[i] == rest[i - 1]; }
            }
          }
        }
      }
    }
  }

  /** The days one request covers: `for (d = start; d <= end; d++)`. */
  function LeaveDays(start: int, end: int): (days: seq<int>)
    ensures |days| == if start <= end then end - start + 1 else 0
    ensures forall i :: 0 <= i < |days| ==> days[i] == start + i
    decreases end - start
  {
    if start > end then [] else [start] + LeaveDays(start + 1, end)
  }

  /** The covered days are exactly start..end, each once, in strictly increasing order. */
  lemma LeaveDaysExact(start: int, end: int)
    ensures forall d :: d in LeaveDays(start, end) <==> start <= d <= end
    ensures forall i, j :: 0 <= i < j < |LeaveDays(start, end)| ==> LeaveDays(start, end)[i] < LeaveDays(start, end)[j]
  {
    var days := LeaveDays(start, end);
    forall d | start <= d <= end
      ensures d in days
    {
      assert days[d - start] == d;
    }
  }

  /** A covered day appears exactly once in the expansion of one request. */
  lemma {:induction false} LeaveDaysMultiplicity(start: int, end: int, d: int)
    ensures multiset(LeaveDays(start, end))[d] == if start <= d <= end then 1 else 0
    decreases end - start
  {
    if start <= end {
      LeaveDaysMultiplicity(start + 1, end, d);
      assert multiset(LeaveDays(start, end)) == multiset{start} + multiset(LeaveDays(start + 1, end));
    }
  }

  function DayCount(r: LeaveRequest): nat {
    if r.startDate <= r.endDate then r.endDate - r.startDate + 1 else 0
  }

  /** `flatMap` of the day expansion over a list of requests, in list order. */
  function ExpandAll(requests: seq<LeaveRequest>): (days: seq<int>)
  {
    if |requests| == 0 then []
    else LeaveDays(requests[0].startDate, requests[0].endDate) + ExpandAll(requests[1..])
  }

  /** `approvedLeaveDates`: the calendar highlights. */
  function ApprovedLeaveDates(requests: seq<LeaveRequest>): seq<int> {
    ExpandAll(Filter(HasStatus(Approved), requests))
  }

  function TotalDays(requests: seq<LeaveRequest>): nat {
    if |requests| == 0 then 0 else DayCount(requests[0]) + TotalDays(requests[1..])
  }

  /** Number of approved requests whose range contains day `d`. */
  function Coverage(requests: seq<LeaveRequest>, d: int): nat {
    if |requests| == 0 then 0
    else
      (if requests[0].status == Approved && requests[0].startDate <= d <= requests[0].endDate then 1 else 0)
      + Coverage(requests[1..], d)
  }

  /** The flattened list is as long as the sum of the per-request day counts. */
  lemma {:induction false} ExpandAllLength(requests: seq<LeaveRequest>)
    ensures |ExpandAll(requests)| == TotalDays(requests)
    decreases |requests|
  {
    if |requests| > 0 {
      ExpandAllLength(requests[1..]);
    }
  }

  /** Day `d` is highlighted once per approved request that covers it: only approved
      requests contribute, and overlapping ranges keep their duplicates. */
  lemma {:induction false} HighlightMultiplicity(requests: seq<LeaveRequest>, d: int)
    ensures multiset(ApprovedLeaveDates(requests))[d] == Coverage(requests, d)
    decreases |requests|
  {
    if |requests| > 0 {
      HighlightMultiplicity(requests[1..], d);
      var r := requests[0];
      var rest := Filter(HasStatus(Approved), requests[1..]);
      if r.status == Approved {
        assert Filter(HasStatus(Approved), requests) == [r] + rest;
        assert ([r] + rest)[1..] == rest;
        LeaveDaysMultiplicity(r.startDate, r.endDate, d);
      } else {
        assert Filter(HasStatus(Approved), requests) == rest;
      }
    }
  }

  /** A day is highlighted exactly when some approved request covers it. */
  lemma HighlightedIffCovered(requests: seq<LeaveRequest>, d: int)
    ensures d in ApprovedLeaveDates(requests)
        <==> exists i :: 0 <= i < |requests| && requests[i].status == Approved
                         && requests[i].startDate <= d <= requests[i].endDate
  {
    HighlightMultiplicity(requests, d);
    CoveragePositive(requests, d);
  }

  lemma {:induction false} CoveragePositive(requests: seq<LeaveRequest>, d: int)
    ensures Coverage(requests, d) > 0
        <==> exists i :: 0 <= i < |requests| && requests[i].status == Approved
                         && requests[i].startDate <= d <= requests[i].endDate
    decreases |requests|
  {
    if |requests| > 0 {
      CoveragePositive(requests[1..], d);
      var rest := requests[1..];
      if exists i :: 0 <= i < |rest| && rest[i].status == Approved && rest[i].startDate <= d <= rest[i].endDate {
        var i :| 0 <= i < |rest| && rest[i].status == Approved && rest[i].startDate <= d <= rest[i].endDate;
        assert requests[i + 1] == rest[i];
      }
      if exists i :: 0 <= i < |requests| && requests[i].status == Approved && requests[i].startDate <= d <= requests[i].endDate {
        var i :| 0 <= i < |requests| && requests[i].status == Approved && requests[i].startDate <= d <= requests[i].endDate;
        if i > 0 {
          assert rest[i - 1] == requests[i];
        }
      }
    }
  }

  /** The query orders rows by `created_at`, newest first. */
  ghost predicate NewestFirst(requests: seq<LeaveRequest>) {
    forall i, j :: 0 <= i < j < |requests| ==> requests[i].createdAt >= requests[j].createdAt
  }

  const RecentLimit := 5

  /** `leaveRequests.slice(0, 5)`: the "Recent Requests" panel. */
  function Recent(requests: seq<LeaveRequest>): (shown: seq<LeaveRequest>)
    ensures |shown| == Min(RecentLimit, |requests|)
    ensures shown <= requests
  {
    requests[..Min(RecentLimit, |requests|)]
  }

  /** On newest-first rows the panel shows the newest requests: none left out is newer
      than one shown. */
  lemma RecentAreNewest(requests: seq<LeaveRequest>)
    requires NewestFirst(requests)
    ensures forall i, j :: 0 <= i < |Recent(requests)| <= j < |requests| ==>
      Recent(requests)[i].createdAt >= requests[j].createdAt
  {
  }
}
