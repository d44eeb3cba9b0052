/** The daily attendance view: the status select, the four per-status tallies and their
    shares of the total, and the status icon and badge. */
module Attendance {
  import opened Values
  import opened Seqs

  /** `'Present' | 'Late' | 'Absent' | 'Half Day'`. */
  datatype AttendanceStatus = Present | Late | Absent | HalfDay {
    function Label(): string {
      match this
      case Present => "Present"
      case Late => "Late"
      case Absent => "Absent"
      case HalfDay => "Half Day"
    }
  }

  datatype AttendanceRecord = AttendanceRecord(
    id: int,
    employeeName: string,
    date: string,
    checkIn: string,
    checkOut: string,
    status: AttendanceStatus,
    totalHours: real)

  /** The select value that means "every status". */
  const All := "all"

  predicate MatchesFilter(r: AttendanceRecord, filter: string) {
    filter == All || r.status.Label() == filter
  }

  function FilterMatcher(filter: string): AttendanceRecord -> bool {
    (r: AttendanceRecord) => MatchesFilter(r, filter)
  }

  /** `filteredData`: the records listed under the current select value. */
  function FilterByStatus(records: seq<AttendanceRecord>, filter: string): (r: seq<AttendanceRecord>)
    ensures |r| <= |records|
    ensures filter != All ==> forall x :: x in r <==> x in records && x.status.Label() == filter
    ensures forall x :: multiset(r)[x] == if MatchesFilter(x, filter) then multiset(records)[x] else 0
  {
    FilterMultiplicity(FilterMatcher(filter), records);
    Filter(FilterMatcher(filter), records)
  }

  /** "all" lists every record, in order. */
  lemma FilterAllKeepsEverything(records: seq<AttendanceRecord>)
    ensures FilterByStatus(records, All) == records
  {
    FilterKeepsAll(FilterMatcher(All), records);
  }

  /** Any other value lists exactly the records with that label, in their order. */
  lemma FilterSelectsInOrder(records: seq<AttendanceRecord>, filter: string)
    ensures IsSubsequence(FilterByStatus(records, filter), records)
    ensures forall i :: 0 <= i < |FilterByStatus(records, filter)| ==>
      filter == All || FilterByStatus(records, filter)[i].status.Label() == filter
  {
    FilterIsSubsequence(FilterMatcher(filter), records);
  }

  function HasStatus(s: AttendanceStatus): AttendanceRecord -> bool {
    (r: AttendanceRecord) => r.status == s
  }

  /** `attendanceStats`. */
  datatype Stats = Stats(present: nat, late: nat, absent: nat, halfDay: nat, total: nat)

  /** The number of positions in `filtered` holding a record with status `st`. */
  ghost function RecordsWith(filtered: seq<AttendanceRecord>, st: AttendanceStatus): nat {
    |set i | 0 <= i < |filtered| && filtered[i].status == st|
  }

  function StatsOf(filtered: seq<AttendanceRecord>): (s: Stats)
    ensures s.total == |filtered|
    ensures s.present <= s.total && s.late <= s.total && s.absent <= s.total && s.halfDay <= s.total
    ensures s.present == RecordsWith(filtered, Present) && s.late == RecordsWith(filtered, Late)
    ensures s.absent == RecordsWith(filtered, Absent) && s.halfDay == RecordsWith(filtered, HalfDay)
  {
    CountIsIndexCount(HasStatus(Present), filtered, set i | 0 <= i < |filtered| && filtered[i].status == Present);
    CountIsIndexCount(HasStatus(Late), filtered, set i | 0 <= i < |filtered| && filtered[i].status == Late);
    CountIsIndexCount(HasStatus(Absent), filtered, set i | 0 <= i < |filtered| && filtered[i].status == Absent);
    CountIsIndexCount(HasStatus(HalfDay), filtered, set i | 0 <= i < |filtered| && filtered[i].status == HalfDay);
    Stats(
      Count(HasStatus(Present), filtered),
      Count(HasStatus(Late), filtered),
      Count(HasStatus(Absent), filtered),
      Count(HasStatus(HalfDay), filtered),
      |filtered|)
  }

  /** Every record carries one of the four statuses, so the tallies add up to the total. */
  lemma {:induction false} TalliesSumToTotal(filtered: seq<AttendanceRecord>)
    ensures var s := StatsOf(filtered); s.present + s.late + s.absent + s.halfDay == s.total
    decreases |filtered|
  {
    if |filtered| > 0 {
      TalliesSumToTotal(filtered[1..]);
    }
  }

  /** Under a specific status select, that status's tally is the total and every other
      tally is zero. */
  lemma SpecificFilterTallies(records: seq<AttendanceRecord>, status: AttendanceStatus)
    ensures var s := StatsOf(FilterByStatus(records, status.Label()));
      && (status == Present ==> s.present == s.total)
      && (status == Late ==> s.late == s.total)
      && (status == Absent ==> s.absent == s.total)
      && (status == HalfDay ==> s.halfDay == s.total)
    ensures var s := StatsOf(FilterByStatus(records, status.Label()));
      && (status != Present ==> s.present == 0)
      && (status != Late ==> s.late == 0)
      && (status != Absent ==> s.absent == 0)
      && (status != HalfDay ==> s.halfDay == 0)
  {
    var filtered := FilterByStatus(records, status.Label());
    assert forall i :: 0 <= i < |filtered| ==> filtered[i].status == status by {
      forall i | 0 <= i < |filtered|
        ensures filtered[i].status == status
      {
        assert filtered[i] in filtered;
      }
    }
    NoneOtherCounted(filtered, status);
    TalliesSumToTotal(filtered);
  }

  /** In a list where every record has status `st`, no other status is counted. */
  lemma {:induction false} NoneOtherCounted(filtered: seq<AttendanceRecord>, st: AttendanceStatus)
    requires forall i :: 0 <= i < |filtered| ==> filtered[i].status == st
    ensures forall other :: other != st ==> Count(HasStatus(other), filtered) == 0
    decreases |filtered|
  {
    if |filtered| > 0 {
      NoneOtherCounted(filtered[1..], st);
    }
  }

  /** `(count / total) * 100` before `toFixed(1)`: the percentage shown on a card.
      With no records the source divides by zero and shows `NaN`; that case is `None`. */
  function PercentOfTotal(count: nat, total: nat): (p: Option<real>)
    ensures p.None? <==> total == 0
    ensures p.Some? ==> p.value * (total as real) == 100.0 * (count as real)
  {
    if total == 0 then None else Some(100.0 * (count as real) / (total as real))
  }

  /** A tally no larger than the total is between 0% and 100%. */
  lemma PercentInRange(count: nat, total: nat)
    requires total > 0 && count <= total
    ensures 0.0 <= PercentOfTotal(count, total).value <= 100.0
  {
    var p := PercentOfTotal(count, total).value;
    assert p * (total as real) <= 100.0 * (total as real);
  }

  /** The four cards' percentages add up to exactly 100% whenever a record is listed. */
  lemma PercentagesSumTo100(filtered: seq<AttendanceRecord>)
    requires |filtered| > 0
    ensures var s := StatsOf(filtered);
      PercentOfTotal(s.present, s.total).value + PercentOfTotal(s.late, s.total).value
      + PercentOfTotal(s.absent, s.total).value + PercentOfTotal(s.halfDay, s.total).value == 100.0
  {
    TalliesSumToTotal(filtered);
    StatsPercentages(StatsOf(filtered));
  }

  lemma StatsPercentages(s: Stats)
    requires s.total > 0 && s.present + s.late + s.absent + s.halfDay == s.total
    ensures PercentOfTotal(s.present, s.total).value + PercentOfTotal(s.late, s.total).value
      + PercentOfTotal(s.absent, s.total).value + PercentOfTotal(s.halfDay, s.total).value == 100.0
  {
    var a := PercentOfTotal(s.present, s.total);
    var b := PercentOfTotal(s.late, s.total);
    var c := PercentOfTotal(s.absent, s.total);
    var d := PercentOfTotal(s.halfDay, s.total);
    SharesOfAPartition(a.value, b.value, c.value, d.value,
      s.present as real, s.late as real, s.absent as real, s.halfDay as real, s.total as real);
  }

  /** Shares of four parts that make up a positive whole add up to 100. */
  lemma SharesOfAPartition(a: real, b: real, c: real, d: real, na: real, nb: real, nc: real, nd: real, t: real)
    requires t > 0.0 && na + nb + nc + nd == t
    requires a * t == 100.0 * na && b * t == 100.0 * nb && c * t == 100.0 * nc && d * t == 100.0 * nd
    ensures a + b + c + d == 100.0
  {
    calc {
      (a + b + c + d) * t;
      a * t + b * t + c * t + d * t;
      100.0 * na + 100.0 * nb + 100.0 * nc + 100.0 * nd;
      100.0 * t;
    }
    assert (a + b + c + d - 100.0) * t == 0.0;
  }

  const GreenBadge := "bg-green-100 text-green-800"
  const YellowBadge := "bg-yellow-100 text-yellow-800"
  const RedBadge := "bg-red-100 text-red-800"
  const BlueBadge := "bg-blue-100 text-blue-800"
  const GrayBadge := "bg-gray-100 text-gray-800"

  /** `getStatusColor`: a distinct badge class per status label, grey for anything else. */
  function StatusColor(status: string): (cls: string)
    ensures cls == GreenBadge <==> status == Present.Label()
    ensures cls == YellowBadge <==> status == Late.Label()
    ensures cls == RedBadge <==> status == Absent.Label()
    ensures cls == BlueBadge <==> status == HalfDay.Label()
    ensures cls == GrayBadge <==> status !in {Present.Label(), Late.Label(), Absent.Label(), HalfDay.Label()}
  {
    match status
    case "Present" => GreenBadge
    case "Late" => YellowBadge
    case "Absent" => RedBadge
    case "Half Day" => BlueBadge
    case _ => GrayBadge
  }

  datatype IconShape = CheckCircle | AlertCircle | XCircle | Clock

  /** A lucide icon with its colour class. */
  datatype Icon = Icon(shape: IconShape, color: string)

  /** `getStatusIcon`: a distinct icon per status label, a grey clock for anything else. */
  function StatusIcon(status: string): (icon: Icon)
    ensures icon == Icon(CheckCircle, "text-green-600") <==> status == Present.Label()
    ensures icon == Icon(AlertCircle, "text-yellow-600") <==> status == Late.Label()
    ensures icon == Icon(XCircle, "text-red-600") <==> status == Absent.Label()
    ensures icon == Icon(Clock, "text-blue-600") <==> status == HalfDay.Label()
    ensures icon == Icon(Clock, "text-gray-600") <==> status !in {Present.Label(), Late.Label(), Absent.Label(), HalfDay.Label()}
  {
    match status
    case "Present" => Icon(CheckCircle, "text-green-600")
    case "Late" => Icon(AlertCircle, "text-yellow-600")
    case "Absent" => Icon(XCircle, "text-red-600")
    case "Half Day" => Icon(Clock, "text-blue-600")
    case _ => Icon(Clock, "text-gray-600")
  }
}
