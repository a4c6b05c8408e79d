/** The management statistics screen (`components/hr/hospital-stats.tsx`): patients and
    payments since the start of a period, the revenue, a per-department table built in
    two passes, and the share of each payment method. `timeOf` stands for
    `new Date(s).getTime()`; the calendar boundaries of "today" and "this month" depend
    on the local time zone and are inputs. */
module HospitalStats {
  import opened Seqs
  import opened Types
  import opened Sorting
  import DailySummary

  /** Seven days, in milliseconds. */
  const WeekMs: int := 7 * 24 * 60 * 60 * 1000

  /** The switch on `selectedPeriod`; an unknown period counts from the start of the day. */
  function PeriodStart(period: string, nowMs: int, dayStartMs: int, monthStartMs: int): (r: int)
    ensures period == "week" ==> r == nowMs - 604800000
    ensures period == "month" ==> r == monthStartMs
    ensures period != "week" && period != "month" ==> r == dayStartMs
  {
    if period == "today" then dayStartMs
    else if period == "week" then nowMs - WeekMs
    else if period == "month" then monthStartMs
    else dayStartMs
  }

  function RegisteredSince(startMs: int, timeOf: string -> int): Patient -> bool {
    (p: Patient) => timeOf(p.registrationDate) >= startMs
  }

  function PaidSince(startMs: int, timeOf: string -> int): Payment -> bool {
    (p: Payment) => timeOf(p.date) >= startMs
  }

  /** `filteredPatients`. */
  function PeriodPatients(ps: seq<Patient>, startMs: int, timeOf: string -> int): (r: seq<Patient>)
    ensures forall i :: 0 <= i < |r| ==> r[i] in ps && timeOf(r[i].registrationDate) >= startMs
    ensures forall i :: 0 <= i < |ps| && timeOf(ps[i].registrationDate) >= startMs ==> ps[i] in r
    ensures IsSubseq(r, ps)
  {
    Filter(ps, RegisteredSince(startMs, timeOf))
  }

  /** `filteredPayments`. */
  function PeriodPayments(pays: seq<Payment>, startMs: int, timeOf: string -> int): (r: seq<Payment>)
    ensures forall i :: 0 <= i < |r| ==> r[i] in pays && timeOf(r[i].date) >= startMs
    ensures forall i :: 0 <= i < |pays| && timeOf(pays[i].date) >= startMs ==> pays[i] in r
    ensures IsSubseq(r, pays)
  {
    Filter(pays, PaidSince(startMs, timeOf))
  }

  /** A longer period keeps everything a shorter one keeps. */
  lemma {:induction false} PeriodMonotone(ps: seq<Patient>, earlier: int, later: int, timeOf: string -> int)
    requires earlier <= later
    ensures IsSubseq(PeriodPatients(ps, later, timeOf), PeriodPatients(ps, earlier, timeOf))
    ensures |PeriodPatients(ps, later, timeOf)| <= |PeriodPatients(ps, earlier, timeOf)|
  {
    FilterFilter(ps, RegisteredSince(earlier, timeOf), RegisteredSince(later, timeOf), RegisteredSince(later, timeOf));
  }

  function IsHospitalized(p: Patient): bool {
    p.isHospitalized
  }

  function IsCompleted(p: Patient): bool {
    p.status == Completed
  }

  /** The "hospitalized" and "completed consultations" cards. */
  function HeadCounts(ps: seq<Patient>): (r: (nat, nat))
    ensures r.0 <= |ps| && r.1 <= |ps|
    ensures r.0 == |Filter(ps, IsHospitalized)| && r.1 == |Filter(ps, IsCompleted)|
  {
    (Count(ps, IsHospitalized), Count(ps, IsCompleted))
  }

  // ---- departmentStats ----

  /** One row of the department table. */
  datatype DeptStat = DeptStat(dept: string, patients: nat, revenue: int, consultations: nat)

  function RowPatients(s: DeptStat): int {
    s.patients
  }

  function RowRevenue(s: DeptStat): int {
    s.revenue
  }

  function Keyed(dept: string): DeptStat -> bool {
    (s: DeptStat) => s.dept == dept
  }

  /** `if (patient.department)`: an absent or empty department is skipped. */
  function HasDepartment(p: Patient): bool {
    p.department.Some? && p.department.value != ""
  }

  /** One step of the reduce over patients. */
  function Counted(e: seq<DeptStat>, p: Patient): seq<DeptStat> {
    if !HasDepartment(p) then e
    else CountedIn(e, p.department.value, if p.status == Completed then 1 else 0)
  }

  /** One more patient for department `d`, `done` of them completed. */
  function CountedIn(e: seq<DeptStat>, d: string, done: nat): seq<DeptStat> {
    var k := FirstIndex(e, Keyed(d));
    if k < |e| then e[k := e[k].(patients := e[k].patients + 1, consultations := e[k].consultations + done)]
    else e + [DeptStat(d, 1, 0, done)]
  }

  /** The table after the first pass. */
  function PatientBreakdown(ps: seq<Patient>): seq<DeptStat>
    decreases |ps|
  {
    if ps == [] then [] else Counted(PatientBreakdown(ps[..|ps| - 1]), ps[|ps| - 1])
  }

  /** Distinct departments, none without a patient, no more consultations than patients. */
  ghost predicate RowsValid(e: seq<DeptStat>) {
    (forall i, j :: 0 <= i < j < |e| ==> e[i].dept != e[j].dept) &&
    (forall k :: 0 <= k < |e| ==> 1 <= e[k].patients && e[k].consultations <= e[k].patients)
  }

  lemma {:induction false} PatientBreakdownFacts(ps: seq<Patient>)
    ensures RowsValid(PatientBreakdown(ps))
    ensures forall k :: 0 <= k < |PatientBreakdown(ps)| ==> PatientBreakdown(ps)[k].revenue == 0
    ensures SumBy(PatientBreakdown(ps), RowPatients) == Count(ps, HasDepartment)
    decreases |ps|
  {
    if ps != [] {
      var init, last := ps[..|ps| - 1], ps[|ps| - 1];
      assert ps == init + [last];
      PatientBreakdownFacts(init);
      var e := PatientBreakdown(init);
      assert PatientBreakdown(ps) == Counted(e, last);
      CountedFacts(e, last);
      FilterSnoc(init, last, HasDepartment);
      assert Count(ps, HasDepartment) == Count(init, HasDepartment) + (if HasDepartment(last) then 1 else 0);
    }
  }

  lemma CountedFacts(e: seq<DeptStat>, p: Patient)
    requires RowsValid(e) && forall k :: 0 <= k < |e| ==> e[k].revenue == 0
    ensures RowsValid(Counted(e, p))
    ensures forall k :: 0 <= k < |Counted(e, p)| ==> Counted(e, p)[k].revenue == 0
    ensures SumBy(Counted(e, p), RowPatients) == SumBy(e, RowPatients) + (if HasDepartment(p) then 1 else 0)
  {
    if HasDepartment(p) {
      CountedInFacts(e, p.department.value, if p.status == Completed then 1 else 0);
    }
  }

  lemma CountedInFacts(e: seq<DeptStat>, d: string, done: nat)
    requires RowsValid(e) && forall k :: 0 <= k < |e| ==> e[k].revenue == 0
    requires done <= 1
    ensures RowsValid(CountedIn(e, d, done))
    ensures forall k :: 0 <= k < |CountedIn(e, d, done)| ==> CountedIn(e, d, done)[k].revenue == 0
    ensures SumBy(CountedIn(e, d, done), RowPatients) == SumBy(e, RowPatients) + 1
  {
    var k := FirstIndex(e, Keyed(d));
    if k < |e| {
      BumpedRow(e, k, done, CountedIn(e, d, done));
    } else {
      NewRow(e, d, done, CountedIn(e, d, done));
    }
  }

  /** A department already in the table gets one more patient. */
  lemma BumpedRow(e: seq<DeptStat>, k: nat, done: nat, r: seq<DeptStat>)
    requires RowsValid(e) && forall j :: 0 <= j < |e| ==> e[j].revenue == 0
    requires k < |e| && done <= 1
    requires r == e[k := e[k].(patients := e[k].patients + 1, consultations := e[k].consultations + done)]
    ensures RowsValid(r)
    ensures forall j :: 0 <= j < |r| ==> r[j].revenue == 0
    ensures SumBy(r, RowPatients) == SumBy(e, RowPatients) + 1
  {
    SumByUpdate(e, k, r[k], RowPatients);
    assert forall j :: 0 <= j < |e| ==> r[j].dept == e[j].dept;
  }

  /** A department not yet in the table gets a row of its own. */
  lemma NewRow(e: seq<DeptStat>, d: string, done: nat, r: seq<DeptStat>)
    requires RowsValid(e) && forall j :: 0 <= j < |e| ==> e[j].revenue == 0
    requires (forall j :: 0 <= j < |e| ==> e[j].dept != d) && done <= 1
    requires r == e + [DeptStat(d, 1, 0, done)]
    ensures RowsValid(r)
    ensures forall j :: 0 <= j < |r| ==> r[j].revenue == 0
    ensures SumBy(r, RowPatients) == SumBy(e, RowPatients) + 1
  {
    SumBySnoc(e, r[|e|], RowPatients);
    forall i, j | 0 <= i < j < |r| ensures r[i].dept != r[j].dept {
      assert r[i] == e[i];
      if j < |e| {
        assert r[j] == e[j];
      }
    }
    forall j | 0 <= j < |r| ensures 1 <= r[j].patients && r[j].consultations <= r[j].patients && r[j].revenue == 0 {
      if j < |e| {
        assert r[j] == e[j];
      }
    }
  }

  // ---- what the first pass counts ----

  /** The departments that get a row: those of the patients that have one. */
  function DeptsOf(ps: seq<Patient>): set<string> {
    set i | 0 <= i < |ps| && HasDepartment(ps[i]) :: ps[i].department.value
  }

  function KeysOf(e: seq<DeptStat>): set<string> {
    set k | 0 <= k < |e| :: e[k].dept
  }

  function InDeptOf(d: string): Patient -> bool {
    (p: Patient) => HasDepartment(p) && p.department.value == d
  }

  function CompletedIn(d: string): Patient -> bool {
    (p: Patient) => HasDepartment(p) && p.department.value == d && p.status == Completed
  }

  /** Each row counts exactly its own department's patients, and the completed ones. */
  ghost predicate RowsCount(e: seq<DeptStat>, ps: seq<Patient>) {
    forall k :: 0 <= k < |e| ==>
      e[k].patients == Count(ps, InDeptOf(e[k].dept)) && e[k].consultations == Count(ps, CompletedIn(e[k].dept))
  }

  /** The first pass gives a row to exactly the departments of the patients, and each
      row holds that department's number of patients and of completed patients. */
  lemma {:induction false} PatientBreakdownRows(ps: seq<Patient>)
    ensures KeysOf(PatientBreakdown(ps)) == DeptsOf(ps)
    ensures RowsCount(PatientBreakdown(ps), ps)
    decreases |ps|
  {
    if ps != [] {
      var init, last := ps[..|ps| - 1], ps[|ps| - 1];
      assert ps == init + [last];
      PatientBreakdownRows(init);
      PatientBreakdownFacts(init);
      var e := PatientBreakdown(init);
      assert PatientBreakdown(ps) == Counted(e, last);
      CountedKeys(e, init, last);
      forall j | 0 <= j < |Counted(e, last)|
        ensures Counted(e, last)[j].patients == Count(init + [last], InDeptOf(Counted(e, last)[j].dept))
        ensures Counted(e, last)[j].consultations == Count(init + [last], CompletedIn(Counted(e, last)[j].dept))
      {
        CountedRow(e, init, last, j);
      }
    }
  }

  lemma DeptsSnoc(init: seq<Patient>, last: Patient)
    ensures DeptsOf(init + [last]) == DeptsOf(init) + (if HasDepartment(last) then {last.department.value} else {})
  {
    var ps := init + [last];
    forall d | d in DeptsOf(ps) ensures d in DeptsOf(init) + (if HasDepartment(last) then {last.department.value} else {}) {
      var i :| 0 <= i < |ps| && HasDepartment(ps[i]) && ps[i].department.value == d;
      if i < |init| {
        assert init[i] == ps[i];
      }
    }
    forall d | d in DeptsOf(init) ensures d in DeptsOf(ps) {
      var i :| 0 <= i < |init| && HasDepartment(init[i]) && init[i].department.value == d;
      assert ps[i] == init[i];
    }
    assert ps[|init|] == last;
  }

  /** One step of the reduce keeps the row keys equal to the departments seen. */
  lemma CountedKeys(e: seq<DeptStat>, init: seq<Patient>, last: Patient)
    requires KeysOf(e) == DeptsOf(init)
    ensures KeysOf(Counted(e, last)) == DeptsOf(init + [last])
  {
    DeptsSnoc(init, last);
    if HasDepartment(last) {
      var d := last.department.value;
      var k := FirstIndex(e, Keyed(d));
      var r := Counted(e, last);
      if k < |e| {
        assert forall j :: 0 <= j < |e| ==> r[j].dept == e[j].dept;
        assert e[k].dept == d;
        assert KeysOf(r) == KeysOf(e);
      } else {
        assert forall j :: 0 <= j < |e| ==> r[j] == e[j];
        assert KeysOf(r) == KeysOf(e) + {d} by {
          forall x | x in KeysOf(r) ensures x in KeysOf(e) + {d} {
            var j :| 0 <= j < |r| && r[j].dept == x;
          }
          assert r[|e|].dept == d;
        }
      }
    }
  }

  /** One row after one step of the reduce. */
  lemma CountedRow(e: seq<DeptStat>, init: seq<Patient>, last: Patient, j: nat)
    requires RowsValid(e) && KeysOf(e) == DeptsOf(init) && RowsCount(e, init)
    requires j < |Counted(e, last)|
    ensures Counted(e, last)[j].patients == Count(init + [last], InDeptOf(Counted(e, last)[j].dept))
    ensures Counted(e, last)[j].consultations == Count(init + [last], CompletedIn(Counted(e, last)[j].dept))
  {
    if !HasDepartment(last) || last.department.value != Counted(e, last)[j].dept {
      CountedOther(e, init, last, j);
    } else if j < |e| {
      CountedHit(e, init, last, j);
    } else {
      CountedNew(e, init, last, j);
    }
  }

  /** A row of another department is carried over unchanged. */
  lemma CountedOther(e: seq<DeptStat>, init: seq<Patient>, last: Patient, j: nat)
    requires RowsCount(e, init)
    requires j < |Counted(e, last)|
    requires !HasDepartment(last) || last.department.value != Counted(e, last)[j].dept
    ensures Counted(e, last)[j].patients == Count(init + [last], InDeptOf(Counted(e, last)[j].dept))
    ensures Counted(e, last)[j].consultations == Count(init + [last], CompletedIn(Counted(e, last)[j].dept))
  {
    if HasDepartment(last) {
      var k := FirstIndex(e, Keyed(last.department.value));
      if k < |e| {
        assert j != k;
      }
    }
    assert j < |e| && Counted(e, last)[j] == e[j];
    FilterSnoc(init, last, InDeptOf(e[j].dept));
    FilterSnoc(init, last, CompletedIn(e[j].dept));
  }

  /** The department's existing row counts the patient. */
  lemma CountedHit(e: seq<DeptStat>, init: seq<Patient>, last: Patient, j: nat)
    requires RowsValid(e) && RowsCount(e, init)
    requires HasDepartment(last) && j < |e| && j < |Counted(e, last)|
    requires Counted(e, last)[j].dept == last.department.value
    ensures Counted(e, last)[j].patients == Count(init + [last], InDeptOf(Counted(e, last)[j].dept))
    ensures Counted(e, last)[j].consultations == Count(init + [last], CompletedIn(Counted(e, last)[j].dept))
  {
    var d := last.department.value;
    var k := FirstIndex(e, Keyed(d));
    assert k < |e| ==> Counted(e, last)[j].dept == e[j].dept;
    assert Keyed(d)(e[j]);
    assert k == j;
    FilterSnoc(init, last, InDeptOf(d));
    FilterSnoc(init, last, CompletedIn(d));
  }

  /** A department seen for the first time gets a row for this one patient. */
  lemma CountedNew(e: seq<DeptStat>, init: seq<Patient>, last: Patient, j: nat)
    requires KeysOf(e) == DeptsOf(init)
    requires HasDepartment(last) && |e| <= j < |Counted(e, last)|
    ensures Counted(e, last)[j].patients == Count(init + [last], InDeptOf(Counted(e, last)[j].dept))
    ensures Counted(e, last)[j].consultations == Count(init + [last], CompletedIn(Counted(e, last)[j].dept))
  {
    var d := last.department.value;
    var k := FirstIndex(e, Keyed(d));
    assert k == |e| && j == |e|;
    assert Counted(e, last)[j] == DeptStat(d, 1, 0, if last.status == Completed then 1 else 0);
    assert d !in KeysOf(e);
    forall i | 0 <= i < |init| ensures !InDeptOf(d)(init[i]) && !CompletedIn(d)(init[i]) {
      if HasDepartment(init[i]) {
        assert init[i].department.value in DeptsOf(init);
      }
    }
    FilterNone(init, InDeptOf(d));
    FilterNone(init, CompletedIn(d));
    FilterSnoc(init, last, InDeptOf(d));
    FilterSnoc(init, last, CompletedIn(d));
  }

  /** The reduce over the period's patients. */
  method DepartmentStats(ps: seq<Patient>) returns (stats: seq<DeptStat>)
    ensures stats == PatientBreakdown(ps)
    ensures RowsValid(stats) && forall k :: 0 <= k < |stats| ==> stats[k].revenue == 0
    ensures KeysOf(stats) == DeptsOf(ps) && RowsCount(stats, ps)
    ensures SumBy(stats, RowPatients) == Count(ps, HasDepartment)
  {
    stats := [];
    for i := 0 to |ps|
      invariant stats == PatientBreakdown(ps[..i])
    {
      assert ps[..i + 1][..i] == ps[..i];
      stats := Counted(stats, ps[i]);
    }
    assert ps[..|ps|] == ps;
    PatientBreakdownFacts(ps);
    PatientBreakdownRows(ps);
  }

  // ---- the revenue pass ----

  /** The payment's department has a row. */
  function Listed(e: seq<DeptStat>): Payment -> bool {
    (pay: Payment) => FirstIndex(e, Keyed(pay.department)) < |e|
  }

  /** One step of the `forEach`: an unlisted department's payment is dropped. */
  function Credited(e: seq<DeptStat>, pay: Payment): seq<DeptStat> {
    var k := FirstIndex(e, Keyed(pay.department));
    if k < |e| then e[k := e[k].(revenue := e[k].revenue + pay.amount)] else e
  }

  function Credit(e: seq<DeptStat>, pays: seq<Payment>): seq<DeptStat>
    decreases |pays|
  {
    if pays == [] then e else Credited(Credit(e, pays[..|pays| - 1]), pays[|pays| - 1])
  }

  /** The rows keep their departments, patients and consultations. */
  ghost predicate SameRows(r: seq<DeptStat>, e: seq<DeptStat>) {
    |r| == |e| &&
    forall k :: 0 <= k < |e| ==>
      r[k].dept == e[k].dept && r[k].patients == e[k].patients && r[k].consultations == e[k].consultations
  }

  /** Only revenue changes, and it grows by exactly the payments of listed departments. */
  lemma {:induction false} CreditFacts(e: seq<DeptStat>, pays: seq<Payment>)
    ensures SameRows(Credit(e, pays), e)
    ensures SumBy(Credit(e, pays), RowRevenue) == SumBy(e, RowRevenue) + DailySummary.Total(Filter(pays, Listed(e)))
    decreases |pays|
  {
    if pays != [] {
      var init, last := pays[..|pays| - 1], pays[|pays| - 1];
      assert pays == init + [last];
      CreditFacts(e, init);
      var c := Credit(e, init);
      assert Credit(e, pays) == Credited(c, last);
      FirstIndexSame(c, e, Keyed(last.department), Keyed(last.department));
      CreditedSum(c, last);
      DailySummary.FilteredTotalSnoc(init, last, Listed(e));
    }
  }

  lemma CreditedSum(e: seq<DeptStat>, pay: Payment)
    ensures SameRows(Credited(e, pay), e)
    ensures SumBy(Credited(e, pay), RowRevenue) ==
      SumBy(e, RowRevenue) + (if FirstIndex(e, Keyed(pay.department)) < |e| then pay.amount else 0)
  {
    var k := FirstIndex(e, Keyed(pay.department));
    if k < |e| {
      SumByUpdate(e, k, Credited(e, pay)[k], RowRevenue);
    }
  }

  /** The payments that `Credited` adds to row `k`: those whose department is first
      found there. */
  function RoutedTo(e: seq<DeptStat>, k: nat): Payment -> bool {
    (pay: Payment) => FirstIndex(e, Keyed(pay.department)) == k
  }

  /** After the pass, each row has gained exactly the payments routed to it. */
  lemma CreditRevenue(e: seq<DeptStat>, pays: seq<Payment>)
    ensures |Credit(e, pays)| == |e|
    ensures forall k :: 0 <= k < |e| ==>
      Credit(e, pays)[k].revenue == e[k].revenue + DailySummary.Total(Filter(pays, RoutedTo(e, k)))
  {
    CreditFacts(e, pays);
    forall k | 0 <= k < |e|
      ensures Credit(e, pays)[k].revenue == e[k].revenue + DailySummary.Total(Filter(pays, RoutedTo(e, k)))
    {
      CreditRevenueAt(e, pays, k);
    }
  }

  lemma {:induction false} CreditRevenueAt(e: seq<DeptStat>, pays: seq<Payment>, k: nat)
    requires k < |e|
    ensures k < |Credit(e, pays)|
    ensures Credit(e, pays)[k].revenue == e[k].revenue + DailySummary.Total(Filter(pays, RoutedTo(e, k)))
    decreases |pays|
  {
    if pays != [] {
      var init, last := pays[..|pays| - 1], pays[|pays| - 1];
      assert pays == init + [last];
      CreditRevenueAt(e, init, k);
      CreditFirstIndex(e, init, last.department);
      CreditedRow(Credit(e, init), e, init, last, k);
    }
  }

  /** Crediting keeps the length and where each department is first found. */
  lemma CreditFirstIndex(e: seq<DeptStat>, pays: seq<Payment>, d: string)
    ensures |Credit(e, pays)| == |e|
    ensures FirstIndex(Credit(e, pays), Keyed(d)) == FirstIndex(e, Keyed(d))
  {
    CreditFacts(e, pays);
    FirstIndexSame(Credit(e, pays), e, Keyed(d), Keyed(d));
  }

  /** One payment adds its amount to the row its department is first found in. */
  lemma CreditedRow(c: seq<DeptStat>, e: seq<DeptStat>, init: seq<Payment>, last: Payment, k: nat)
    requires |c| == |e| && k < |e|
    requires FirstIndex(c, Keyed(last.department)) == FirstIndex(e, Keyed(last.department))
    requires c[k].revenue == e[k].revenue + DailySummary.Total(Filter(init, RoutedTo(e, k)))
    ensures Credited(c, last)[k].revenue == e[k].revenue + DailySummary.Total(Filter(init + [last], RoutedTo(e, k)))
  {
    DailySummary.FilteredTotalSnoc(init, last, RoutedTo(e, k));
  }

  /** With distinct departments, the payments routed to a row are its department's. */
  lemma RoutedToOwn(e: seq<DeptStat>, k: nat, pays: seq<Payment>)
    requires forall i, j :: 0 <= i < j < |e| ==> e[i].dept != e[j].dept
    requires k < |e|
    ensures Filter(pays, RoutedTo(e, k)) == Filter(pays, DailySummary.PaidTo(e[k].dept))
  {
    forall i | 0 <= i < |pays| ensures RoutedTo(e, k)(pays[i]) == DailySummary.PaidTo(e[k].dept)(pays[i]) {
      var d := pays[i].department;
      var j := FirstIndex(e, Keyed(d));
      if d == e[k].dept {
        assert Keyed(d)(e[k]);
        assert j <= k && e[j].dept == d;
      }
    }
    FilterSame(pays, RoutedTo(e, k), DailySummary.PaidTo(e[k].dept));
  }

  /** The department table, `departmentStats` after both passes. */
  function Table(ps: seq<Patient>, pays: seq<Payment>): seq<DeptStat> {
    Credit(PatientBreakdown(ps), pays)
  }

  /** The table holds one row for each department a patient has, and no other; a row's
      patients, completed consultations and revenue are that department's own. */
  lemma TableRows(ps: seq<Patient>, pays: seq<Payment>)
    ensures RowsValid(Table(ps, pays))
    ensures KeysOf(Table(ps, pays)) == DeptsOf(ps) && RowsCount(Table(ps, pays), ps)
    ensures forall k :: 0 <= k < |Table(ps, pays)| ==>
      Table(ps, pays)[k].revenue == DailySummary.Total(Filter(pays, DailySummary.PaidTo(Table(ps, pays)[k].dept)))
  {
    var e := PatientBreakdown(ps);
    PatientBreakdownFacts(ps);
    PatientBreakdownRows(ps);
    CreditFacts(e, pays);
    SameRowsKeep(Table(ps, pays), e, ps);
    TableRevenue(e, pays, Table(ps, pays));
  }

  /** Rows that keep their departments and counts keep every fact about them. */
  lemma SameRowsKeep(r: seq<DeptStat>, e: seq<DeptStat>, ps: seq<Patient>)
    requires SameRows(r, e) && RowsValid(e) && RowsCount(e, ps)
    ensures RowsValid(r) && RowsCount(r, ps) && KeysOf(r) == KeysOf(e)
  {
    assert forall k :: 0 <= k < |e| ==> r[k].dept == e[k].dept;
  }

  /** Crediting rows that start at zero and have distinct departments leaves each with
      the total of its own department's payments. */
  lemma TableRevenue(e: seq<DeptStat>, pays: seq<Payment>, t: seq<DeptStat>)
    requires RowsValid(e) && forall k :: 0 <= k < |e| ==> e[k].revenue == 0
    requires t == Credit(e, pays)
    ensures forall k :: 0 <= k < |t| ==> t[k].revenue == DailySummary.Total(Filter(pays, DailySummary.PaidTo(t[k].dept)))
  {
    CreditFacts(e, pays);
    CreditRevenue(e, pays);
    forall k | 0 <= k < |t| ensures t[k].revenue == DailySummary.Total(Filter(pays, DailySummary.PaidTo(t[k].dept))) {
      RoutedToOwn(e, k, pays);
    }
  }

  /** The `forEach` over the period's payments, adding in place. */
  method AddRevenue(stats: seq<DeptStat>, pays: seq<Payment>) returns (r: seq<DeptStat>)
    ensures r == Credit(stats, pays)
    ensures SameRows(r, stats)
    ensures forall k :: 0 <= k < |r| ==> r[k].revenue == stats[k].revenue + DailySummary.Total(Filter(pays, RoutedTo(stats, k)))
    ensures SumBy(r, RowRevenue) == SumBy(stats, RowRevenue) + DailySummary.Total(Filter(pays, Listed(stats)))
  {
    r := stats;
    for i := 0 to |pays|
      invariant r == Credit(stats, pays[..i])
    {
      assert pays[..i + 1][..i] == pays[..i];
      r := Credited(r, pays[i]);
    }
    assert pays[..|pays|] == pays;
    CreditFacts(stats, pays);
    CreditRevenue(stats, pays);
  }

  /** Both passes, as the screen runs them on the period's patients and payments. */
  method BuildTable(ps: seq<Patient>, pays: seq<Payment>) returns (t: seq<DeptStat>)
    ensures t == Table(ps, pays)
    ensures RowsValid(t) && KeysOf(t) == DeptsOf(ps) && RowsCount(t, ps)
    ensures forall k :: 0 <= k < |t| ==> t[k].revenue == DailySummary.Total(Filter(pays, DailySummary.PaidTo(t[k].dept)))
  {
    var stats := DepartmentStats(ps);
    t := AddRevenue(stats, pays);
    TableRows(ps, pays);
  }

  /** With non-negative amounts the department revenues never add up to more than the
      period's revenue: payments of departments without a patient in the period, and of
      an empty department, are counted in the total only. */
  lemma RevenueBounded(ps: seq<Patient>, pays: seq<Payment>)
    requires forall i :: 0 <= i < |pays| ==> pays[i].amount >= 0
    ensures SumBy(Credit(PatientBreakdown(ps), pays), RowRevenue) <= DailySummary.Total(pays)
  {
    var e := PatientBreakdown(ps);
    PatientBreakdownFacts(ps);
    CreditFacts(e, pays);
    ZeroRevenue(e);
    SumByFilterLe(pays, DailySummary.Amount, Listed(e));
  }

  lemma {:induction false} ZeroRevenue(e: seq<DeptStat>)
    requires forall k :: 0 <= k < |e| ==> e[k].revenue == 0
    ensures SumBy(e, RowRevenue) == 0
    decreases |e|
  {
    if e != [] {
      ZeroRevenue(e[..|e| - 1]);
    }
  }

  // ---- display ----

  /** The comparator `b.revenue - a.revenue`: the higher revenue first. */
  function RevenueDesc(): (DeptStat, DeptStat) -> bool {
    (a: DeptStat, b: DeptStat) => b.revenue - a.revenue <= 0
  }

  lemma RevenueDescTotalPreorder()
    ensures TotalPreorder(RevenueDesc())
  {
  }

  /** `Object.entries(departmentStats).sort(...)`, in place on the fresh entries array. */
  method RankByRevenue(a: array<DeptStat>)
    modifies a
    ensures a[..] == SortBy(old(a[..]), RevenueDesc())
    ensures multiset(a[..]) == multiset(old(a[..]))
    ensures forall i, j :: 0 <= i < j < a.Length ==> a[i].revenue >= a[j].revenue
  {
    ghost var before := a[..];
    InsertionSort(a, RevenueDesc());
    RevenueDescTotalPreorder();
    SortBySorted(before, RevenueDesc());
    forall i, j | 0 <= i < j < a.Length ensures a[i].revenue >= a[j].revenue {
      assert RevenueDesc()(a[..][i], a[..][j]);
    }
  }

  /** The average line: only a row with a consultation shows one. */
  function Average(s: DeptStat): (r: Option<int>)
    ensures r.Some? <==> s.consultations > 0
    ensures r.Some? ==> r.value == DailySummary.RoundedRatio(s.revenue, s.consultations)
  {
    if s.consultations > 0 then Some(DailySummary.RoundedRatio(s.revenue, s.consultations)) else None
  }

  /** `totalRevenue > 0 ? Math.round((amount / totalRevenue) * 100) : 0`, on exact ratios. */
  function Share(amount: int, total: int): (r: int)
    ensures total <= 0 ==> r == 0
    ensures total > 0 && 0 <= amount <= total ==> 0 <= r <= 100
  {
    if total > 0 then
      var r := DailySummary.RoundedRatio(100 * amount, total);
      PercentBounds(amount, total, r);
      r
    else 0
  }

  /** The rounded percentage of a part of a positive whole lies between 0 and 100. */
  lemma PercentBounds(a: int, t: int, r: int)
    requires t > 0
    requires 2 * r * t <= 2 * (100 * a) + t < 2 * (r + 1) * t
    ensures 0 <= a <= t ==> 0 <= r <= 100
  {
    if a < 0 || a > t {
    } else if r < 0 {
      MulMono(r + 1, 0, t);
    } else if r > 100 {
      MulMono(101, r, t);
    }
  }

  lemma MulMono(x: int, y: int, t: int)
    requires t > 0 && x <= y
    ensures x * t <= y * t
  {
    assert y * t - x * t == (y - x) * t;
  }

  /** With non-negative amounts every method's share is a percentage. */
  lemma MethodShareBounds(pays: seq<Payment>, via: PaymentMethod)
    requires forall i :: 0 <= i < |pays| ==> pays[i].amount >= 0
    ensures 0 <= Share(DailySummary.MethodTotal(pays, via), DailySummary.Total(pays)) <= 100
  {
    var f := Filter(pays, DailySummary.ByMethod(via));
    SumByFilterLe(pays, DailySummary.Amount, DailySummary.ByMethod(via));
    SumByNonNegative(f, DailySummary.Amount);
  }
}
