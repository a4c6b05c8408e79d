/** The cashier's daily summary (`components/cashier/daily-summary.tsx`): the payments
    of one date, their totals by payment method and by department, and the ten most
    recent ones. */
module DailySummary {
  import opened Seqs
  import opened Types
  import opened Text
  import opened Sorting

  function Amount(p: Payment): int {
    p.amount
  }

  function OnDate(date: string): Payment -> bool {
    (p: Payment) => p.date == date
  }

  /** `todayPayments`: the payments whose date string is the selected one, in ledger order. */
  function DayPayments(ps: seq<Payment>, date: string): (r: seq<Payment>)
    ensures forall i :: 0 <= i < |r| ==> r[i] in ps && r[i].date == date
    ensures forall i :: 0 <= i < |ps| && ps[i].date == date ==> ps[i] in r
    ensures IsSubseq(r, ps)
  {
    Filter(ps, OnDate(date))
  }

  /** `reduce((sum, p) => sum + p.amount, 0)`. */
  function Total(ps: seq<Payment>): int {
    SumBy(ps, Amount)
  }

  function ByMethod(via: PaymentMethod): Payment -> bool {
    (p: Payment) => p.via == via
  }

  /** The total of one payment method's card. */
  function MethodTotal(ps: seq<Payment>, via: PaymentMethod): int {
    Total(Filter(ps, ByMethod(via)))
  }

  /** The three method cards add up to the day total: every payment is cash, card or
      insurance, and none is two of them. */
  lemma {:induction false} MethodTotalsCover(ps: seq<Payment>)
    ensures MethodTotal(ps, Cash) + MethodTotal(ps, Card) + MethodTotal(ps, Insurance) == Total(ps)
    decreases |ps|
  {
    if ps != [] {
      var init, last := ps[..|ps| - 1], ps[|ps| - 1];
      assert ps == init + [last];
      MethodTotalsCover(init);
      MethodTotalSnoc(init, last, Cash);
      MethodTotalSnoc(init, last, Card);
      MethodTotalSnoc(init, last, Insurance);
      SumBySnoc(init, last, Amount);
    }
  }

  lemma MethodTotalSnoc(init: seq<Payment>, last: Payment, via: PaymentMethod)
    ensures MethodTotal(init + [last], via) == MethodTotal(init, via) + (if last.via == via then last.amount else 0)
  {
    FilteredTotalSnoc(init, last, ByMethod(via));
  }

  /** Appending a payment adds its amount to a filtered total exactly when it passes. */
  lemma FilteredTotalSnoc(init: seq<Payment>, last: Payment, p: Payment -> bool)
    ensures Total(Filter(init + [last], p)) == Total(Filter(init, p)) + (if p(last) then last.amount else 0)
  {
    FilterSnoc(init, last, p);
    if p(last) {
      SumBySnoc(Filter(init, p), last, Amount);
    } else {
      assert Filter(init, p) + [] == Filter(init, p);
    }
  }

  // ---- departmentStats ----

  /** One department's entry: the number of payments and their sum. */
  datatype DeptTally = DeptTally(dept: string, count: nat, amount: int)

  function TallyCount(t: DeptTally): int {
    t.count
  }

  function TallyAmount(t: DeptTally): int {
    t.amount
  }

  function HasDept(dept: string): DeptTally -> bool {
    (t: DeptTally) => t.dept == dept
  }

  function PaidTo(dept: string): Payment -> bool {
    (p: Payment) => p.department == dept
  }

  /** One step of the reduce: the department's entry is created on first sight (at the
      end, since object keys keep insertion order) and then counts the payment. */
  function Tallied(e: seq<DeptTally>, p: Payment): seq<DeptTally> {
    var k := FirstIndex(e, HasDept(p.department));
    if k < |e| then e[k := DeptTally(p.department, e[k].count + 1, e[k].amount + p.amount)]
    else e + [DeptTally(p.department, 1, p.amount)]
  }

  /** `departmentStats` as its entries list it. */
  function Breakdown(ps: seq<Payment>): seq<DeptTally>
    decreases |ps|
  {
    if ps == [] then [] else Tallied(Breakdown(ps[..|ps| - 1]), ps[|ps| - 1])
  }

  function KeysOf(e: seq<DeptTally>): set<string> {
    set k | 0 <= k < |e| :: e[k].dept
  }

  function DeptsOf(ps: seq<Payment>): set<string> {
    set i | 0 <= i < |ps| :: ps[i].department
  }

  /** No department has two entries. */
  ghost predicate DistinctKeys(e: seq<DeptTally>) {
    forall i, j :: 0 <= i < j < |e| ==> e[i].dept != e[j].dept
  }

  /** Each department appears once, exactly the departments paid to appear, and each
      one counts at least one payment (so the average it shows is defined). */
  ghost predicate WellKeyed(e: seq<DeptTally>, ps: seq<Payment>) {
    DistinctKeys(e) &&
    (forall k :: 0 <= k < |e| ==> e[k].count >= 1) &&
    KeysOf(e) == DeptsOf(ps)
  }

  lemma {:induction false} BreakdownKeys(ps: seq<Payment>)
    ensures WellKeyed(Breakdown(ps), ps)
    decreases |ps|
  {
    if ps != [] {
      var init, last := ps[..|ps| - 1], ps[|ps| - 1];
      assert ps == init + [last];
      BreakdownKeys(init);
      TalliedKeys(Breakdown(init), init, last);
    }
  }

  lemma DeptsSnoc(init: seq<Payment>, last: Payment)
    ensures DeptsOf(init + [last]) == DeptsOf(init) + {last.department}
  {
    var ps := init + [last];
    forall d | d in DeptsOf(ps) ensures d in DeptsOf(init) + {last.department} {
      var i :| 0 <= i < |ps| && ps[i].department == d;
      if i < |init| {
        assert init[i] == ps[i];
      }
    }
    forall d | d in DeptsOf(init) ensures d in DeptsOf(ps) {
      var i :| 0 <= i < |init| && init[i].department == d;
      assert ps[i] == init[i];
    }
    assert ps[|init|] == last;
  }

  /** One step of the reduce keeps the entries well keyed. */
  lemma TalliedKeys(e: seq<DeptTally>, init: seq<Payment>, last: Payment)
    requires WellKeyed(e, init)
    ensures WellKeyed(Tallied(e, last), init + [last])
  {
    DeptsSnoc(init, last);
    var k := FirstIndex(e, HasDept(last.department));
    var r := Tallied(e, last);
    if k < |e| {
      assert forall j :: 0 <= j < |e| ==> r[j].dept == e[j].dept;
      assert KeysOf(r) == KeysOf(e);
    } else {
      assert r == e + [DeptTally(last.department, 1, last.amount)];
      assert forall j :: 0 <= j < |e| ==> r[j] == e[j];
      assert KeysOf(r) == KeysOf(e) + {last.department} by {
        forall d | d in KeysOf(r) ensures d in KeysOf(e) + {last.department} {
          var j :| 0 <= j < |r| && r[j].dept == d;
        }
        assert r[|e|].dept == last.department;
      }
    }
  }

  /** The counts add up to the number of the day's payments and the amounts to the
      day total. */
  lemma {:induction false} BreakdownSums(ps: seq<Payment>)
    ensures SumBy(Breakdown(ps), TallyCount) == |ps|
    ensures SumBy(Breakdown(ps), TallyAmount) == Total(ps)
    decreases |ps|
  {
    if ps != [] {
      var init, last := ps[..|ps| - 1], ps[|ps| - 1];
      assert ps == init + [last];
      BreakdownSums(init);
      TalliedSums(Breakdown(init), last);
      SumBySnoc(init, last, Amount);
    }
  }

  /** One step adds one to the counts and the payment's amount to the amounts. */
  lemma TalliedSums(e: seq<DeptTally>, p: Payment)
    ensures SumBy(Tallied(e, p), TallyCount) == SumBy(e, TallyCount) + 1
    ensures SumBy(Tallied(e, p), TallyAmount) == SumBy(e, TallyAmount) + p.amount
  {
    var k := FirstIndex(e, HasDept(p.department));
    if k < |e| {
      var y := DeptTally(p.department, e[k].count + 1, e[k].amount + p.amount);
      SumByUpdate(e, k, y, TallyCount);
      SumByUpdate(e, k, y, TallyAmount);
    } else {
      var x := DeptTally(p.department, 1, p.amount);
      SumBySnoc(e, x, TallyCount);
      SumBySnoc(e, x, TallyAmount);
    }
  }

  /** Each entry holds the count and the sum of exactly that department's payments. */
  ghost predicate Accurate(e: seq<DeptTally>, ps: seq<Payment>) {
    forall k :: 0 <= k < |e| ==>
      e[k].count == Count(ps, PaidTo(e[k].dept)) && e[k].amount == Total(Filter(ps, PaidTo(e[k].dept)))
  }

  lemma {:induction false} BreakdownEntries(ps: seq<Payment>)
    ensures Accurate(Breakdown(ps), ps)
    decreases |ps|
  {
    if ps != [] {
      var init, last := ps[..|ps| - 1], ps[|ps| - 1];
      assert ps == init + [last];
      BreakdownEntries(init);
      BreakdownKeys(init);
      var e := Breakdown(init);
      forall j | 0 <= j < |Tallied(e, last)|
        ensures Tallied(e, last)[j].count == Count(ps, PaidTo(Tallied(e, last)[j].dept))
        ensures Tallied(e, last)[j].amount == Total(Filter(ps, PaidTo(Tallied(e, last)[j].dept)))
      {
        TalliedEntry(e, init, last, j);
      }
    }
  }

  /** One entry after one step of the reduce. */
  lemma TalliedEntry(e: seq<DeptTally>, init: seq<Payment>, last: Payment, j: nat)
    requires WellKeyed(e, init) && Accurate(e, init)
    requires j < |Tallied(e, last)|
    ensures Tallied(e, last)[j].count == Count(init + [last], PaidTo(Tallied(e, last)[j].dept))
    ensures Tallied(e, last)[j].amount == Total(Filter(init + [last], PaidTo(Tallied(e, last)[j].dept)))
  {
    if Tallied(e, last)[j].dept != last.department {
      TalliedOther(e, init, last, j);
    } else if j < |e| {
      TalliedHit(e, init, last, j);
    } else {
      TalliedNew(e, init, last, j);
    }
  }

  /** An entry of another department is carried over unchanged. */
  lemma TalliedOther(e: seq<DeptTally>, init: seq<Payment>, last: Payment, j: nat)
    requires Accurate(e, init)
    requires j < |Tallied(e, last)| && Tallied(e, last)[j].dept != last.department
    ensures Tallied(e, last)[j].count == Count(init + [last], PaidTo(Tallied(e, last)[j].dept))
    ensures Tallied(e, last)[j].amount == Total(Filter(init + [last], PaidTo(Tallied(e, last)[j].dept)))
  {
    var r := Tallied(e, last);
    var k := FirstIndex(e, HasDept(last.department));
    var d := r[j].dept;
    FilterSnoc(init, last, PaidTo(d));
    assert Filter(init, PaidTo(d)) + [] == Filter(init, PaidTo(d));
    if k < |e| {
      assert j != k;
    }
    assert j < |e| && r[j] == e[j];
  }

  /** The department's existing entry counts the payment once more. */
  lemma TalliedHit(e: seq<DeptTally>, init: seq<Payment>, last: Payment, j: nat)
    requires DistinctKeys(e) && Accurate(e, init)
    requires j < |e| && j < |Tallied(e, last)| && Tallied(e, last)[j].dept == last.department
    ensures Tallied(e, last)[j].count == Count(init + [last], PaidTo(Tallied(e, last)[j].dept))
    ensures Tallied(e, last)[j].amount == Total(Filter(init + [last], PaidTo(Tallied(e, last)[j].dept)))
  {
    var k := FirstIndex(e, HasDept(last.department));
    assert e[j].dept == last.department;
    HitIndex(e, last.department, j);
    var f := Filter(init, PaidTo(last.department));
    FilterSnoc(init, last, PaidTo(last.department));
    SumBySnoc(f, last, Amount);
  }

  /** With distinct keys, the entry holding a department is its first match. */
  lemma HitIndex(e: seq<DeptTally>, d: string, j: nat)
    requires DistinctKeys(e) && j < |e| && e[j].dept == d
    ensures FirstIndex(e, HasDept(d)) == j
  {
    var k := FirstIndex(e, HasDept(d));
    assert HasDept(d)(e[j]);
    assert k <= j;
  }

  /** A department seen for the first time gets a new entry for this one payment. */
  lemma TalliedNew(e: seq<DeptTally>, init: seq<Payment>, last: Payment, j: nat)
    requires WellKeyed(e, init)
    requires |e| <= j < |Tallied(e, last)|
    ensures Tallied(e, last)[j].count == Count(init + [last], PaidTo(Tallied(e, last)[j].dept))
    ensures Tallied(e, last)[j].amount == Total(Filter(init + [last], PaidTo(Tallied(e, last)[j].dept)))
  {
    var d := last.department;
    var k := FirstIndex(e, HasDept(d));
    assert k == |e| && j == |e|;
    assert Tallied(e, last)[j] == DeptTally(d, 1, last.amount);
    assert d !in KeysOf(e);
    forall i | 0 <= i < |init| ensures !PaidTo(d)(init[i]) {
      assert init[i].department in DeptsOf(init);
    }
    FilterNone(init, PaidTo(d));
    FilterSnoc(init, last, PaidTo(d));
    SumBySnoc([], last, Amount);
  }

  /** The reduce over the day's payments, with its accumulated entries. */
  method DepartmentStats(ps: seq<Payment>) returns (stats: seq<DeptTally>)
    ensures stats == Breakdown(ps)
    ensures WellKeyed(stats, ps) && Accurate(stats, ps)
    ensures SumBy(stats, TallyCount) == |ps| && SumBy(stats, TallyAmount) == Total(ps)
  {
    stats := [];
    for i := 0 to |ps|
      invariant stats == Breakdown(ps[..i])
    {
      assert ps[..i + 1][..i] == ps[..i];
      stats := Tallied(stats, ps[i]);
    }
    assert ps[..|ps|] == ps;
    BreakdownKeys(ps);
    BreakdownSums(ps);
    BreakdownEntries(ps);
  }

  /** `Math.round(amount / count)`, on exact ratios: the nearest integer, halves
      rounded up. */
  function RoundedRatio(num: int, den: int): (r: int)
    requires den > 0
    ensures 2 * r * den <= 2 * num + den < 2 * (r + 1) * den
  {
    (2 * num + den) / (2 * den)
  }

  // ---- "Transactions récentes" ----

  /** The comparator `b.time.localeCompare(a.time)`: later times first. */
  function TimeDesc(): (Payment, Payment) -> bool {
    (a: Payment, b: Payment) => StrLe(b.time, a.time)
  }

  lemma TimeDescTotalPreorder()
    ensures TotalPreorder(TimeDesc())
  {
    var le := TimeDesc();
    forall a, b ensures le(a, b) || le(b, a) {
      StrLeTotal(a.time, b.time);
    }
    forall a, b, c | le(a, b) && le(b, c) ensures le(a, c) {
      StrLeTransitive(c.time, b.time, a.time);
    }
  }

  /** `todayPayments.sort(...).slice(0, 10)`: the day's list is sorted in place, and the
      first ten are shown, latest first. */
  method RecentPayments(a: array<Payment>) returns (r: seq<Payment>)
    modifies a
    ensures a[..] == SortBy(old(a[..]), TimeDesc())
    ensures r == Take(a[..], 10)
    ensures |r| <= 10 && (|old(a[..])| >= 10 ==> |r| == 10)
    ensures forall i :: 0 <= i < |r| ==> r[i] in old(a[..])
    ensures forall i, j :: 0 <= i < j < |r| ==> StrLe(r[j].time, r[i].time)
  {
    ghost var before := a[..];
    InsertionSort(a, TimeDesc());
    TimeDescTotalPreorder();
    SortBySorted(before, TimeDesc());
    r := Take(a[..], 10);
    forall i | 0 <= i < |r| ensures r[i] in before {
      assert r[i] in multiset(a[..]);
    }
    forall i, j | 0 <= i < j < |r| ensures StrLe(r[j].time, r[i].time) {
      assert TimeDesc()(a[i], a[j]);
    }
  }
}
