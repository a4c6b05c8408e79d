/** The waiting queues of the cashier (`components/cashier/payment-processing.tsx`)
    and of a doctor's department (`components/doctor/consultation-queue.tsx`). Both
    copies of the comparator order patients by priority rank (emergency 0, urgent 1,
    normal 2) and then by registration time, earlier first. Timestamps are strings
    in the records; `timeOf` stands for `new Date(s).getTime()`. */
module Queue {
  import opened Seqs
  import opened Types
  import opened Text
  import opened Sorting

  /** `priorityOrder[p.priority]`. */
  function Rank(p: Priority): (r: nat)
    ensures r <= 2
    ensures r == 0 <==> p == Emergency
    ensures r == 2 <==> p == Normal
  {
    match p
    case Emergency => 0
    case Urgent => 1
    case Normal => 2
  }

  /** The comparator: rank difference when the ranks differ, otherwise the
      difference of registration times. */
  function QueueCmp(a: Patient, b: Patient, timeOf: string -> int): int {
    if Rank(a.priority) != Rank(b.priority) then Rank(a.priority) - Rank(b.priority)
    else timeOf(a.registrationDate) - timeOf(b.registrationDate)
  }

  /** `a` may stand before `b`: the comparator does not put `b` first. */
  function QueueLe(timeOf: string -> int): (Patient, Patient) -> bool {
    (a: Patient, b: Patient) => QueueCmp(a, b, timeOf) <= 0
  }

  /** Ordered by rank, and by registration time within one rank. */
  ghost predicate QueueOrdered(q: seq<Patient>, timeOf: string -> int) {
    forall i, j :: 0 <= i < j < |q| ==>
      Rank(q[i].priority) < Rank(q[j].priority) ||
      (Rank(q[i].priority) == Rank(q[j].priority) &&
       timeOf(q[i].registrationDate) <= timeOf(q[j].registrationDate))
  }

  /** The comparator is consistent: total and transitive, as `sort` requires. */
  lemma QueueLeTotalPreorder(timeOf: string -> int)
    ensures TotalPreorder(QueueLe(timeOf))
  {
    var le := QueueLe(timeOf);
    forall a, b, c | le(a, b) && le(b, c) ensures le(a, c) {
      assert QueueCmp(a, b, timeOf) <= 0 && QueueCmp(b, c, timeOf) <= 0;
    }
  }

  /** The queue as displayed: the stable sort of the list by the comparator. */
  function SortedQueue(ps: seq<Patient>, timeOf: string -> int): seq<Patient> {
    SortBy(ps, QueueLe(timeOf))
  }

  /** The displayed queue holds exactly the input patients, emergency before urgent
      before normal, earlier registration first within a priority. */
  lemma SortedQueueOrdered(ps: seq<Patient>, timeOf: string -> int)
    ensures multiset(SortedQueue(ps, timeOf)) == multiset(ps)
    ensures QueueOrdered(SortedQueue(ps, timeOf), timeOf)
  {
    var le := QueueLe(timeOf);
    QueueLeTotalPreorder(timeOf);
    SortBySorted(ps, le);
    var q := SortedQueue(ps, timeOf);
    forall i, j | 0 <= i < j < |q|
      ensures Rank(q[i].priority) < Rank(q[j].priority) ||
              (Rank(q[i].priority) == Rank(q[j].priority) &&
               timeOf(q[i].registrationDate) <= timeOf(q[j].registrationDate))
    {
      assert le(q[i], q[j]);
    }
  }

  /** An emergency patient is never displayed after a non-emergency one. */
  lemma EmergencyFirst(ps: seq<Patient>, timeOf: string -> int, i: nat, j: nat)
    requires i < j < |SortedQueue(ps, timeOf)|
    requires SortedQueue(ps, timeOf)[j].priority == Emergency
    ensures SortedQueue(ps, timeOf)[i].priority == Emergency
  {
    SortedQueueOrdered(ps, timeOf);
  }

  /** `.sort(comparator)` on the list it is given, in place. */
  method SortQueue(a: array<Patient>, timeOf: string -> int)
    modifies a
    ensures a[..] == SortedQueue(old(a[..]), timeOf)
    ensures multiset(a[..]) == multiset(old(a[..]))
    ensures QueueOrdered(a[..], timeOf)
  {
    ghost var before := a[..];
    InsertionSort(a, QueueLe(timeOf));
    SortedQueueOrdered(before, timeOf);
  }

  // ---- the cashier's screen (payment-processing.tsx) ----

  /** `handlePayment`: the ledger entry for `patient`, with the id, date and time
      taken from the clock. */
  function BuildPayment(patient: Patient, via: PaymentMethod, id: string, date: string, time: string): (r: Payment)
    ensures r.patientId == patient.id && r.status == Paid && r.kind == ConsultationFee && r.via == via
    ensures r.amount == patient.paymentAmount.GetOr(0)
    ensures r.department == patient.department.GetOr("")
    ensures r.cashierId == "current-user"
    ensures r.id == id && r.date == date && r.time == time
  {
    Payment(id, patient.id, patient.paymentAmount.GetOr(0), date, time,
            ConsultationFee, Paid, via, "current-user", patient.department.GetOr(""))
  }

  /** The per-patient method selection of the cashier's table. The select offers only
      cash, card and insurance, so a chosen value is always one of them. */
  class MethodChoice {
    var chosen: map<string, PaymentMethod>

    constructor()
      ensures chosen == map[]
    {
      chosen := map[];
    }

    /** `onValueChange`: the choice for this patient is replaced, no other changes. */
    method Choose(patientId: string, via: PaymentMethod)
      modifies this
      ensures chosen == old(chosen)[patientId := via]
    {
      chosen := chosen[patientId := via];
    }

    /** The "Valider" button is enabled. */
    predicate CanValidate(patientId: string)
      reads this
    {
      patientId in chosen
    }

    /** The button's click: a payment only once a method has been chosen for this
        patient, with that method. */
    method Validate(patient: Patient, id: string, date: string, time: string) returns (r: Option<Payment>)
      ensures r.Some? <==> patient.id in chosen
      ensures r.Some? ==> r.value == BuildPayment(patient, chosen[patient.id], id, date, time)
    {
      if patient.id in chosen {
        r := Some(BuildPayment(patient, chosen[patient.id], id, date, time));
      } else {
        r := None;
      }
    }
  }

  // ---- a doctor's queue (consultation-queue.tsx) ----

  predicate InDepartmentQueue(dept: string, p: Patient) {
    p.department == Some(dept) && p.status == WaitingConsultation
  }

  /** `departmentPatients`: the patients of `dept` waiting for a consultation. */
  function DepartmentQueue(ps: seq<Patient>, dept: string): (r: seq<Patient>)
    ensures forall i :: 0 <= i < |r| ==> r[i] in ps && r[i].department == Some(dept) && r[i].status == WaitingConsultation
    ensures forall i :: 0 <= i < |ps| && ps[i].department == Some(dept) && ps[i].status == WaitingConsultation ==> ps[i] in r
    ensures IsSubseq(r, ps)
  {
    Filter(ps, p => InDepartmentQueue(dept, p))
  }

  /** Rows of the queue table: the 1-based position and the patient. */
  function Numbered(q: seq<Patient>): (r: seq<(nat, Patient)>)
    ensures |r| == |q|
    ensures forall i :: 0 <= i < |q| ==> r[i] == (i + 1, q[i])
    ensures |q| > 0 ==> r[0].0 == 1
  {
    seq(|q|, i requires 0 <= i < |q| => (i + 1, q[i]))
  }

  /** Waiting time in whole minutes, or in hours and minutes from one hour on. */
  datatype Wait = Minutes(total: int) | HoursMinutes(hours: nat, minutes: nat)

  /** `Math.floor(ms / 60000)` (the divisor is positive, so Dafny's division floors). */
  function ElapsedMinutes(elapsedMs: int): (d: int)
    ensures d * 60000 <= elapsedMs < (d + 1) * 60000
  {
    elapsedMs / 60000
  }

  /** The split made by `getWaitingTime`. */
  function WaitOf(elapsedMs: int): (w: Wait)
    ensures w.Minutes? <==> ElapsedMinutes(elapsedMs) < 60
    ensures w.Minutes? ==> w.total == ElapsedMinutes(elapsedMs)
    ensures w.HoursMinutes? ==> w.hours >= 1 && w.minutes < 60 && w.hours * 60 + w.minutes == ElapsedMinutes(elapsedMs)
  {
    var d := ElapsedMinutes(elapsedMs);
    if d < 60 then Minutes(d) else HoursMinutes(d / 60, d % 60)
  }

  /** The rendered text: `"d min"` or `"hh mmin"`. */
  function WaitText(w: Wait): string {
    match w
    case Minutes(d) => IntToString(d) + " min"
    case HoursMinutes(h, m) => NatToString(h) + "h " + NatToString(m) + "min"
  }

  /** `getWaitingTime(registrationDate)` at instant `nowMs`. */
  function WaitingTime(nowMs: int, registeredMs: int): string {
    WaitText(WaitOf(nowMs - registeredMs))
  }
}
