/** The front desk's shared state (`app/page.tsx`): the patient list and the payment
    ledger held by the top-level component, the four handlers that change them, and
    the three queues read off the patient list. The handlers do not look at a
    patient's current status: any patient can be marked paid or called in. */
module Workflow {
  import opened Seqs
  import opened Types
  import Queue

  predicate IsWaitingPayment(p: Patient) {
    p.status == WaitingPayment
  }

  predicate IsWaitingConsultation(p: Patient) {
    p.status == WaitingConsultation
  }

  predicate IsHospitalizedPatient(p: Patient) {
    p.isHospitalized
  }

  /** `waitingPayments`. */
  function WaitingPayments(ps: seq<Patient>): (r: seq<Patient>)
    ensures forall i :: 0 <= i < |r| ==> r[i] in ps && r[i].status == WaitingPayment
    ensures forall i :: 0 <= i < |ps| && ps[i].status == WaitingPayment ==> ps[i] in r
    ensures IsSubseq(r, ps)
  {
    Filter(ps, IsWaitingPayment)
  }

  /** `waitingConsultations`. */
  function WaitingConsultations(ps: seq<Patient>): (r: seq<Patient>)
    ensures forall i :: 0 <= i < |r| ==> r[i] in ps && r[i].status == WaitingConsultation
    ensures forall i :: 0 <= i < |ps| && ps[i].status == WaitingConsultation ==> ps[i] in r
    ensures IsSubseq(r, ps)
  {
    Filter(ps, IsWaitingConsultation)
  }

  /** `hospitalizedPatients`. */
  function HospitalizedPatients(ps: seq<Patient>): (r: seq<Patient>)
    ensures forall i :: 0 <= i < |r| ==> r[i] in ps && r[i].isHospitalized
    ensures forall i :: 0 <= i < |ps| && ps[i].isHospitalized ==> ps[i] in r
    ensures IsSubseq(r, ps)
  {
    Filter(ps, IsHospitalizedPatient)
  }

  /** The patient as `handlePaymentProcessed` leaves it. */
  function AfterPayment(p: Patient, date: string): Patient {
    p.(status := WaitingConsultation, paymentStatus := PaymentStatus.Paid, paymentDate := Some(date))
  }

  function PayUpdate(patientId: string, date: string): Patient -> Patient {
    (p: Patient) => if p.id == patientId then AfterPayment(p, date) else p
  }

  /** `patients.map(p => p.id === patientId ? {...p, status, paymentStatus, paymentDate} : p)`. */
  function MarkPaid(ps: seq<Patient>, patientId: string, date: string): (r: seq<Patient>)
    ensures |r| == |ps|
    ensures forall i :: 0 <= i < |ps| && ps[i].id == patientId ==>
      r[i] == ps[i].(status := WaitingConsultation, paymentStatus := PaymentStatus.Paid, paymentDate := Some(date))
    ensures forall i :: 0 <= i < |ps| && ps[i].id != patientId ==> r[i] == ps[i]
  {
    Map(ps, PayUpdate(patientId, date))
  }

  function CallIn(patientId: string): Patient -> Patient {
    (p: Patient) => if p.id == patientId then p.(status := InConsultation) else p
  }

  /** `patients.map(p => p.id === patientId ? {...p, status: "in_consultation"} : p)`. */
  function SetInConsultation(ps: seq<Patient>, patientId: string): (r: seq<Patient>)
    ensures |r| == |ps|
    ensures forall i :: 0 <= i < |ps| && ps[i].id == patientId ==> r[i] == ps[i].(status := InConsultation)
    ensures forall i :: 0 <= i < |ps| && ps[i].id != patientId ==> r[i] == ps[i]
  {
    Map(ps, CallIn(patientId))
  }

  function Replace(updated: Patient): Patient -> Patient {
    (p: Patient) => if p.id == updated.id then updated else p
  }

  /** `patients.map(p => p.id === updatedPatient.id ? updatedPatient : p)`. */
  function ReplaceById(ps: seq<Patient>, updated: Patient): (r: seq<Patient>)
    ensures |r| == |ps|
    ensures forall i :: 0 <= i < |ps| && ps[i].id == updated.id ==> r[i] == updated
    ensures forall i :: 0 <= i < |ps| && ps[i].id != updated.id ==> r[i] == ps[i]
    ensures forall i :: 0 <= i < |ps| ==> r[i].id == ps[i].id
  {
    Map(ps, Replace(updated))
  }

  function WithId(patientId: string): Patient -> bool {
    (p: Patient) => p.id == patientId
  }

  /** The lookup by id succeeds exactly when some patient has that id. */
  lemma FoundIff(ps: seq<Patient>, patientId: string)
    ensures Find(ps, WithId(patientId)).Some? <==> exists i :: 0 <= i < |ps| && ps[i].id == patientId
  {
    if Find(ps, WithId(patientId)).None? {
      assert forall i :: 0 <= i < |ps| ==> !WithId(patientId)(ps[i]);
    }
  }

  function HasOtherId(patientId: string): Patient -> bool {
    (p: Patient) => p.id != patientId
  }

  function InDepartment(dept: string): Patient -> bool {
    (p: Patient) => p.department == Some(dept)
  }

  /** The departments listed on the queues overview, in display order. */
  function OverviewDepartments(): seq<string> {
    ["cardiology", "neurology", "pediatrics", "orthopedics", "dermatology", "emergency"]
  }

  /** `waitingConsultations.filter(p => p.department === dept).length`. */
  function DepartmentWaitingCount(ps: seq<Patient>, dept: string): nat {
    Count(WaitingConsultations(ps), InDepartment(dept))
  }

  class FrontDesk {
    var patients: seq<Patient>
    var payments: seq<Payment>
    var selectedPatient: Option<Patient>
    var consultationInProgress: bool

    constructor(initialPatients: seq<Patient>, initialPayments: seq<Payment>)
      ensures patients == initialPatients && payments == initialPayments
      ensures selectedPatient == None && !consultationInProgress
    {
      patients := initialPatients;
      payments := initialPayments;
      selectedPatient := None;
      consultationInProgress := false;
    }

    /** `handlePatientRegistered`: the new patient goes at the end of the list. */
    method RegisterPatient(newPatient: Patient)
      modifies this
      ensures patients == old(patients) + [newPatient]
      ensures payments == old(payments)
      ensures selectedPatient == old(selectedPatient) && consultationInProgress == old(consultationInProgress)
    {
      patients := patients + [newPatient];
    }

    /** `handlePaymentProcessed`: the matching patients are marked paid, and the payment
        is appended to the ledger whether or not a patient matched. */
    method ProcessPayment(patientId: string, payment: Payment)
      modifies this
      ensures patients == MarkPaid(old(patients), patientId, payment.date)
      ensures payments == old(payments) + [payment]
      ensures selectedPatient == old(selectedPatient) && consultationInProgress == old(consultationInProgress)
    {
      patients := MarkPaid(patients, patientId, payment.date);
      payments := payments + [payment];
    }

    /** `handleStartConsultation`: when a patient has that id (see `FoundIff`), it
        becomes the selected patient (as it was before the status change) and is marked
        in consultation; for an unknown id nothing changes. */
    method StartConsultation(patientId: string)
      modifies this
      ensures payments == old(payments)
      ensures Find(old(patients), WithId(patientId)).None? ==>
        patients == old(patients) && selectedPatient == old(selectedPatient) &&
        consultationInProgress == old(consultationInProgress)
      ensures Find(old(patients), WithId(patientId)).Some? ==>
        patients == SetInConsultation(old(patients), patientId) && consultationInProgress &&
        selectedPatient == Find(old(patients), WithId(patientId))
    {
      var found := Find(patients, WithId(patientId));
      if found.Some? {
        selectedPatient := found;
        consultationInProgress := true;
        patients := SetInConsultation(patients, patientId);
      }
    }

    /** `handleConsultationComplete`: the patient with the same id is replaced by its
        updated version, and no consultation is in progress any more. */
    method CompleteConsultation(updated: Patient, record: MedicalRecord)
      modifies this
      ensures patients == ReplaceById(old(patients), updated)
      ensures payments == old(payments) && selectedPatient == old(selectedPatient)
      ensures !consultationInProgress
    {
      patients := ReplaceById(patients, updated);
      consultationInProgress := false;
    }
  }

  /** Registering adds the new patient at the back of the cashier's queue when it is
      waiting for payment, and leaves the queue as it was otherwise. */
  lemma RegisterWaitingPayments(ps: seq<Patient>, newPatient: Patient)
    ensures WaitingPayments(ps + [newPatient]) ==
      WaitingPayments(ps) + (if newPatient.status == WaitingPayment then [newPatient] else [])
  {
    FilterConcat(ps, [newPatient], IsWaitingPayment);
  }

  /** Paying takes the patients with that id out of the cashier's queue, and leaves the
      rest of it in order. */
  lemma {:induction false} MarkPaidWaitingPayments(ps: seq<Patient>, patientId: string, date: string)
    ensures WaitingPayments(MarkPaid(ps, patientId, date)) == Filter(WaitingPayments(ps), HasOtherId(patientId))
  {
    if ps != [] {
      MarkPaidWaitingPayments(ps[1..], patientId, date);
      var r := MarkPaid(ps, patientId, date);
      assert r == [r[0]] + MarkPaid(ps[1..], patientId, date);
      assert r[1..] == MarkPaid(ps[1..], patientId, date);
      if IsWaitingPayment(ps[0]) {
        assert WaitingPayments(ps) == [ps[0]] + WaitingPayments(ps[1..]);
        assert ([ps[0]] + WaitingPayments(ps[1..]))[1..] == WaitingPayments(ps[1..]);
      }
    }
  }

  /** ... and puts every patient with that id into the consultation queues. */
  lemma MarkPaidWaitingConsultations(ps: seq<Patient>, patientId: string, date: string, i: nat)
    requires i < |ps| && ps[i].id == patientId
    ensures AfterPayment(ps[i], date) in WaitingConsultations(MarkPaid(ps, patientId, date))
  {
    var r := MarkPaid(ps, patientId, date);
    assert r[i] == AfterPayment(ps[i], date);
  }

  /** The count on the queues overview is the length of that department's doctor queue. */
  lemma DepartmentCountIsQueueLength(ps: seq<Patient>, dept: string)
    ensures DepartmentWaitingCount(ps, dept) == |Queue.DepartmentQueue(ps, dept)|
  {
    FilterFilter(ps, IsWaitingConsultation, InDepartment(dept), (p: Patient) => Queue.InDepartmentQueue(dept, p));
  }
}
