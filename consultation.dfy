/** Closing a consultation: the record, the optional prescription and the updated
    patient that the two consultation screens hand to `onConsultationComplete`
    (`components/doctor/integrated-consultation.tsx`, the screen the doctor menu opens,
    and the older `components/doctor/consultation-form.tsx`). One instant `nowMs` stands
    for every `Date.now()` / `new Date()` reading of a submit, and `iso` for
    `toISOString`. */
module Consultation {
  import opened Seqs
  import opened Types
  import opened Text
  import Registration
  import Workflow
  import Queue

  /** The consultation tab's fields as typed. */
  datatype Notes = Notes(
    symptoms: string,
    diagnosis: string,
    notes: string,
    treatment: string,
    followUpDate: string,
    hospitalize: bool,
    hospitalRoom: string)

  /** `currentDoctor`. */
  datatype Doctor = Doctor(id: string, name: string, department: string)

  /** What a submit hands to the page: the updated patient and the new record. */
  datatype Completion = Completion(patient: Patient, record: MedicalRecord)

  /** Thirty days, in milliseconds. */
  const PrescriptionValidityMs: nat := 30 * 24 * 60 * 60 * 1000

  /** `symptoms.split(",").map(s => s.trim())`: every piece is kept, empty ones too. */
  function Symptoms(s: string): (r: seq<string>)
    ensures |r| == |Split(s, ',')| >= 1
    ensures forall k :: 0 <= k < |r| ==> r[k] == Trim(Split(s, ',')[k])
    ensures forall k :: 0 <= k < |r| ==> ',' !in r[k] && |r[k]| <= |s|
    ensures forall k :: 0 <= k < |r| ==> r[k] == [] || (!IsSpace(r[k][0]) && !IsSpace(r[k][|r[k]| - 1]))
  {
    SplitPiecesShort(s, ',');
    Map(Split(s, ','), Trim)
  }

  /** No piece of a split is longer than the text split. */
  lemma SplitPiecesShort(s: string, sep: char)
    ensures forall k :: 0 <= k < |Split(s, sep)| ==> |Split(s, sep)[k]| <= |s|
  {
    var pieces := Split(s, sep);
    JoinSplit(s, sep);
    forall k | 0 <= k < |pieces| ensures |pieces[k]| <= |s| {
      JoinLength(pieces, sep, k);
    }
  }

  /** Each piece is no longer than the text it was joined into. */
  lemma {:induction false} JoinLength(pieces: seq<string>, sep: char, k: nat)
    requires k < |pieces|
    ensures |pieces[k]| <= |Join(pieces, sep)|
  {
    if |pieces| > 1 && k > 0 {
      JoinLength(pieces[1..], sep, k - 1);
    }
  }

  /** Unlike the registration lists, an empty field still yields one (empty) symptom,
      and a lone comma two. */
  lemma SymptomsKeepEmpty()
    ensures Symptoms("") == [""]
    ensures Symptoms(",") == ["", ""]
    ensures Registration.SplitList("") == []
  {
    assert Split(",", ',') == [""] + Split("", ',');
    assert Map(Split("", ','), Trim) == [Trim("")];
    assert Map(["", ""], Trim) == [Trim("")] + Map([""], Trim);
    assert Filter([""], Registration.NonEmpty) == [];
  }

  /** Symptoms written out with commas read back as the same list, blank and all. */
  lemma SymptomsJoin(items: seq<string>)
    requires |items| >= 1
    requires forall i :: 0 <= i < |items| ==> Trim(items[i]) == items[i] && ',' !in items[i]
    ensures Symptoms(Join(items, ',')) == items
  {
    SplitJoin(items, ',');
  }

  /** `patient.department || "general"`: an absent and an empty department both fall back. */
  function RecordDepartment(department: Option<string>): (r: string)
    ensures r == "general" <==> department == None || department == Some("") || department == Some("general")
    ensures department.Some? && department.value != "" ==> r == department.value
  {
    match department
    case Some(d) => if d == "" then "general" else d
    case None => "general"
  }

  /** `${med.name} ${med.dosage}`. */
  function MedicationLine(m: Medication): (r: string)
    ensures |r| == |m.name| + 1 + |m.dosage|
    ensures StartsWith(r, m.name) && r[|m.name|] == ' ' && r[|m.name| + 1..] == m.dosage
  {
    m.name + " " + m.dosage
  }

  /** The patient update both screens make: closed or admitted, the record appended to
      the history; every other field stays as it was. */
  function Discharge(patient: Patient, notes: Notes, nowIso: string, record: MedicalRecord): (r: Patient)
    ensures r.status == Completed || r.status == Hospitalized
    ensures r.status == Hospitalized <==> notes.hospitalize
    ensures r.isHospitalized <==> notes.hospitalize
    ensures r.hospitalRoom.Some? <==> notes.hospitalize
    ensures r.admissionDate.Some? <==> notes.hospitalize
    ensures notes.hospitalize ==> r.hospitalRoom == Some(notes.hospitalRoom) && r.admissionDate == Some(nowIso)
    ensures |r.medicalHistory| == |patient.medicalHistory| + 1
    ensures r.medicalHistory[..|patient.medicalHistory|] == patient.medicalHistory
    ensures r.medicalHistory[|patient.medicalHistory|] == record
    ensures r.(status := patient.status, isHospitalized := patient.isHospitalized,
               hospitalRoom := patient.hospitalRoom, admissionDate := patient.admissionDate,
               medicalHistory := patient.medicalHistory) == patient
  {
    patient.(status := if notes.hospitalize then Hospitalized else Completed,
             isHospitalized := notes.hospitalize,
             hospitalRoom := if notes.hospitalize then Some(notes.hospitalRoom) else None,
             admissionDate := if notes.hospitalize then Some(nowIso) else None,
             medicalHistory := patient.medicalHistory + [record])
  }

  // ---- integrated-consultation.tsx ----

  /** The prescription of the integrated screen: only when a medication was added,
      signed by the current doctor, valid thirty days, neither printed nor dispensed. */
  function IntegratedPrescription(patient: Patient, doctor: Doctor, meds: seq<Medication>,
                                  instructions: string, nowMs: nat, iso: int -> string): (r: Option<Prescription>)
    ensures r.Some? <==> |meds| > 0
    ensures r.Some? ==> r.value.medications == meds && r.value.instructions == instructions
    ensures r.Some? ==> r.value.id == "PRESC-" + NatToString(nowMs) && r.value.patientId == patient.id
    ensures r.Some? ==> r.value.doctorId == doctor.id && r.value.doctorName == Some(doctor.name)
    ensures r.Some? ==> r.value.department == Some(doctor.department) && r.value.date == iso(nowMs)
    ensures r.Some? ==> r.value.validUntil == Some(iso(nowMs + 2592000000))
    ensures r.Some? ==> r.value.printed == Some(false) && r.value.dispensed == Some(false)
  {
    if |meds| > 0 then
      Some(Prescription("PRESC-" + NatToString(nowMs), patient.id, doctor.id, Some(doctor.name), iso(nowMs),
                        meds, instructions, Some(doctor.department),
                        Some(iso(nowMs + PrescriptionValidityMs)), Some(false), Some(false)))
    else None
  }

  /** `handleSubmit` of the integrated screen. */
  function IntegratedSubmit(patient: Patient, doctor: Doctor, notes: Notes, vitals: VitalSigns,
                            meds: seq<Medication>, instructions: string,
                            nowMs: nat, iso: int -> string): (c: Completion)
    ensures c.record.id == NatToString(nowMs) && c.record.patientId == patient.id
    ensures c.record.doctorId == doctor.id && c.record.doctorName == doctor.name
    ensures c.record.department == doctor.department && c.record.date == iso(nowMs)
    ensures c.record.kind == Consultation && c.record.symptoms == Symptoms(notes.symptoms)
    ensures c.record.diagnosis == notes.diagnosis && c.record.treatment == notes.treatment && c.record.notes == notes.notes
    ensures c.record.prescription == IntegratedPrescription(patient, doctor, meds, instructions, nowMs, iso)
    ensures c.record.vitalSigns == Some(vitals) && c.record.followUpDate == Some(notes.followUpDate)
    ensures c.record.labResults == None
    ensures c.patient.(currentMedications := patient.currentMedications) == Discharge(patient, notes, iso(nowMs), c.record)
    ensures |c.patient.currentMedications| == |meds|
    ensures forall k :: 0 <= k < |meds| ==> c.patient.currentMedications[k] == MedicationLine(meds[k])
  {
    var record := MedicalRecord(NatToString(nowMs), patient.id, doctor.id, doctor.name, iso(nowMs),
                                Consultation, notes.diagnosis, Symptoms(notes.symptoms), notes.treatment,
                                IntegratedPrescription(patient, doctor, meds, instructions, nowMs, iso),
                                notes.notes, doctor.department, Some(vitals), Some(notes.followUpDate), None);
    Completion(Discharge(patient, notes, iso(nowMs), record).(currentMedications := Map(meds, MedicationLine)), record)
  }

  // ---- consultation-form.tsx ----

  /** The older form's prescription: the same condition, the treatment as its
      instructions, a fixed doctor, and none of the optional fields. */
  function FormPrescription(patient: Patient, notes: Notes, meds: seq<Medication>,
                            nowMs: nat, iso: int -> string): (r: Option<Prescription>)
    ensures r.Some? <==> |meds| > 0
    ensures r.Some? ==> r.value.medications == meds && r.value.instructions == notes.treatment
    ensures r.Some? ==> r.value.id == "PRESC-" + NatToString(nowMs) && r.value.patientId == patient.id
    ensures r.Some? ==> r.value.doctorId == "current-doctor" && r.value.date == iso(nowMs)
    ensures r.Some? ==> r.value.doctorName == None && r.value.department == None && r.value.validUntil == None
    ensures r.Some? ==> r.value.printed == None && r.value.dispensed == None
  {
    if |meds| > 0 then
      Some(Prescription("PRESC-" + NatToString(nowMs), patient.id, "current-doctor", None, iso(nowMs),
                        meds, notes.treatment, None, None, None, None))
    else None
  }

  /** `handleSubmit` of the older form: the patient's current medications are left as
      they were. */
  function FormSubmit(patient: Patient, notes: Notes, meds: seq<Medication>,
                      nowMs: nat, iso: int -> string): (c: Completion)
    ensures c.record.id == NatToString(nowMs) && c.record.patientId == patient.id
    ensures c.record.doctorId == "current-doctor" && c.record.doctorName == "Dr. Mamadou Sarr"
    ensures c.record.department == RecordDepartment(patient.department) && c.record.date == iso(nowMs)
    ensures c.record.kind == Consultation && c.record.symptoms == Symptoms(notes.symptoms)
    ensures c.record.diagnosis == notes.diagnosis && c.record.treatment == notes.treatment && c.record.notes == notes.notes
    ensures c.record.prescription == FormPrescription(patient, notes, meds, nowMs, iso)
    ensures c.record.vitalSigns == None && c.record.followUpDate == None && c.record.labResults == None
    ensures c.patient == Discharge(patient, notes, iso(nowMs), c.record)
    ensures c.patient.currentMedications == patient.currentMedications
  {
    var record := MedicalRecord(NatToString(nowMs), patient.id, "current-doctor", "Dr. Mamadou Sarr", iso(nowMs),
                                Consultation, notes.diagnosis, Symptoms(notes.symptoms), notes.treatment,
                                FormPrescription(patient, notes, meds, nowMs, iso),
                                notes.notes, RecordDepartment(patient.department), None, None, None);
    Completion(Discharge(patient, notes, iso(nowMs), record), record)
  }

  /** The two screens leave the same patient behind except for the record they append
      and the current medications, which only the integrated screen replaces. */
  lemma ScreensAgreeOnPatient(patient: Patient, doctor: Doctor, notes: Notes, vitals: VitalSigns,
                              meds: seq<Medication>, instructions: string, nowMs: nat, iso: int -> string)
    ensures IntegratedSubmit(patient, doctor, notes, vitals, meds, instructions, nowMs, iso).patient
              .(currentMedications := patient.currentMedications, medicalHistory := patient.medicalHistory)
         == FormSubmit(patient, notes, meds, nowMs, iso).patient.(medicalHistory := patient.medicalHistory)
  {
  }

  /** Once the page stores the updated patient, it is out of the cashier's queue and of
      every department's doctor queue, and on the hospitalized list exactly when the
      doctor admitted it. */
  lemma CompletionLeavesQueues(ps: seq<Patient>, patient: Patient, c: Completion, notes: Notes, nowIso: string, dept: string)
    requires c.patient == Discharge(patient, notes, nowIso, c.record)
    ensures c.patient !in Workflow.WaitingPayments(Workflow.ReplaceById(ps, c.patient))
    ensures c.patient !in Queue.DepartmentQueue(Workflow.ReplaceById(ps, c.patient), dept)
    ensures forall i :: 0 <= i < |ps| && ps[i].id == patient.id ==>
      (Workflow.ReplaceById(ps, c.patient)[i] in Workflow.HospitalizedPatients(Workflow.ReplaceById(ps, c.patient)) <==> notes.hospitalize)
  {
    var r := Workflow.ReplaceById(ps, c.patient);
    var w := Workflow.WaitingPayments(r);
    var q := Queue.DepartmentQueue(r, dept);
    var h := Workflow.HospitalizedPatients(r);
    assert forall i :: 0 <= i < |w| ==> w[i] != c.patient;
    assert forall i :: 0 <= i < |q| ==> q[i] != c.patient;
    forall i | 0 <= i < |ps| && ps[i].id == patient.id
      ensures r[i] in h <==> notes.hospitalize
    {
      assert r[i] == c.patient;
      if r[i] in h {
        var k :| 0 <= k < |h| && h[k] == r[i];
      }
    }
  }
}
