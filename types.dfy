/** The records the front desk passes between its screens, as `types/index.ts`
    declares them. Optional fields (`field?: T`) are `Option<T>`; the closed string
    unions are enumerations whose `Key` is the string the source stores and compares. */
module Types {
  import opened Seqs

  /** `"M" | "F"`; `Unspecified` is the empty string the registration form submits when
      no gender was picked (its select is not `required`, and the cast to `"M" | "F"`
      does not check). */
  datatype Gender = M | F | Unspecified

  /** `Patient.status`: exactly one of six workflow states. */
  datatype Status =
    | Registered
    | WaitingPayment
    | WaitingConsultation
    | InConsultation
    | Completed
    | Hospitalized
  {
    function Key(): string {
      match this
      case Registered => "registered"
      case WaitingPayment => "waiting_payment"
      case WaitingConsultation => "waiting_consultation"
      case InConsultation => "in_consultation"
      case Completed => "completed"
      case Hospitalized => "hospitalized"
    }
  }

  /** The status whose key is `key`, if any. */
  function ParseStatus(key: string): (r: Option<Status>)
    ensures r.Some? ==> r.value.Key() == key
  {
    if key == "registered" then Some(Registered)
    else if key == "waiting_payment" then Some(WaitingPayment)
    else if key == "waiting_consultation" then Some(WaitingConsultation)
    else if key == "in_consultation" then Some(InConsultation)
    else if key == "completed" then Some(Completed)
    else if key == "hospitalized" then Some(Hospitalized)
    else None
  }

  /** Keys name statuses one-to-one: reading a status's key back gives the status. */
  lemma ParseStatusKey(s: Status)
    ensures ParseStatus(s.Key()) == Some(s)
  {
  }

  /** `Patient.priority`. */
  datatype Priority = Normal | Urgent | Emergency {
    function Key(): string {
      match this
      case Normal => "normal"
      case Urgent => "urgent"
      case Emergency => "emergency"
    }
  }

  /** `Patient.paymentStatus` and `Payment.status`. */
  datatype PaymentStatus = Pending | Paid | Cancelled

  /** `Payment.method`. */
  datatype PaymentMethod = Cash | Card | Insurance

  /** `Payment.type`. */
  datatype PaymentKind = ConsultationFee | Procedure | MedicationFee | HospitalizationFee

  /** `MedicalRecord.type`. */
  datatype RecordType = Consultation | EmergencyVisit | FollowUp | Hospitalization | LabTest

  /** `LabResult.type`. */
  datatype LabType = BloodTest | UrineTest | Electrophoresis | Imaging | OtherTest

  /** `LabResult.status`. */
  datatype LabStatus = LabPending | LabCompleted | Reviewed

  /** `Medication.category`. */
  datatype MedicationCategory = Antibiotic | Painkiller | AntiInflammatory | OtherCategory

  datatype EmergencyContact = EmergencyContact(name: string, phone: string, relationship: string)

  /** `LabValue.value` is `string | number`. */
  datatype Reading = TextReading(text: string) | NumberReading(number: real)

  datatype LabValue = LabValue(
    name: string,
    value: Reading,
    unit: Option<string>,
    normalRange: Option<string>,
    isAbnormal: Option<bool>)

  datatype LabResult = LabResult(
    id: string,
    patientId: string,
    date: string,
    kind: LabType,
    name: string,
    results: seq<LabValue>,
    status: LabStatus,
    requestedBy: string,
    reviewedBy: Option<string>,
    notes: Option<string>)

  datatype Medication = Medication(
    name: string,
    dosage: string,
    frequency: string,
    duration: string,
    instructions: string,
    category: Option<MedicationCategory>)

  datatype Prescription = Prescription(
    id: string,
    patientId: string,
    doctorId: string,
    doctorName: Option<string>,
    date: string,
    medications: seq<Medication>,
    instructions: string,
    department: Option<string>,
    validUntil: Option<string>,
    printed: Option<bool>,
    dispensed: Option<bool>)

  /** Measurements as already parsed from the form. */
  datatype VitalSigns = VitalSigns(
    temperature: Option<real>,
    bloodPressure: Option<string>,
    heartRate: Option<real>,
    oxygenSaturation: Option<real>,
    weight: Option<real>,
    height: Option<real>,
    notes: Option<string>)

  datatype MedicalRecord = MedicalRecord(
    id: string,
    patientId: string,
    doctorId: string,
    doctorName: string,
    date: string,
    kind: RecordType,
    diagnosis: string,
    symptoms: seq<string>,
    treatment: string,
    prescription: Option<Prescription>,
    notes: string,
    department: string,
    vitalSigns: Option<VitalSigns>,
    followUpDate: Option<string>,
    labResults: Option<seq<LabResult>>)

  datatype Patient = Patient(
    id: string,
    qrCode: string,
    firstName: string,
    lastName: string,
    dateOfBirth: string,
    gender: Gender,
    phone: string,
    email: string,
    address: string,
    emergencyContacts: seq<EmergencyContact>,
    medicalHistory: seq<MedicalRecord>,
    allergies: seq<string>,
    chronicConditions: seq<string>,
    currentMedications: seq<string>,
    isHospitalized: bool,
    hospitalRoom: Option<string>,
    admissionDate: Option<string>,
    status: Status,
    department: Option<string>,
    consultationType: Option<string>,
    registrationDate: string,
    paymentStatus: PaymentStatus,
    paymentAmount: Option<int>,
    paymentDate: Option<string>,
    priority: Priority,
    labResults: Option<seq<LabResult>>)

  datatype Payment = Payment(
    id: string,
    patientId: string,
    amount: int,
    date: string,
    time: string,
    kind: PaymentKind,
    status: PaymentStatus,
    via: PaymentMethod,
    cashierId: string,
    department: string)

  datatype Department = Department(
    id: string,
    name: string,
    consultationPrice: int,
    waitingPatients: seq<string>,
    availableDoctors: seq<string>,
    specialties: seq<string>,
    color: string)

  /** A lookup table with string keys, such as `{ cardiology: "Cardiologie", ... }`. */
  type Labels = map<string, string>

  /** `labels[key] || key`: the entry's label, or the key itself when the table has no
      entry for it (every label in the source tables is non-empty). */
  function LabelOr(labels: Labels, key: string): (r: string)
    ensures key in labels ==> r == labels[key]
    ensures key !in labels ==> r == key
  {
    if key in labels then labels[key] else key
  }
}
