/** A doctor's home screen (`components/doctor/consultation-menu.tsx`): the lists it
    narrows to the doctor's department and the badges it labels. The department
    comparison is between two optional values, so a user without a department sees
    the patients without one. */
module ConsultationMenu {
  import opened Seqs
  import opened Types
  import opened Text

  /** The signed-in user, as far as this screen looks at it. */
  datatype User = User(id: string, department: Option<string>)

  function SameDepartment(dept: Option<string>): Patient -> bool {
    (p: Patient) => p.department == dept
  }

  /** `departmentWaitingPatients` and `departmentHospitalizedPatients`. */
  function InMyDepartment(ps: seq<Patient>, user: User): (r: seq<Patient>)
    ensures forall i :: 0 <= i < |r| ==> r[i] in ps && r[i].department == user.department
    ensures forall i :: 0 <= i < |ps| && ps[i].department == user.department ==> ps[i] in r
    ensures IsSubseq(r, ps)
  {
    Filter(ps, SameDepartment(user.department))
  }

  /** `inConsultationPatients`. */
  function InConsultationHere(ps: seq<Patient>, user: User): (r: seq<Patient>)
    ensures forall i :: 0 <= i < |r| ==> r[i] in ps && r[i].status == InConsultation && r[i].department == user.department
    ensures forall i :: 0 <= i < |ps| && ps[i].status == InConsultation && ps[i].department == user.department ==> ps[i] in r
    ensures IsSubseq(r, ps)
  {
    Filter(ps, (p: Patient) => p.status == InConsultation && p.department == user.department)
  }

  /** The history holds a record of this doctor dated `today` (a `YYYY-MM-DD` prefix). */
  predicate SeenToday(p: Patient, today: string, doctorId: string) {
    exists k :: 0 <= k < |p.medicalHistory| &&
      StartsWith(p.medicalHistory[k].date, today) && p.medicalHistory[k].doctorId == doctorId
  }

  /** The history holds a record of this doctor. */
  predicate TreatedBy(p: Patient, doctorId: string) {
    exists k :: 0 <= k < |p.medicalHistory| && p.medicalHistory[k].doctorId == doctorId
  }

  /** `todayConsultations`. */
  function TodayConsultations(ps: seq<Patient>, today: string, doctorId: string): (r: seq<Patient>)
    ensures forall i :: 0 <= i < |r| ==> r[i] in ps && SeenToday(r[i], today, doctorId)
    ensures forall i :: 0 <= i < |ps| && SeenToday(ps[i], today, doctorId) ==> ps[i] in r
    ensures IsSubseq(r, ps)
  {
    Filter(ps, (p: Patient) => SeenToday(p, today, doctorId))
  }

  /** `myPatients`: treated by this doctor and not in a ward bed. */
  function MyPatients(ps: seq<Patient>, doctorId: string): (r: seq<Patient>)
    ensures forall i :: 0 <= i < |r| ==> r[i] in ps && TreatedBy(r[i], doctorId) && !r[i].isHospitalized
    ensures forall i :: 0 <= i < |ps| && TreatedBy(ps[i], doctorId) && !ps[i].isHospitalized ==> ps[i] in r
    ensures IsSubseq(r, ps)
  {
    Filter(ps, (p: Patient) => TreatedBy(p, doctorId) && !p.isHospitalized)
  }

  /** Everyone seen today by the doctor was treated by the doctor. */
  lemma TodayAreTreated(p: Patient, today: string, doctorId: string)
    requires SeenToday(p, today, doctorId)
    ensures TreatedBy(p, doctorId)
  {
    var k :| 0 <= k < |p.medicalHistory| &&
      StartsWith(p.medicalHistory[k].date, today) && p.medicalHistory[k].doctorId == doctorId;
  }

  /** The labels of `statusConfig`. */
  function StatusBadges(): Labels {
    map[ "waiting_consultation" := "En attente", "in_consultation" := "En consultation",
         "waiting_payment" := "Attente paiement", "completed" := "Terminé", "hospitalized" := "Hospitalisé" ]
  }

  /** The labels of `priorityConfig`; it lists "high" and "low", which no patient has,
      and not "emergency". */
  function PriorityBadges(): Labels {
    map[ "urgent" := "Urgent", "high" := "Élevée", "normal" := "Normal", "low" := "Faible" ]
  }

  /** `getStatusBadge`'s label: the table's, or the status key itself. */
  function StatusBadge(status: Status): (r: string)
    ensures status.Key() in StatusBadges() ==> r == StatusBadges()[status.Key()]
    ensures status.Key() !in StatusBadges() ==> r == status.Key()
  {
    LabelOr(StatusBadges(), status.Key())
  }

  /** `getPriorityBadge`'s label: the table's, or the priority key itself. */
  function PriorityBadge(priority: Priority): (r: string)
    ensures priority.Key() in PriorityBadges() ==> r == PriorityBadges()[priority.Key()]
    ensures priority.Key() !in PriorityBadges() ==> r == priority.Key()
  {
    LabelOr(PriorityBadges(), priority.Key())
  }

  /** An emergency patient's badge reads the raw key "emergency", and a registered
      patient's "registered"; the other values have French labels. */
  lemma RawBadges()
    ensures PriorityBadge(Emergency) == "emergency"
    ensures PriorityBadge(Urgent) == "Urgent" && PriorityBadge(Normal) == "Normal"
    ensures StatusBadge(Registered) == "registered"
    ensures forall s: Status :: s != Registered ==> s.Key() in StatusBadges()
  {
  }
}
