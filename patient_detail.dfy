/** A patient's file (`components/patients/patient-detail.tsx`): the history sorted
    newest first, split into consultations and hospitalizations, the recent-activity
    preview, and the electrophoresis rows of a laboratory result. `timeOf` stands
    for `new Date(date).getTime()`. */
module PatientDetail {
  import opened Seqs
  import opened Types
  import opened Sorting
  import LabResults

  /** The comparator `b - a` on timestamps: `a` may come first when it is not older. */
  function NewestFirst(timeOf: string -> int): (MedicalRecord, MedicalRecord) -> bool {
    (a: MedicalRecord, b: MedicalRecord) => timeOf(b.date) - timeOf(a.date) <= 0
  }

  lemma NewestFirstTotalPreorder(timeOf: string -> int)
    ensures TotalPreorder(NewestFirst(timeOf))
  {
  }

  /** `sortedMedicalHistory`: a sorted copy; the patient's own list is left as it is. */
  function SortedHistory(p: Patient, timeOf: string -> int): seq<MedicalRecord> {
    SortBy(p.medicalHistory, NewestFirst(timeOf))
  }

  /** The sorted history holds the same records, newest first. */
  lemma SortedHistoryOrdered(p: Patient, timeOf: string -> int)
    ensures multiset(SortedHistory(p, timeOf)) == multiset(p.medicalHistory)
    ensures Sorted(SortedHistory(p, timeOf), NewestFirst(timeOf))
    ensures forall i, j :: 0 <= i < j < |SortedHistory(p, timeOf)| ==>
      timeOf(SortedHistory(p, timeOf)[j].date) <= timeOf(SortedHistory(p, timeOf)[i].date)
  {
    NewestFirstTotalPreorder(timeOf);
    SortBySorted(p.medicalHistory, NewestFirst(timeOf));
  }

  predicate IsConsultation(r: MedicalRecord) {
    r.kind == Consultation || r.kind == FollowUp
  }

  predicate IsHospitalization(r: MedicalRecord) {
    r.kind == Hospitalization
  }

  /** `consultations`. */
  function Consultations(p: Patient, timeOf: string -> int): seq<MedicalRecord> {
    Filter(SortedHistory(p, timeOf), IsConsultation)
  }

  /** `hospitalizations`. */
  function Hospitalizations(p: Patient, timeOf: string -> int): seq<MedicalRecord> {
    Filter(SortedHistory(p, timeOf), IsHospitalization)
  }

  /** A view of the sorted history is exactly the history's records of its kind, each
      as often as there, newest first. */
  lemma {:induction false} ViewExact(p: Patient, timeOf: string -> int, keep: MedicalRecord -> bool)
    ensures multiset(Filter(SortedHistory(p, timeOf), keep)) == multiset(Filter(p.medicalHistory, keep))
    ensures Sorted(Filter(SortedHistory(p, timeOf), keep), NewestFirst(timeOf))
  {
    SortedHistoryOrdered(p, timeOf);
    FilterPermutation(SortedHistory(p, timeOf), p.medicalHistory, keep);
    FilterSorted(SortedHistory(p, timeOf), keep, NewestFirst(timeOf));
  }

  /** The consultations tab: consultations and follow-ups only, all of them, newest first. */
  lemma ConsultationsExact(p: Patient, timeOf: string -> int)
    ensures multiset(Consultations(p, timeOf)) == multiset(Filter(p.medicalHistory, IsConsultation))
    ensures forall i :: 0 <= i < |Consultations(p, timeOf)| ==> IsConsultation(Consultations(p, timeOf)[i])
    ensures forall i, j :: 0 <= i < j < |Consultations(p, timeOf)| ==>
      timeOf(Consultations(p, timeOf)[j].date) <= timeOf(Consultations(p, timeOf)[i].date)
  {
    ViewExact(p, timeOf, IsConsultation);
  }

  /** The hospitalizations tab: hospitalizations only, all of them, newest first. */
  lemma HospitalizationsExact(p: Patient, timeOf: string -> int)
    ensures multiset(Hospitalizations(p, timeOf)) == multiset(Filter(p.medicalHistory, IsHospitalization))
    ensures forall i :: 0 <= i < |Hospitalizations(p, timeOf)| ==> IsHospitalization(Hospitalizations(p, timeOf)[i])
    ensures forall i, j :: 0 <= i < j < |Hospitalizations(p, timeOf)| ==>
      timeOf(Hospitalizations(p, timeOf)[j].date) <= timeOf(Hospitalizations(p, timeOf)[i].date)
  {
    ViewExact(p, timeOf, IsHospitalization);
  }

  /** The "recent activities" card: `slice(0, 3)` of the sorted history. */
  function RecentActivity(p: Patient, timeOf: string -> int): seq<MedicalRecord> {
    Take(SortedHistory(p, timeOf), 3)
  }

  /** At most three records, and none of the records left out is newer than one shown. */
  lemma RecentActivityNewest(p: Patient, timeOf: string -> int)
    ensures |RecentActivity(p, timeOf)| == if |p.medicalHistory| < 3 then |p.medicalHistory| else 3
    ensures forall i, j :: 0 <= i < |RecentActivity(p, timeOf)| <= j < |SortedHistory(p, timeOf)| ==>
      timeOf(SortedHistory(p, timeOf)[j].date) <= timeOf(RecentActivity(p, timeOf)[i].date)
  {
    SortedHistoryOrdered(p, timeOf);
    var s := SortedHistory(p, timeOf);
    forall i | 0 <= i < |RecentActivity(p, timeOf)| ensures RecentActivity(p, timeOf)[i] == s[i] {
    }
  }

  /** The current-stay box is drawn on the first (most recent) hospitalization record,
      and only while the patient is in a ward bed. */
  predicate ShowsCurrentStay(p: Patient, timeOf: string -> int, i: nat) {
    p.isHospitalized && i == 0 && i < |Hospitalizations(p, timeOf)|
  }

  /** At most one record carries the box, and it is a hospitalization no older than any other. */
  lemma {:induction false} CurrentStayUnique(p: Patient, timeOf: string -> int, i: nat, j: nat)
    requires ShowsCurrentStay(p, timeOf, i)
    ensures ShowsCurrentStay(p, timeOf, j) ==> i == j
    ensures forall k :: 0 <= k < |Hospitalizations(p, timeOf)| ==>
      timeOf(Hospitalizations(p, timeOf)[k].date) <= timeOf(Hospitalizations(p, timeOf)[i].date)
  {
    HospitalizationsExact(p, timeOf);
    var h := Hospitalizations(p, timeOf);
    forall k | 0 <= k < |h| ensures timeOf(h[k].date) <= timeOf(h[i].date) {
      if k > 0 {
        assert 0 <= i < k < |h|;
      }
    }
  }

  /** The five parameter names of the electrophoresis panel. */
  function ElectrophoresisNames(): seq<string> {
    ["Albumine", "Alpha-1", "Alpha-2", "Beta", "Gamma"]
  }

  predicate IsElectrophoresisRow(v: LabValue) {
    v.name in ElectrophoresisNames()
  }

  /** `electrophoresisValues`: the panel's rows, in the result's order; an empty list
      draws nothing. */
  function ElectrophoresisRows(l: LabResult): (r: seq<LabValue>)
    ensures forall i :: 0 <= i < |r| ==> r[i] in l.results && r[i].name in ElectrophoresisNames()
    ensures forall i :: 0 <= i < |l.results| && l.results[i].name in ElectrophoresisNames() ==> l.results[i] in r
    ensures IsSubseq(r, l.results)
  {
    Filter(l.results, IsElectrophoresisRow)
  }

  /** A result filled from the electrophoresis template shows all five of its rows. */
  lemma TemplateRowsShown(l: LabResult)
    requires l.results == LabResults.FromTemplate(LabResults.ElectrophoresisTemplate())
    ensures ElectrophoresisRows(l) == l.results
    ensures |ElectrophoresisRows(l)| == 5
  {
    var t := LabResults.ElectrophoresisTemplate();
    forall i | 0 <= i < |l.results| ensures IsElectrophoresisRow(l.results[i]) {
      assert l.results[i].name == t[i].name;
      assert t[i].name == ElectrophoresisNames()[i];
    }
    FilterAll(l.results, IsElectrophoresisRow);
  }

  /** `age`: the difference of calendar years, without regard to the birthday. */
  function Age(currentYear: int, birthYear: int): (r: int)
    ensures birthYear + r == currentYear
  {
    currentYear - birthYear
  }
}
