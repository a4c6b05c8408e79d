/** The ward list of the doctor's screen (`components/doctor/hospitalized-patients.tsx`):
    a search over hospitalized patients and the length of each stay. `lower` stands for
    `toLowerCase`. */
module HospitalizedView {
  import opened Seqs
  import opened Types
  import opened Text

  /** The optional room matches only when there is one. */
  predicate RoomMatches(p: Patient, term: string, lower: string -> string) {
    p.hospitalRoom.Some? && Includes(lower(p.hospitalRoom.value), lower(term))
  }

  predicate MatchesWard(p: Patient, term: string, lower: string -> string) {
    p.isHospitalized &&
    (Includes(lower(p.firstName), lower(term)) || Includes(lower(p.lastName), lower(term)) || RoomMatches(p, term, lower))
  }

  /** `hospitalizedPatients`. */
  function WardList(ps: seq<Patient>, term: string, lower: string -> string): (r: seq<Patient>)
    ensures forall i :: 0 <= i < |r| ==> r[i] in ps && r[i].isHospitalized
    ensures forall i :: 0 <= i < |r| ==> MatchesWard(r[i], term, lower)
    ensures forall i :: 0 <= i < |ps| && MatchesWard(ps[i], term, lower) ==> ps[i] in r
    ensures IsSubseq(r, ps)
  {
    Filter(ps, p => MatchesWard(p, term, lower))
  }

  /** With nothing typed the list is every hospitalized patient. */
  lemma EmptySearchKeepsWard(ps: seq<Patient>, lower: string -> string)
    requires lower("") == ""
    ensures WardList(ps, "", lower) == Filter(ps, (p: Patient) => p.isHospitalized)
  {
    forall i | 0 <= i < |ps| ensures MatchesWard(ps[i], "", lower) == ps[i].isHospitalized {
      assert StartsWith(lower(ps[i].firstName), "");
    }
    FilterSame(ps, p => MatchesWard(p, "", lower), (p: Patient) => p.isHospitalized);
  }

  const DayMs: nat := 1000 * 60 * 60 * 24

  /** `Math.ceil(Math.abs(now - admission) / 86400000)`. */
  function StayDays(nowMs: int, admissionMs: int): (n: nat)
    ensures var d := if nowMs >= admissionMs then nowMs - admissionMs else admissionMs - nowMs;
      (n - 1) * 86400000 < d <= n * 86400000 || (d == 0 && n == 0)
  {
    var d := if nowMs >= admissionMs then nowMs - admissionMs else admissionMs - nowMs;
    (d + DayMs - 1) / DayMs
  }

  /** `getDaysHospitalized`: "N/A" without an admission date (an empty one included),
      "1 jour" for exactly one day, "N jours" otherwise. */
  function StayText(admission: Option<string>, nowMs: int, timeOf: string -> int): (r: string)
    ensures admission.None? || admission == Some("") ==> r == "N/A"
    ensures admission.Some? && admission.value != "" && StayDays(nowMs, timeOf(admission.value)) == 1 ==> r == "1 jour"
    ensures admission.Some? && admission.value != "" && StayDays(nowMs, timeOf(admission.value)) != 1 ==>
      r == NatToString(StayDays(nowMs, timeOf(admission.value))) + " jours"
  {
    match admission
    case None => "N/A"
    case Some(a) =>
      if a == "" then "N/A"
      else
        var n := StayDays(nowMs, timeOf(a));
        if n == 1 then "1 jour" else NatToString(n) + " jours"
  }

  /** The diagnosis on a ward card: that of the last history record, if any. */
  function LatestDiagnosis(p: Patient): (r: Option<string>)
    ensures r.None? <==> p.medicalHistory == []
    ensures r.Some? ==> r.value == p.medicalHistory[|p.medicalHistory| - 1].diagnosis
  {
    if p.medicalHistory == [] then None else Some(p.medicalHistory[|p.medicalHistory| - 1].diagnosis)
  }
}
