/** The patient list (`components/patients/patient-list.tsx`): a search box, a status
    filter and a badge per patient. `lower` stands for `toLowerCase`. */
module PatientList {
  import opened Seqs
  import opened Types
  import opened Text

  /** The filter selector's three values. */
  datatype ListFilter = AllPatients | ActiveOnly | HospitalizedOnly

  /** Names are compared lower-cased, the QR code exactly as typed. */
  predicate MatchesSearch(p: Patient, term: string, lower: string -> string) {
    Includes(lower(p.firstName), lower(term)) || Includes(lower(p.lastName), lower(term)) ||
    Includes(p.qrCode, term)
  }

  /** The "active" choice compares the status with a key no status has. */
  predicate MatchesFilter(p: Patient, f: ListFilter) {
    f == AllPatients || (f == ActiveOnly && p.status.Key() == "active") ||
    (f == HospitalizedOnly && p.isHospitalized)
  }

  predicate Listed(p: Patient, term: string, f: ListFilter, lower: string -> string) {
    MatchesSearch(p, term, lower) && MatchesFilter(p, f)
  }

  /** `filteredPatients`: in list order. */
  function ListedPatients(ps: seq<Patient>, term: string, f: ListFilter, lower: string -> string): (r: seq<Patient>)
    ensures forall i :: 0 <= i < |r| ==> r[i] in ps && Listed(r[i], term, f, lower)
    ensures forall i :: 0 <= i < |ps| && Listed(ps[i], term, f, lower) ==> ps[i] in r
    ensures IsSubseq(r, ps)
  {
    Filter(ps, p => Listed(p, term, f, lower))
  }

  /** "all" keeps every search match. */
  lemma AllKeepsMatches(ps: seq<Patient>, term: string, lower: string -> string)
    ensures ListedPatients(ps, term, AllPatients, lower) == Filter(ps, p => MatchesSearch(p, term, lower))
  {
    FilterSame(ps, p => Listed(p, term, AllPatients, lower), p => MatchesSearch(p, term, lower));
  }

  /** "hospitalized" keeps the search matches that are in a ward bed. */
  lemma HospitalizedKeepsWard(ps: seq<Patient>, term: string, lower: string -> string)
    ensures ListedPatients(ps, term, HospitalizedOnly, lower) ==
      Filter(ps, p => MatchesSearch(p, term, lower) && p.isHospitalized)
  {
    FilterSame(ps, p => Listed(p, term, HospitalizedOnly, lower), p => MatchesSearch(p, term, lower) && p.isHospitalized);
  }

  /** "active" lists nobody, whatever is typed. */
  lemma ActiveListsNobody(ps: seq<Patient>, term: string, lower: string -> string)
    ensures ListedPatients(ps, term, ActiveOnly, lower) == []
  {
    forall i | 0 <= i < |ps| ensures !Listed(ps[i], term, ActiveOnly, lower) {
      assert ps[i].status.Key() != "active";
    }
    FilterNone(ps, p => Listed(p, term, ActiveOnly, lower));
  }

  datatype Badge = HospitalizedBadge | ActiveBadge | InactiveBadge

  /** `getStatusBadge`: hospitalization is checked before the status. */
  function StatusBadge(p: Patient): (r: Badge)
    ensures r == HospitalizedBadge <==> p.isHospitalized
    ensures r == ActiveBadge <==> !p.isHospitalized && p.status.Key() == "active"
  {
    if p.isHospitalized then HospitalizedBadge
    else if p.status.Key() == "active" then ActiveBadge
    else InactiveBadge
  }

  /** No patient ever gets the "Actif" badge. */
  lemma NeverActive(p: Patient)
    ensures StatusBadge(p) != ActiveBadge
    ensures !p.isHospitalized ==> StatusBadge(p) == InactiveBadge
  {
    assert p.status.Key() != "active";
  }
}
