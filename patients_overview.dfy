/** The management view of every patient (`components/hr/patients-overview.tsx`): a
    search with department and status filters, a sortable table, head counts and
    label lookups. `lower` stands for `toLowerCase`; `localeCompare` is taken as
    code-unit order (`Text.StrLe`). */
module PatientsOverview {
  import opened Seqs
  import opened Types
  import opened Text
  import opened Sorting
  import Departments
  import Workflow

  datatype Direction = Ascending | Descending

  datatype SortConfig = SortConfig(key: string, direction: Direction)

  /** The configuration after a click on column `key`: the current ascending column
      turns descending, anything else sorts `key` ascending. */
  function NextConfig(c: SortConfig, key: string): (r: SortConfig)
    ensures r.key == key
    ensures r.direction == Descending <==> c.key == key && c.direction == Ascending
  {
    SortConfig(key, if c.key == key && c.direction == Ascending then Descending else Ascending)
  }

  /** Two clicks on the current column give the configuration back. */
  lemma SortToggleTwice(c: SortConfig, key: string)
    requires c.key == key
    ensures NextConfig(NextConfig(c, key), key) == c
  {
  }

  /** The `sortConfig` state and `handleSort`. */
  class SortState {
    var config: SortConfig

    constructor()
      ensures config == SortConfig("lastName", Ascending)
    {
      config := SortConfig("lastName", Ascending);
    }

    method HandleSort(key: string)
      modifies this
      ensures config == NextConfig(old(config), key)
    {
      config := NextConfig(config, key);
    }
  }

  // ---- filteredPatients ----

  datatype Filters = Filters(search: string, department: string, status: string)

  /** Names and QR code are compared lower-cased, the phone number as typed. */
  predicate MatchesSearch(p: Patient, term: string, lower: string -> string) {
    Includes(lower(p.firstName), lower(term)) || Includes(lower(p.lastName), lower(term)) ||
    Includes(lower(p.qrCode), lower(term)) || Includes(p.phone, term)
  }

  predicate MatchesDepartment(p: Patient, filter: string) {
    filter == "all" || p.department == Some(filter)
  }

  predicate MatchesStatus(p: Patient, filter: string) {
    filter == "all" || p.status.Key() == filter
  }

  predicate Shows(f: Filters, lower: string -> string, p: Patient) {
    MatchesSearch(p, f.search, lower) && MatchesDepartment(p, f.department) && MatchesStatus(p, f.status)
  }

  /** `filteredPatients`: the patients passing all three filters, in list order. */
  function FilteredPatients(ps: seq<Patient>, f: Filters, lower: string -> string): (r: seq<Patient>)
    ensures forall i :: 0 <= i < |r| ==> r[i] in ps && Shows(f, lower, r[i])
    ensures forall i :: 0 <= i < |ps| && Shows(f, lower, ps[i]) ==> ps[i] in r
    ensures IsSubseq(r, ps)
  {
    Filter(ps, p => Shows(f, lower, p))
  }

  /** With nothing typed and both selectors on "all", every patient is listed. */
  lemma NoFilterShowsAll(ps: seq<Patient>, lower: string -> string)
    requires lower("") == ""
    ensures FilteredPatients(ps, Filters("", "all", "all"), lower) == ps
  {
    forall i | 0 <= i < |ps| ensures Shows(Filters("", "all", "all"), lower, ps[i]) {
      assert StartsWith(lower(ps[i].firstName), "");
    }
    FilterAll(ps, p => Shows(Filters("", "all", "all"), lower, p));
  }

  // ---- sortedPatients ----

  predicate KnownKey(key: string) {
    key == "lastName" || key == "department" || key == "status"
  }

  /** The text compared for a column: `(a.department || "")` for the department. */
  function SortKey(p: Patient, key: string): string {
    if key == "lastName" then p.lastName
    else if key == "department" then p.department.GetOr("")
    else p.status.Key()
  }

  /** The comparator says `a` may come first: its key is not after `b`'s in the
      chosen direction; an unknown column compares everything equal. */
  function OverviewLe(c: SortConfig): (Patient, Patient) -> bool {
    (a: Patient, b: Patient) =>
      if !KnownKey(c.key) then true
      else if c.direction == Ascending then StrLe(SortKey(a, c.key), SortKey(b, c.key))
      else StrLe(SortKey(b, c.key), SortKey(a, c.key))
  }

  lemma OverviewLeTotalPreorder(c: SortConfig)
    ensures TotalPreorder(OverviewLe(c))
  {
    var le := OverviewLe(c);
    forall a, b ensures le(a, b) || le(b, a) {
      StrLeTotal(SortKey(a, c.key), SortKey(b, c.key));
    }
    forall a, b, d | le(a, b) && le(b, d) ensures le(a, d) {
      if KnownKey(c.key) {
        if c.direction == Ascending {
          StrLeTransitive(SortKey(a, c.key), SortKey(b, c.key), SortKey(d, c.key));
        } else {
          StrLeTransitive(SortKey(d, c.key), SortKey(b, c.key), SortKey(a, c.key));
        }
      }
    }
  }

  /** `[...filteredPatients].sort(...)`: a sorted copy. */
  function SortedPatients(ps: seq<Patient>, c: SortConfig): seq<Patient> {
    SortBy(ps, OverviewLe(c))
  }

  /** The table shows the same patients, ordered by the column in the chosen direction;
      an unknown column keeps the filtered order. */
  lemma SortedPatientsOrdered(ps: seq<Patient>, c: SortConfig)
    ensures multiset(SortedPatients(ps, c)) == multiset(ps)
    ensures KnownKey(c.key) && c.direction == Ascending ==>
      forall i, j :: 0 <= i < j < |ps| ==>
        StrLe(SortKey(SortedPatients(ps, c)[i], c.key), SortKey(SortedPatients(ps, c)[j], c.key))
    ensures KnownKey(c.key) && c.direction == Descending ==>
      forall i, j :: 0 <= i < j < |ps| ==>
        StrLe(SortKey(SortedPatients(ps, c)[j], c.key), SortKey(SortedPatients(ps, c)[i], c.key))
    ensures !KnownKey(c.key) ==> SortedPatients(ps, c) == ps
  {
    var le := OverviewLe(c);
    OverviewLeTotalPreorder(c);
    SortBySorted(ps, le);
    var q := SortedPatients(ps, c);
    assert forall i, j :: 0 <= i < j < |q| ==> le(q[i], q[j]);
    if !KnownKey(c.key) {
      SortByIdentity(ps, le);
    }
  }

  // ---- statistics ----

  function IsHospitalized(p: Patient): bool {
    p.isHospitalized
  }

  function IsWaiting(p: Patient): bool {
    p.status == WaitingConsultation
  }

  function IsInConsultation(p: Patient): bool {
    p.status == InConsultation
  }

  datatype Overview = Overview(total: nat, hospitalized: nat, waiting: nat, inConsultation: nat)

  /** The four cards, over all patients (not the filtered ones). */
  function Counts(ps: seq<Patient>): (r: Overview)
    ensures r.total == |ps|
    ensures r.hospitalized == |Filter(ps, (p: Patient) => p.isHospitalized)|
    ensures r.waiting == |Filter(ps, (p: Patient) => p.status == WaitingConsultation)|
    ensures r.inConsultation == |Filter(ps, (p: Patient) => p.status == InConsultation)|
    ensures r.hospitalized <= r.total && r.waiting + r.inConsultation <= r.total
  {
    CountDisjoint(ps, IsWaiting, IsInConsultation);
    FilterSame(ps, IsHospitalized, (p: Patient) => p.isHospitalized);
    FilterSame(ps, IsWaiting, (p: Patient) => p.status == WaitingConsultation);
    FilterSame(ps, IsInConsultation, (p: Patient) => p.status == InConsultation);
    Overview(|ps|, Count(ps, IsHospitalized), Count(ps, IsWaiting), Count(ps, IsInConsultation))
  }

  /** The hospitalized and waiting cards count the same patients as the front desk's
      hospitalized list and consultation queue. */
  lemma CountsMatchFrontDesk(ps: seq<Patient>)
    ensures Counts(ps).hospitalized == |Workflow.HospitalizedPatients(ps)|
    ensures Counts(ps).waiting == |Workflow.WaitingConsultations(ps)|
  {
    FilterSame(ps, IsHospitalized, Workflow.IsHospitalizedPatient);
    FilterSame(ps, IsWaiting, Workflow.IsWaitingConsultation);
  }

  // ---- labels ----

  /** `statusNames`; it has no entry for "registered". */
  function StatusLabels(): Labels {
    map[ "waiting_payment" := "En attente de paiement", "waiting_consultation" := "En attente de consultation",
         "in_consultation" := "En consultation", "hospitalized" := "Hospitalisé", "completed" := "Terminé" ]
  }

  /** `getDepartmentName`: the seven-entry table, or the id itself. */
  function DepartmentLabel(dept: string): (r: string)
    ensures dept in Departments.OverviewLabels() ==> r == Departments.OverviewLabels()[dept]
    ensures dept !in Departments.OverviewLabels() ==> r == dept
  {
    LabelOr(Departments.OverviewLabels(), dept)
  }

  /** `getStatusName`: the table's label, or the key itself. */
  function StatusLabel(key: string): (r: string)
    ensures key in StatusLabels() ==> r == StatusLabels()[key]
    ensures key !in StatusLabels() ==> r == key
  {
    LabelOr(StatusLabels(), key)
  }

  /** Every status except "registered" has a French label; that one shows its key. */
  lemma StatusLabelsCover(s: Status)
    ensures s != Registered <==> s.Key() in StatusLabels()
    ensures StatusLabel(Registered.Key()) == "registered"
  {
  }
}
