/** The department administration cards (`components/admin/department-management.tsx`):
    per-department counts over the whole patient list. `sameDay` stands for comparing
    `toDateString()` of a registration date with today's, which depends on the local
    time zone. */
module DepartmentManagement {
  import opened Seqs
  import opened Types
  import Queue

  datatype DeptCounts = DeptCounts(waitingConsultation: nat, inConsultation: nat, hospitalized: nat, totalToday: nat)

  function InDept(deptId: string): Patient -> bool {
    (p: Patient) => p.department == Some(deptId)
  }

  function IsWaiting(p: Patient): bool {
    p.status == WaitingConsultation
  }

  function IsInConsultation(p: Patient): bool {
    p.status == InConsultation
  }

  function IsHospitalized(p: Patient): bool {
    p.isHospitalized
  }

  function RegisteredToday(sameDay: string -> bool): Patient -> bool {
    (p: Patient) => sameDay(p.registrationDate)
  }

  /** `deptPatients`. */
  function DeptPatients(ps: seq<Patient>, deptId: string): (r: seq<Patient>)
    ensures forall i :: 0 <= i < |r| ==> r[i] in ps && r[i].department == Some(deptId)
    ensures forall i :: 0 <= i < |ps| && ps[i].department == Some(deptId) ==> ps[i] in r
    ensures IsSubseq(r, ps)
  {
    Filter(ps, InDept(deptId))
  }

  /** `getDepartmentStats`: each card counts the patients of the whole list that belong
      to the department and meet its condition; the waiting and in-consultation counts
      never overlap. */
  function DepartmentStats(ps: seq<Patient>, deptId: string, sameDay: string -> bool): (r: DeptCounts)
    ensures r.waitingConsultation == |Filter(ps, (p: Patient) => p.department == Some(deptId) && p.status == WaitingConsultation)|
    ensures r.inConsultation == |Filter(ps, (p: Patient) => p.department == Some(deptId) && p.status == InConsultation)|
    ensures r.hospitalized == |Filter(ps, (p: Patient) => p.department == Some(deptId) && p.isHospitalized)|
    ensures r.totalToday == |Filter(ps, (p: Patient) => p.department == Some(deptId) && sameDay(p.registrationDate))|
    ensures r.waitingConsultation + r.inConsultation <= |DeptPatients(ps, deptId)|
    ensures r.hospitalized <= |DeptPatients(ps, deptId)| && r.totalToday <= |DeptPatients(ps, deptId)|
  {
    var d := DeptPatients(ps, deptId);
    CountDisjoint(d, IsWaiting, IsInConsultation);
    FilterFilter(ps, InDept(deptId), IsWaiting, (p: Patient) => p.department == Some(deptId) && p.status == WaitingConsultation);
    FilterFilter(ps, InDept(deptId), IsInConsultation, (p: Patient) => p.department == Some(deptId) && p.status == InConsultation);
    FilterFilter(ps, InDept(deptId), IsHospitalized, (p: Patient) => p.department == Some(deptId) && p.isHospitalized);
    FilterFilter(ps, InDept(deptId), RegisteredToday(sameDay), (p: Patient) => p.department == Some(deptId) && sameDay(p.registrationDate));
    DeptCounts(Count(d, IsWaiting), Count(d, IsInConsultation), Count(d, IsHospitalized),
               Count(d, RegisteredToday(sameDay)))
  }

  /** A department no patient belongs to shows four zeros. */
  lemma EmptyDepartment(ps: seq<Patient>, deptId: string, sameDay: string -> bool)
    requires forall i :: 0 <= i < |ps| ==> ps[i].department != Some(deptId)
    ensures DepartmentStats(ps, deptId, sameDay) == DeptCounts(0, 0, 0, 0)
  {
    FilterNone(ps, InDept(deptId));
  }

  /** The waiting count is the one the queues overview shows for that department. */
  lemma WaitingMatchesQueue(ps: seq<Patient>, deptId: string, sameDay: string -> bool)
    ensures DepartmentStats(ps, deptId, sameDay).waitingConsultation == |Queue.DepartmentQueue(ps, deptId)|
  {
    FilterSame(ps, (p: Patient) => p.department == Some(deptId) && p.status == WaitingConsultation,
      p => Queue.InDepartmentQueue(deptId, p));
  }
}
