/** The reception desk's registration form
    (`components/reception/patient-registration.tsx`): the emergency-contact editor,
    the comma-separated lists, the local price list and the new patient record. */
module Registration {
  import opened Seqs
  import opened Types
  import opened Text
  import Departments

  // ---- comma-separated lists ----

  predicate NonEmpty(s: string) {
    s != []
  }

  /** `s.split(",").map(a => a.trim()).filter(a => a)`. */
  function SplitList(s: string): (r: seq<string>)
    ensures forall i :: 0 <= i < |r| ==> r[i] != [] && Trim(r[i]) == r[i] && ',' !in r[i]
    ensures IsSubseq(r, Map(Split(s, ','), Trim))
    ensures forall i :: 0 <= i < |Split(s, ',')| && Trim(Split(s, ',')[i]) != [] ==> Trim(Split(s, ',')[i]) in r
  {
    var pieces := Map(Split(s, ','), Trim);
    var r := Filter(pieces, NonEmpty);
    assert forall i :: 0 <= i < |r| ==> r[i] in pieces;
    forall i | 0 <= i < |r| ensures r[i] != [] && Trim(r[i]) == r[i] && ',' !in r[i] {
      var k :| 0 <= k < |pieces| && pieces[k] == r[i];
      TrimIdempotent(Split(s, ',')[k]);
      TrimKeeps(Split(s, ',')[k], ',');
    }
    r
  }

  /** Trimming removes characters, so one absent before is absent after. */
  lemma TrimKeeps(s: string, c: char)
    requires c !in s
    ensures c !in Trim(s)
  {
    var r := Trim(s);
    var i := LeadingSpaces(s);
    assert forall k :: 0 <= k < |r| ==> r[k] == s[i + k];
  }

  /** A list written out with `", "`-free, comma-free, trimmed, non-empty items reads back
      as the same list. */
  lemma SplitListJoin(items: seq<string>)
    requires |items| >= 1
    requires forall i :: 0 <= i < |items| ==> items[i] != [] && Trim(items[i]) == items[i] && ',' !in items[i]
    ensures SplitList(Join(items, ',')) == items
  {
    SplitJoin(items, ',');
    assert Map(items, Trim) == items;
    FilterAll(items, NonEmpty);
  }

  // ---- emergency contacts ----

  function EmptyContact(): EmergencyContact {
    EmergencyContact("", "", "")
  }

  datatype ContactField = NameField | PhoneField | RelationshipField

  function SetField(c: EmergencyContact, field: ContactField, value: string): EmergencyContact {
    match field
    case NameField => c.(name := value)
    case PhoneField => c.(phone := value)
    case RelationshipField => c.(relationship := value)
  }

  predicate IsUsableContact(c: EmergencyContact) {
    Trim(c.name) != "" && Trim(c.phone) != ""
  }

  /** `validEmergencyContacts`: the contacts whose trimmed name and trimmed phone are
      both non-empty, in order; the relationship is not looked at. */
  function ValidContacts(cs: seq<EmergencyContact>): (r: seq<EmergencyContact>)
    ensures forall i :: 0 <= i < |r| ==> r[i] in cs && Trim(r[i].name) != "" && Trim(r[i].phone) != ""
    ensures forall i :: 0 <= i < |cs| && Trim(cs[i].name) != "" && Trim(cs[i].phone) != "" ==> cs[i] in r
    ensures IsSubseq(r, cs)
  {
    Filter(cs, IsUsableContact)
  }

  // ---- prices and QR codes ----

  /** The form's own price list, in its order (maternity after emergency). */
  function LocalPrices(): seq<(string, int)> {
    [("cardiology", 80), ("neurology", 90), ("pediatrics", 60), ("orthopedics", 75),
     ("dermatology", 65), ("emergency", 120), ("maternity", 70), ("psychiatry", 85),
     ("ophthalmology", 70)]
  }

  /** The price of the first entry of `table` listed under `key`. */
  function Lookup(table: seq<(string, int)>, key: string): (r: Option<int>)
    ensures r.None? <==> forall i :: 0 <= i < |table| ==> table[i].0 != key
    ensures r.Some? ==> exists i :: 0 <= i < |table| && table[i] == (key, r.value)
  {
    if table == [] then None
    else if table[0].0 == key then Some(table[0].1)
    else
      var r := Lookup(table[1..], key);
      assert forall i :: 1 <= i < |table| ==> table[i] == table[1..][i - 1];
      r
  }

  /** `selectedDept?.price || 0`: the listed price, or 0 for a department the list lacks
      (every listed price is non-zero, so `||` only replaces a missing entry). */
  function PriceOf(dept: string): (r: int)
    ensures (forall i :: 0 <= i < |LocalPrices()| ==> LocalPrices()[i].0 != dept) ==> r == 0
    ensures forall i :: 0 <= i < |LocalPrices()| && LocalPrices()[i].0 == dept ==> r == LocalPrices()[i].1 > 0
  {
    LocalPricesPositive();
    LocalPricesKeysDistinct();
    Lookup(LocalPrices(), dept).GetOr(0)
  }

  lemma LocalPricesPositive()
    ensures forall i :: 0 <= i < |LocalPrices()| ==> LocalPrices()[i].1 > 0
  {
  }

  /** No department is listed twice, so the first match is the only one. */
  lemma LocalPricesKeysDistinct()
    ensures forall i, j :: 0 <= i < j < |LocalPrices()| ==> LocalPrices()[i].0 != LocalPrices()[j].0
  {
  }

  /** `generateQRCode`: `"PAT"` and the last six digits of the millisecond clock. */
  function QrCode(nowMs: nat): (r: string)
    ensures |r| >= 4 && r[..3] == "PAT"
    ensures forall k :: 3 <= k < |r| ==> IsDigit(r[k])
    ensures |r| == 9 <==> nowMs >= 100000
  {
    var digits := NatToString(nowMs);
    DigitCount(nowMs, 5);
    "PAT" + Last(digits, 6)
  }

  /** The six digits of the code read back as the clock's value modulo a million. */
  lemma QrCodeDigits(nowMs: nat)
    ensures ParseNat(QrCode(nowMs)[3..]) == nowMs % 1000000
  {
    assert QrCode(nowMs)[3..] == Last(NatToString(nowMs), 6);
    LastDigits(nowMs, 6);
    LowDigitsMod(nowMs, 6);
    assert Pow10(6) == 1000000;
  }

  /** The number written by the last `k` decimal digits of `n`. */
  function LowDigits(n: nat, k: nat): nat {
    if k == 0 then 0 else 10 * LowDigits(n / 10, k - 1) + n % 10
  }

  /** Induction on the digits of `n` and the count `k`, for any property `P`. */
  lemma {:induction false} DigitInduction(P: (nat, nat) -> bool, n: nat, k: nat)
    requires forall m :: P(m, 0)
    requires forall m, j :: j >= 1 && m < 10 ==> P(m, j)
    requires forall m, j :: j >= 1 && m >= 10 && P(m / 10, j - 1) ==> P(m, j)
    ensures P(n, k)
    decreases k
  {
    if k >= 1 && n >= 10 {
      DigitInduction(P, n / 10, k - 1);
    }
  }

  predicate LastDigitsHold(n: nat, k: nat) {
    ParseNat(Last(NatToString(n), k)) == LowDigits(n, k)
  }

  /** The last `k` characters of the decimal rendering of `n` read back as its last `k` digits. */
  lemma LastDigits(n: nat, k: nat)
    ensures ParseNat(Last(NatToString(n), k)) == LowDigits(n, k)
  {
    forall m ensures LastDigitsHold(m, 0) {
      LastNoDigits(m);
    }
    forall m, j | j >= 1 && m < 10 ensures LastDigitsHold(m, j) {
      LastDigitsSingle(m, j);
    }
    forall m, j | j >= 1 && m >= 10 && LastDigitsHold(m / 10, j - 1) ensures LastDigitsHold(m, j) {
      LastDigitsStep(m, j);
    }
    DigitInduction(LastDigitsHold, n, k);
  }

  lemma LastNoDigits(n: nat)
    ensures ParseNat(Last(NatToString(n), 0)) == LowDigits(n, 0)
  {
    assert Last(NatToString(n), 0) == [];
  }

  lemma LastDigitsSingle(n: nat, k: nat)
    requires n < 10 && k >= 1
    ensures ParseNat(Last(NatToString(n), k)) == LowDigits(n, k)
  {
    SingleDigitText(n, k);
    LowDigitsSmall(n, k);
  }

  lemma LowDigitsSmall(n: nat, k: nat)
    requires n < 10 && k >= 1
    ensures LowDigits(n, k) == n
  {
    LowDigitsZero(k - 1);
    assert n / 10 == 0;
  }

  lemma SingleDigitText(n: nat, k: nat)
    requires n < 10 && k >= 1
    ensures ParseNat(Last(NatToString(n), k)) == n
  {
    var c := DigitChar(n);
    var t := NatToString(n);
    assert t == [c];
    assert Last(t, k) == t;
    assert [] + [c] == t;
    ParseNatSnoc([], c);
    DigitValueChar(n);
  }

  lemma LastDigitsStep(n: nat, k: nat)
    requires n >= 10 && k >= 1
    requires ParseNat(Last(NatToString(n / 10), k - 1)) == LowDigits(n / 10, k - 1)
    ensures ParseNat(Last(NatToString(n), k)) == LowDigits(n, k)
  {
    DigitText(n, k);
  }

  /** Dropping the last digit of `n` drops the last digit of its last `k` digits. */
  lemma DigitText(n: nat, k: nat)
    requires n >= 10 && k >= 1
    ensures ParseNat(Last(NatToString(n), k)) == 10 * ParseNat(Last(NatToString(n / 10), k - 1)) + n % 10
  {
    var u := NatToString(n / 10);
    var c := DigitChar(n % 10);
    assert NatToString(n) == u + [c];
    LastSnoc(u, c, k);
    ParseNatSnoc(Last(u, k - 1), c);
    DigitValueChar(n % 10);
  }

  lemma LastSnoc(u: string, c: char, k: nat)
    requires k >= 1
    ensures Last(u + [c], k) == Last(u, k - 1) + [c]
  {
    if |u| + 1 >= k {
      assert (u + [c])[|u| + 1 - k..] == u[|u| + 1 - k..] + [c];
    }
  }

  lemma {:induction false} LowDigitsZero(k: nat)
    ensures LowDigits(0, k) == 0
  {
    if k > 0 {
      LowDigitsZero(k - 1);
    }
  }

  lemma {:induction false} LowDigitsMod(n: nat, k: nat)
    ensures LowDigits(n, k) == n % Pow10(k)
  {
    if k == 0 {
      ModUnique(n, 1, n, 0);
    } else {
      LowDigitsMod(n / 10, k - 1);
      ModDigits(n / 10, n % 10, Pow10(k - 1));
      assert 10 * (n / 10) + n % 10 == n;
    }
  }

  lemma ParseNatSnoc(t: string, c: char)
    ensures ParseNat(t + [c]) == 10 * ParseNat(t) + DigitValue(c)
  {
    assert (t + [c])[..|t|] == t;
  }

  lemma ModDigits(q: nat, d: nat, p: nat)
    requires d < 10 && p >= 1
    ensures (10 * q + d) % (10 * p) == 10 * (q % p) + d
  {
    var m, x := q / p, q % p;
    assert q == m * p + x;
    assert 10 * q + d == m * (10 * p) + (10 * x + d);
    ModUnique(10 * q + d, 10 * p, m, 10 * x + d);
  }

  /** Division with remainder has one answer. */
  lemma ModUnique(a: int, b: int, m: int, x: int)
    requires b > 0 && 0 <= x < b && a == m * b + x
    ensures a % b == x
  {
    var q, r := a / b, a % b;
    assert a == q * b + r && 0 <= r < b;
    assert (q - m) * b == x - r;
    if q > m {
      MulAtLeast(q - m, b);
    } else if q < m {
      MulAtLeast(m - q, b);
    }
  }

  lemma MulAtLeast(k: int, b: int)
    requires k >= 1 && b > 0
    ensures k * b >= b
  {
  }

  // ---- the patient record ----

  /** The form's text fields and choices. */
  datatype Form = Form(
    firstName: string,
    lastName: string,
    dateOfBirth: string,
    gender: Gender,
    phone: string,
    email: string,
    address: string,
    allergies: string,
    chronicConditions: string,
    department: string,
    consultationType: string,
    priority: Priority)

  function EmptyForm(): Form {
    Form("", "", "", Unspecified, "", "", "", "", "", "", "", Normal)
  }

  /** The patient that `handleSubmit` hands on: ids from two clock readings, the
      registration time as an ISO string. */
  function NewPatient(f: Form, contacts: seq<EmergencyContact>, idMs: nat, qrMs: nat, nowIso: string): (p: Patient)
    ensures p.status == WaitingPayment && p.paymentStatus == Pending && !p.isHospitalized
    ensures p.medicalHistory == [] && p.currentMedications == [] && p.labResults == Some([])
    ensures p.hospitalRoom.None? && p.admissionDate.None? && p.paymentDate.None?
    ensures p.emergencyContacts == ValidContacts(contacts)
    ensures p.allergies == SplitList(f.allergies) && p.chronicConditions == SplitList(f.chronicConditions)
    ensures p.paymentAmount == Some(PriceOf(f.department)) && p.department == Some(f.department)
    ensures p.id == NatToString(idMs) && p.qrCode == QrCode(qrMs) && p.registrationDate == nowIso
    ensures p.priority == f.priority && p.consultationType == Some(f.consultationType)
    ensures p.firstName == f.firstName && p.lastName == f.lastName && p.dateOfBirth == f.dateOfBirth
    ensures p.gender == f.gender && p.phone == f.phone && p.email == f.email && p.address == f.address
  {
    Patient(
      NatToString(idMs), QrCode(qrMs), f.firstName, f.lastName, f.dateOfBirth, f.gender,
      f.phone, f.email, f.address, ValidContacts(contacts), [], SplitList(f.allergies),
      SplitList(f.chronicConditions), [], false, None, None, WaitingPayment,
      Some(f.department), Some(f.consultationType), nowIso, Pending,
      Some(PriceOf(f.department)), None, f.priority, Some([]))
  }

  /** The local price list charges what the catalog charges, for every catalog
      department, and lists no other department. */
  lemma LocalPricesMatchCatalog()
    ensures forall k :: 0 <= k < |Departments.Catalog()| ==>
      exists i :: 0 <= i < |LocalPrices()| && LocalPrices()[i] == (Departments.Catalog()[k].id, Departments.Catalog()[k].consultationPrice)
    ensures |LocalPrices()| == |Departments.Catalog()|
  {
    var c, l := Departments.Catalog(), LocalPrices();
    assert l[0] == (c[0].id, c[0].consultationPrice);
    assert l[1] == (c[1].id, c[1].consultationPrice);
    assert l[2] == (c[2].id, c[2].consultationPrice);
    assert l[6] == (c[3].id, c[3].consultationPrice);
    assert l[3] == (c[4].id, c[4].consultationPrice);
    assert l[4] == (c[5].id, c[5].consultationPrice);
    assert l[5] == (c[6].id, c[6].consultationPrice);
    assert l[7] == (c[7].id, c[7].consultationPrice);
    assert l[8] == (c[8].id, c[8].consultationPrice);
  }

  /** The form charges, for any department id, what the catalog lists for it, and 0 for
      an id the catalog lacks. */
  lemma PriceOfCatalog(dept: string)
    ensures Departments.GetDepartmentById(dept).Some? ==>
      PriceOf(dept) == Departments.GetDepartmentById(dept).value.consultationPrice
    ensures Departments.GetDepartmentById(dept).None? ==> PriceOf(dept) == 0
  {
    LocalPricesMatchCatalog();
    var c, l := Departments.Catalog(), LocalPrices();
    match Departments.GetDepartmentById(dept)
    case Some(d) =>
      var k :| 0 <= k < |c| && c[k] == d;
      var i :| 0 <= i < |l| && l[i] == (c[k].id, c[k].consultationPrice);
    case None =>
      forall i | 0 <= i < |l| ensures l[i].0 != dept {
        var k := LocalIndexInCatalog(i);
      }
  }

  /** Where each entry of the local price list sits in the catalog. */
  function LocalIndexInCatalog(i: nat): (k: nat)
    requires i < |LocalPrices()|
    ensures k < |Departments.Catalog()| && Departments.Catalog()[k].id == LocalPrices()[i].0
  {
    var c := Departments.Catalog();
    assert c[0].id == "cardiology" && c[1].id == "neurology" && c[2].id == "pediatrics";
    assert c[3].id == "maternity" && c[4].id == "orthopedics" && c[5].id == "dermatology";
    assert c[6].id == "emergency" && c[7].id == "psychiatry" && c[8].id == "ophthalmology";
    [0, 1, 2, 4, 5, 6, 3, 7, 8][i]
  }

  /** The registration form's state: its fields and its list of contacts, which never
      becomes empty. */
  class RegistrationForm {
    var form: Form
    var contacts: seq<EmergencyContact>

    ghost predicate Valid()
      reads this
    {
      |contacts| >= 1
    }

    constructor()
      ensures Valid()
      ensures form == EmptyForm() && contacts == [EmptyContact()]
    {
      form := EmptyForm();
      contacts := [EmptyContact()];
    }

    /** `handleEmergencyContactChange`: one field of one contact is replaced. */
    method ChangeContact(index: nat, field: ContactField, value: string)
      requires Valid() && index < |contacts|
      modifies this
      ensures Valid() && form == old(form)
      ensures contacts == old(contacts)[index := SetField(old(contacts)[index], field, value)]
    {
      contacts := contacts[index := SetField(contacts[index], field, value)];
    }

    /** `addEmergencyContact`: one empty contact more, at the end. */
    method AddContact()
      requires Valid()
      modifies this
      ensures Valid() && form == old(form)
      ensures contacts == old(contacts) + [EmptyContact()]
    {
      contacts := contacts + [EmptyContact()];
    }

    /** `removeEmergencyContact`: the contact at `index` goes, unless it is the only one
        (an index past the end removes nothing, as `splice` does). */
    method RemoveContact(index: nat)
      requires Valid()
      modifies this
      ensures Valid() && form == old(form)
      ensures |old(contacts)| > 1 ==> contacts == RemoveAt(old(contacts), index)
      ensures |old(contacts)| == 1 ==> contacts == old(contacts)
    {
      if |contacts| > 1 {
        contacts := RemoveAt(contacts, index);
      }
    }

    /** `handleSubmit`: the new patient, and the form back to its initial values. */
    method Submit(idMs: nat, qrMs: nat, nowIso: string) returns (p: Patient)
      requires Valid()
      modifies this
      ensures Valid()
      ensures p == NewPatient(old(form), old(contacts), idMs, qrMs, nowIso)
      ensures form == EmptyForm() && contacts == [EmptyContact()]
    {
      p := NewPatient(form, contacts, idMs, qrMs, nowIso);
      form := EmptyForm();
      contacts := [EmptyContact()];
    }
  }
}
