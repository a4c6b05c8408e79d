/** The QR lookup (`components/qr-scanner/qr-scanner.tsx`): the typed code against the
    patient list. */
module QrScanner {
  import opened Seqs
  import opened Types

  function HasCode(code: string): Patient -> bool {
    (p: Patient) => p.qrCode == code
  }

  /** `handleScan`: the first patient carrying exactly that code, or none; the
      found-callback fires exactly when the result is a patient. */
  function HandleScan(ps: seq<Patient>, code: string): (r: Option<Patient>)
    ensures r.None? <==> forall i :: 0 <= i < |ps| ==> ps[i].qrCode != code
    ensures r.Some? ==> r.value in ps && r.value.qrCode == code
    ensures r.Some? ==> exists i :: 0 <= i < |ps| && ps[i] == r.value && forall j :: 0 <= j < i ==> ps[j].qrCode != code
  {
    Find(ps, HasCode(code))
  }

  /** Once the first patient with a code is known, the scan finds that patient. */
  lemma {:induction false} ScanFindsFirst(ps: seq<Patient>, code: string, k: nat)
    requires k < |ps| && ps[k].qrCode == code
    requires forall j :: 0 <= j < k ==> ps[j].qrCode != code
    ensures HandleScan(ps, code) == Some(ps[k])
    decreases k
  {
    if k > 0 {
      ScanFindsFirst(ps[1..], code, k - 1);
      assert Find(ps, HasCode(code)) == Find(ps[1..], HasCode(code));
    }
  }
}
