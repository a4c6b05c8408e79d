/** The laboratory tab of the integrated consultation
    (`components/doctor/lab-results-tab.tsx`): an editable list of measured values,
    fillable from fixed templates, submitted as one completed result. */
module LabResults {
  import opened Seqs
  import opened Types
  import opened Text

  /** A template row: parameter name, unit and normal range. */
  datatype Row = Row(name: string, unit: string, normalRange: string)

  /** `electrophoresisTemplate`. */
  function ElectrophoresisTemplate(): seq<Row> {
    [Row("Albumine", "g/L", "35-50"), Row("Alpha-1", "g/L", "2-4"), Row("Alpha-2", "g/L", "5-9"),
     Row("Beta", "g/L", "6-11"), Row("Gamma", "g/L", "7-16")]
  }

  /** `bloodTestTemplate`, the "Bilan sanguin standard" button. */
  function BloodTestTemplate(): seq<Row> {
    [Row("Hémoglobine", "g/dL", "12-16"), Row("Globules blancs", "10^9/L", "4.5-11.0"),
     Row("Plaquettes", "10^9/L", "150-400"), Row("Glycémie", "mmol/L", "3.9-5.8")]
  }

  /** The "Bilan lipidique" button's template. */
  function LipidTemplate(): seq<Row> {
    [Row("Cholestérol total", "mmol/L", "3.9-5.2"), Row("HDL", "mmol/L", "1.0-1.5"),
     Row("LDL", "mmol/L", "2.0-3.4"), Row("Triglycérides", "mmol/L", "0.5-1.7")]
  }

  /** The "Fonction rénale" button's template. */
  function KidneyTemplate(): seq<Row> {
    [Row("Créatinine", "μmol/L", "60-110"), Row("Urée", "mmol/L", "2.5-7.5"),
     Row("DFG", "mL/min/1.73m²", ">90")]
  }

  const ElectrophoresisName: string := "Électrophorèse des protéines sériques"
  const BloodTestName: string := "Analyse sanguine"

  /** A template row as an editable value: empty reading, not abnormal. */
  function FromRow(item: Row): LabValue {
    LabValue(item.name, TextReading(""), Some(item.unit), Some(item.normalRange), Some(false))
  }

  /** `template.map(item => ({ name, value: "", unit, normalRange, isAbnormal: false }))`. */
  function FromTemplate(template: seq<Row>): (r: seq<LabValue>)
    ensures |r| == |template|
    ensures forall i :: 0 <= i < |r| ==>
      r[i].name == template[i].name && r[i].unit == Some(template[i].unit) &&
      r[i].normalRange == Some(template[i].normalRange)
    ensures forall i :: 0 <= i < |r| ==> r[i].value == TextReading("") && r[i].isAbnormal == Some(false)
  {
    Map(template, FromRow)
  }

  /** The draft row of the "add" line. */
  function BlankValue(): LabValue {
    LabValue("", TextReading(""), Some(""), Some(""), Some(false))
  }

  /** JavaScript truthiness of a reading (a number is falsy only when it is zero). */
  predicate Filled(v: Reading) {
    match v
    case TextReading(s) => s != ""
    case NumberReading(n) => n != 0.0
  }

  /** `newValue.name && newValue.value`. */
  predicate Accepts(draft: LabValue) {
    draft.name != "" && Filled(draft.value)
  }

  /** An edit made in a row of the values table. The parameter name is not editable there. */
  datatype Edit = SetValue(text: string) | SetUnit(unit: string) | SetRange(range: string) | SetAbnormal(flag: bool)

  /** `{ ...row, [field]: value }`. */
  function Applied(v: LabValue, e: Edit): (r: LabValue)
    ensures r.name == v.name
    ensures e.SetValue? ==> r == v.(value := TextReading(e.text))
    ensures e.SetUnit? ==> r == v.(unit := Some(e.unit))
    ensures e.SetRange? ==> r == v.(normalRange := Some(e.range))
    ensures e.SetAbnormal? ==> r == v.(isAbnormal := Some(e.flag))
  {
    match e
    case SetValue(t) => v.(value := TextReading(t))
    case SetUnit(u) => v.(unit := Some(u))
    case SetRange(n) => v.(normalRange := Some(n))
    case SetAbnormal(b) => v.(isAbnormal := Some(b))
  }

  function ApplyEdit(e: Edit): LabValue -> LabValue {
    (v: LabValue) => Applied(v, e)
  }

  /** The values and name the type selector installs: the electrophoresis template
      under its fixed name, the blood-test name with no rows, or nothing at all. */
  function TypeDefaults(kind: LabType): (r: (string, seq<LabValue>))
    ensures kind == Electrophoresis ==> r == (ElectrophoresisName, FromTemplate(ElectrophoresisTemplate()))
    ensures kind == BloodTest ==> r == (BloodTestName, [])
    ensures kind != Electrophoresis && kind != BloodTest ==> r == ("", [])
  {
    match kind
    case Electrophoresis => (ElectrophoresisName, FromTemplate(ElectrophoresisTemplate()))
    case BloodTest => (BloodTestName, [])
    case _ => ("", [])
  }

  /** The guard of `handleSubmit`: a name and at least one row. */
  predicate CanSubmit(name: string, values: seq<LabValue>) {
    name != "" && |values| > 0
  }

  /** The result `handleSubmit` emits. */
  function NewLabResult(patientId: string, doctorName: string, kind: LabType, name: string,
                        values: seq<LabValue>, notes: string, nowMs: nat, iso: int -> string): (r: LabResult)
    ensures r.status == LabCompleted
    ensures r.requestedBy == doctorName && r.reviewedBy == Some(doctorName)
    ensures r.results == values && r.name == name && r.kind == kind && r.notes == Some(notes)
    ensures r.id == "LAB-" + NatToString(nowMs) && r.patientId == patientId && r.date == iso(nowMs)
  {
    LabResult("LAB-" + NatToString(nowMs), patientId, iso(nowMs), kind, name, values,
              LabCompleted, doctorName, Some(doctorName), Some(notes))
  }

  /** Selecting electrophoresis makes the form submittable at once, although none of
      its five rows has a value: the submit guard does not look at the readings. */
  lemma ElectrophoresisSubmittable()
    ensures CanSubmit(TypeDefaults(Electrophoresis).0, TypeDefaults(Electrophoresis).1)
    ensures |TypeDefaults(Electrophoresis).1| == 5
    ensures forall i :: 0 <= i < 5 ==> !Filled(TypeDefaults(Electrophoresis).1[i].value)
    ensures Map(TypeDefaults(Electrophoresis).1, (v: LabValue) => v.name) ==
      ["Albumine", "Alpha-1", "Alpha-2", "Beta", "Gamma"]
  {
    var rows := FromTemplate(ElectrophoresisTemplate());
    var names := Map(rows, (v: LabValue) => v.name);
    assert names[0] == "Albumine" && names[1] == "Alpha-1" && names[2] == "Alpha-2";
    assert names[3] == "Beta" && names[4] == "Gamma";
  }

  /** The cleared draft cannot be added: "add" needs a name and a value typed in. */
  lemma BlankNotAccepted()
    ensures !Accepts(BlankValue())
  {
  }

  /** The blank draft becomes acceptable exactly once a name and a value are typed into
      it. */
  lemma TypedDraftAccepted(v: LabValue, name: string, value: string)
    ensures Accepts(Applied(v.(name := name), SetValue(value))) <==> name != "" && value != ""
  {
  }

  class LabForm {
    const patientId: string
    const doctorName: string
    var labType: LabType
    var labName: string
    var labNotes: string
    var labValues: seq<LabValue>
    var draft: LabValue

    constructor(patientId: string, doctorName: string)
      ensures this.patientId == patientId && this.doctorName == doctorName
      ensures labType == BloodTest && labName == "" && labNotes == ""
      ensures labValues == [] && draft == BlankValue()
    {
      this.patientId := patientId;
      this.doctorName := doctorName;
      labType := BloodTest;
      labName := "";
      labNotes := "";
      labValues := [];
      draft := BlankValue();
    }

    /** `handleAddValue`: a draft with a name and a value is appended, and the draft
        cleared; otherwise nothing changes. */
    method AddValue()
      modifies this
      ensures Accepts(old(draft)) ==> labValues == old(labValues) + [old(draft)] && draft == BlankValue()
      ensures !Accepts(old(draft)) ==> labValues == old(labValues) && draft == old(draft)
      ensures labType == old(labType) && labName == old(labName) && labNotes == old(labNotes)
    {
      if Accepts(draft) {
        labValues := labValues + [draft];
        draft := BlankValue();
      }
    }

    /** The name field of the new-parameter row: `{ ...newValue, name }`. */
    method EditDraftName(name: string)
      modifies this
      ensures draft == old(draft).(name := name)
      ensures labType == old(labType) && labName == old(labName) && labNotes == old(labNotes) && labValues == old(labValues)
    {
      draft := draft.(name := name);
    }

    /** The value, unit and range fields of the new-parameter row (that row has no
        input for the abnormal flag, so the screen never sends `SetAbnormal` here). */
    method EditDraft(e: Edit)
      modifies this
      ensures draft == Applied(old(draft), e)
      ensures labType == old(labType) && labName == old(labName) && labNotes == old(labNotes) && labValues == old(labValues)
    {
      draft := Applied(draft, e);
    }

    /** The analysis-name field. */
    method SetName(name: string)
      modifies this
      ensures labName == name
      ensures labType == old(labType) && labNotes == old(labNotes) && labValues == old(labValues) && draft == old(draft)
    {
      labName := name;
    }

    /** The notes field. */
    method SetNotes(notes: string)
      modifies this
      ensures labNotes == notes
      ensures labType == old(labType) && labName == old(labName) && labValues == old(labValues) && draft == old(draft)
    {
      labNotes := notes;
    }

    /** `handleRemoveValue`: `splice(index, 1)` on a copy; an index past the end removes
        nothing. */
    method RemoveValue(index: nat)
      modifies this
      ensures labValues == RemoveAt(old(labValues), index)
      ensures labType == old(labType) && labName == old(labName) && labNotes == old(labNotes) && draft == old(draft)
    {
      labValues := RemoveAt(labValues, index);
    }

    /** `updateLabValue`, called from the row being edited. */
    method UpdateValue(index: nat, e: Edit)
      requires index < |labValues|
      modifies this
      ensures labValues == UpdateAt(old(labValues), index, ApplyEdit(e))
      ensures labType == old(labType) && labName == old(labName) && labNotes == old(labNotes) && draft == old(draft)
    {
      labValues := UpdateAt(labValues, index, ApplyEdit(e));
    }

    /** `handleLabTypeChange`; of its two `setLabValues` calls only the last one counts. */
    method ChangeType(kind: LabType)
      modifies this
      ensures labType == kind && (labName, labValues) == TypeDefaults(kind)
      ensures labNotes == old(labNotes) && draft == old(draft)
    {
      labType := kind;
      var defaults := TypeDefaults(kind);
      labName := defaults.0;
      labValues := defaults.1;
    }

    /** `handleLoadTemplate`: the rows are replaced, nothing else. */
    method LoadTemplate(template: seq<Row>)
      modifies this
      ensures labValues == FromTemplate(template)
      ensures labType == old(labType) && labName == old(labName) && labNotes == old(labNotes) && draft == old(draft)
    {
      labValues := FromTemplate(template);
    }

    /** `handleSubmit`: nothing without a name and a row; otherwise the completed result,
        and the form back to its initial type, name, notes and rows. */
    method Submit(nowMs: nat, iso: int -> string) returns (r: Option<LabResult>)
      modifies this
      ensures !CanSubmit(old(labName), old(labValues)) ==>
        r == None && labType == old(labType) && labName == old(labName) &&
        labNotes == old(labNotes) && labValues == old(labValues)
      ensures CanSubmit(old(labName), old(labValues)) ==>
        r == Some(NewLabResult(patientId, doctorName, old(labType), old(labName), old(labValues), old(labNotes), nowMs, iso)) &&
        labType == BloodTest && labName == "" && labNotes == "" && labValues == []
      ensures draft == old(draft)
    {
      if !CanSubmit(labName, labValues) {
        return None;
      }
      r := Some(NewLabResult(patientId, doctorName, labType, labName, labValues, labNotes, nowMs, iso));
      labName := "";
      labNotes := "";
      labValues := [];
      labType := BloodTest;
    }
  }
}
