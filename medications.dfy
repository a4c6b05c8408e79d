/** The prescription editor that both consultation screens carry
    (`components/doctor/integrated-consultation.tsx` and
    `components/doctor/consultation-form.tsx`): a list of medications and a draft
    medication that "add" copies into the list. */
module Medications {
  import opened Seqs
  import opened Types

  /** The draft after a reset: empty texts, and the screen's default category (the
      integrated screen uses "autre", the older form none). */
  function Blank(category: Option<MedicationCategory>): Medication {
    Medication("", "", "", "", "", category)
  }

  /** `newMedication.name && newMedication.dosage`. */
  predicate Accepts(draft: Medication) {
    draft.name != "" && draft.dosage != ""
  }

  /** One of the suggested medications of a department. */
  datatype Suggestion = Suggestion(name: string, dosage: string, frequency: string)

  /** `commonMedications`, keyed by department id. */
  function CommonMedications(): map<string, seq<Suggestion>> {
    map[
      "pediatrics" := [
        Suggestion("Paracétamol pédiatrique", "10mg/kg", "3 fois par jour"),
        Suggestion("Amoxicilline", "50mg/kg/jour", "2 fois par jour"),
        Suggestion("Doliprane", "15mg/kg", "4 fois par jour")],
      "cardiology" := [
        Suggestion("Lisinopril", "10mg", "1 fois par jour"),
        Suggestion("Atorvastatine", "20mg", "1 fois par jour le soir"),
        Suggestion("Bisoprolol", "5mg", "1 fois par jour")],
      "neurology" := [
        Suggestion("Levetiracetam", "500mg", "2 fois par jour"),
        Suggestion("Gabapentine", "300mg", "3 fois par jour"),
        Suggestion("Sumatriptan", "50mg", "Si besoin")],
      "maternity" := [
        Suggestion("Acide folique", "5mg", "1 fois par jour"),
        Suggestion("Fer", "80mg", "1 fois par jour"),
        Suggestion("Calcium", "1000mg", "1 fois par jour")]
    ]
  }

  /** `handleAddCommonMedication`: the draft takes the suggestion's name, dosage and
      frequency and keeps its other fields. */
  function WithSuggestion(draft: Medication, s: Suggestion): (r: Medication)
    ensures r.name == s.name && r.dosage == s.dosage && r.frequency == s.frequency
    ensures r.(name := draft.name, dosage := draft.dosage, frequency := draft.frequency) == draft
  {
    draft.(name := s.name, dosage := s.dosage, frequency := s.frequency)
  }

  /** Every suggestion names a medication and a dosage, so a draft filled from one is
      always accepted by "add". */
  lemma SuggestionsAccepted(dept: string, i: nat, draft: Medication)
    requires dept in CommonMedications() && i < |CommonMedications()[dept]|
    ensures Accepts(WithSuggestion(draft, CommonMedications()[dept][i]))
  {
    var table := CommonMedications();
    if dept == "pediatrics" {
      assert table[dept][i] in table["pediatrics"];
    } else if dept == "cardiology" {
      assert table[dept][i] in table["cardiology"];
    } else if dept == "neurology" {
      assert table[dept][i] in table["neurology"];
    } else {
      assert table[dept][i] in table["maternity"];
    }
  }

  /** A change made in one field of the draft form. */
  datatype DraftEdit =
    | TypeName(text: string)
    | TypeDosage(text: string)
    | TypeFrequency(text: string)
    | TypeDuration(text: string)
    | TypeInstructions(text: string)
    | PickCategory(category: MedicationCategory)

  /** `{ ...newMedication, [field]: value }`: the edited field takes the new value and
      every other field keeps its own; only typing a name or a dosage can change whether
      "add" accepts the draft. */
  function Edited(draft: Medication, e: DraftEdit): (r: Medication)
    ensures e.TypeName? ==> r == draft.(name := e.text)
    ensures e.TypeDosage? ==> r == draft.(dosage := e.text)
    ensures e.TypeFrequency? ==> r == draft.(frequency := e.text)
    ensures e.TypeDuration? ==> r == draft.(duration := e.text)
    ensures e.TypeInstructions? ==> r == draft.(instructions := e.text)
    ensures e.PickCategory? ==> r == draft.(category := Some(e.category))
    ensures e.TypeName? ==> (Accepts(r) <==> e.text != "" && draft.dosage != "")
    ensures e.TypeDosage? ==> (Accepts(r) <==> draft.name != "" && e.text != "")
    ensures !e.TypeName? && !e.TypeDosage? ==> (Accepts(r) <==> Accepts(draft))
  {
    match e
    case TypeName(t) => draft.(name := t)
    case TypeDosage(t) => draft.(dosage := t)
    case TypeFrequency(t) => draft.(frequency := t)
    case TypeDuration(t) => draft.(duration := t)
    case TypeInstructions(t) => draft.(instructions := t)
    case PickCategory(c) => draft.(category := Some(c))
  }

  /** Typing a name and a dosage into any draft, the blank one included, makes it
      acceptable. */
  lemma TypedDraftAccepted(draft: Medication, name: string, dosage: string)
    requires name != "" && dosage != ""
    ensures Accepts(Edited(Edited(draft, TypeName(name)), TypeDosage(dosage)))
  {
  }

  class MedicationEditor {
    var medications: seq<Medication>
    var draft: Medication
    const blankCategory: Option<MedicationCategory>

    constructor(blankCategory: Option<MedicationCategory>)
      ensures medications == [] && draft == Blank(blankCategory)
      ensures this.blankCategory == blankCategory
    {
      this.blankCategory := blankCategory;
      medications := [];
      draft := Blank(blankCategory);
    }

    /** `handleAddMedication`: a draft with a name and a dosage is appended as it is and
        the draft is cleared; any other draft leaves both as they were. */
    method Add()
      modifies this
      ensures Accepts(old(draft)) ==> medications == old(medications) + [old(draft)] && draft == Blank(blankCategory)
      ensures !Accepts(old(draft)) ==> medications == old(medications) && draft == old(draft)
    {
      if Accepts(draft) {
        medications := medications + [draft];
        draft := Blank(blankCategory);
      }
    }

    /** `handleAddCommonMedication`. */
    method PickCommon(s: Suggestion)
      modifies this
      ensures draft == WithSuggestion(old(draft), s) && medications == old(medications)
    {
      draft := WithSuggestion(draft, s);
    }

    /** A field of the draft form edited. */
    method EditDraft(e: DraftEdit)
      modifies this
      ensures draft == Edited(old(draft), e) && medications == old(medications)
    {
      draft := Edited(draft, e);
    }

    /** `handleRemoveMedication`: `filter((_, i) => i !== index)`. */
    method Remove(index: nat)
      modifies this
      ensures medications == RemoveAt(old(medications), index) && draft == old(draft)
    {
      medications := RemoveAt(medications, index);
    }
  }
}
