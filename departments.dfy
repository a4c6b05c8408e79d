/** The hospital's fixed department catalog (`config/departments.ts`) and its lookups. */
module Departments {
  import opened Seqs
  import opened Types

  function Entry(id: string, name: string, price: int, doctors: seq<string>,
                 specialties: seq<string>, color: string): Department
  {
    Department(id, name, price, [], doctors, specialties, color)
  }

  function Cardiology(): Department {
    Entry("cardiology", "Cardiologie", 80, ["dr.martin", "dr.dupont"],
          ["Cardiologie interventionnelle", "Électrophysiologie", "Insuffisance cardiaque"], "#E53E3E")
  }

  function Neurology(): Department {
    Entry("neurology", "Neurologie", 90, ["dr.bernard", "dr.rousseau"],
          ["Neurologie générale", "Épilepsie", "Sclérose en plaques"], "#9F7AEA")
  }

  function Pediatrics(): Department {
    Entry("pediatrics", "Pédiatrie", 60, ["dr.laurent", "dr.moreau"],
          ["Pédiatrie générale", "Néonatologie", "Pédiatrie d'urgence"], "#38B2AC")
  }

  function Maternity(): Department {
    Entry("maternity", "Maternité", 70, ["dr.dubois", "dr.simon"],
          ["Obstétrique", "Gynécologie", "Médecine fœtale"], "#ED64A6")
  }

  function Orthopedics(): Department {
    Entry("orthopedics", "Orthopédie", 75, ["dr.garcia", "dr.petit"],
          ["Chirurgie orthopédique", "Traumatologie", "Chirurgie de la main"], "#F56500")
  }

  function Dermatology(): Department {
    Entry("dermatology", "Dermatologie", 65, ["dr.roux", "dr.blanc"],
          ["Dermatologie générale", "Dermatologie esthétique", "Oncologie cutanée"], "#38A169")
  }

  function EmergencyDept(): Department {
    Entry("emergency", "Urgences", 120, ["dr.urgence1", "dr.urgence2"],
          ["Médecine d'urgence", "Réanimation", "SAMU"], "#E53E3E")
  }

  function Psychiatry(): Department {
    Entry("psychiatry", "Psychiatrie", 85, ["dr.mental", "dr.psycho"],
          ["Psychiatrie générale", "Pédopsychiatrie", "Addictologie"], "#4299E1")
  }

  function Ophthalmology(): Department {
    Entry("ophthalmology", "Ophtalmologie", 70, ["dr.vision", "dr.oeil"],
          ["Ophtalmologie générale", "Chirurgie rétinienne", "Glaucome"], "#48BB78")
  }

  /** `DEPARTMENTS`, in table order. */
  function Catalog(): seq<Department> {
    [Cardiology(), Neurology(), Pediatrics(), Maternity(), Orthopedics(), Dermatology(),
     EmergencyDept(), Psychiatry(), Ophthalmology()]
  }

  const DefaultColor: string := "#4A90E2"

  predicate HasId(id: string, d: Department) {
    d.id == id
  }

  /** `getDepartmentById`: the first catalog entry with that id, if there is one. */
  function GetDepartmentById(id: string): (r: Option<Department>)
    ensures r.None? <==> forall i :: 0 <= i < |Catalog()| ==> Catalog()[i].id != id
    ensures r.Some? ==> r.value in Catalog() && r.value.id == id
  {
    Find(Catalog(), d => HasId(id, d))
  }

  /** `getDepartmentName`: the catalog name, or the id itself when it is not in the catalog. */
  function DepartmentName(id: string): (r: string)
    ensures GetDepartmentById(id).Some? ==> r == GetDepartmentById(id).value.name
    ensures GetDepartmentById(id).None? ==> r == id
  {
    match GetDepartmentById(id)
    case Some(d) => d.name
    case None => id
  }

  /** `getDepartmentColor`: the catalog color, or `#4A90E2` when the id is unknown. */
  function DepartmentColor(id: string): (r: string)
    ensures GetDepartmentById(id).Some? ==> r == GetDepartmentById(id).value.color
    ensures GetDepartmentById(id).None? ==> r == DefaultColor
  {
    match GetDepartmentById(id)
    case Some(d) => d.color
    case None => DefaultColor
  }

  /** No two catalog entries share an id, so a lookup by id is unambiguous. */
  lemma CatalogIdsDistinct()
    ensures forall i, j :: 0 <= i < j < |Catalog()| ==> Catalog()[i].id != Catalog()[j].id
  {
  }

  /** The entry found for an id is the only one carrying it. */
  lemma LookupUnique(id: string, i: nat)
    requires i < |Catalog()| && Catalog()[i].id == id
    ensures GetDepartmentById(id) == Some(Catalog()[i])
  {
    CatalogIdsDistinct();
    var d := GetDepartmentById(id).value;
    var k :| 0 <= k < |Catalog()| && Catalog()[k] == d;
  }

  /** Every consultation costs something, and none costs more than 120. */
  lemma CatalogPrices()
    ensures forall i :: 0 <= i < |Catalog()| ==> 0 < Catalog()[i].consultationPrice <= 120
  {
  }

  /** The emergency department charges the most, 120. */
  lemma EmergencyPrice()
    ensures GetDepartmentById("emergency").Some?
    ensures GetDepartmentById("emergency").value.consultationPrice == 120
  {
    var c := Catalog();
    assert c[6].id == "emergency";
    LookupUnique("emergency", 6);
  }

  /** The six-entry `getDepartmentName` table that the cashier, doctor and statistics
      screens each carry a copy of; it has no entry for maternity, psychiatry or
      ophthalmology. */
  function ShortLabels(): Labels {
    map[ "cardiology" := "Cardiologie", "neurology" := "Neurologie", "pediatrics" := "Pédiatrie",
         "orthopedics" := "Orthopédie", "dermatology" := "Dermatologie", "emergency" := "Urgences" ]
  }

  /** The seven-entry table of the patients overview: the short one plus maternity. */
  function OverviewLabels(): Labels {
    ShortLabels()["maternity" := "Maternité"]
  }

  /** The name the catalog gives a department it lists. */
  lemma CatalogName(k: nat)
    requires k < |Catalog()|
    ensures DepartmentName(Catalog()[k].id) == Catalog()[k].name
  {
    LookupUnique(Catalog()[k].id, k);
  }

  /** The short copies of the name table agree with the catalog on each department
      they list (so, by `CatalogName`, with `getDepartmentName`). */
  lemma ShortLabelsNamed(k: nat)
    requires k < |Catalog()| && Catalog()[k].id in ShortLabels()
    ensures ShortLabels()[Catalog()[k].id] == Catalog()[k].name
  {
    var c := Catalog();
    if k < 3 {
      assert c[0] == Cardiology() && c[1] == Neurology() && c[2] == Pediatrics();
    } else {
      assert c[3] == Maternity() && c[4] == Orthopedics() && c[5] == Dermatology();
      assert c[6] == EmergencyDept() && c[7] == Psychiatry() && c[8] == Ophthalmology();
    }
  }

  /** Every department the short copies list is in the catalog. */
  lemma ShortLabelsListed(id: string)
    requires id in ShortLabels()
    ensures exists k :: 0 <= k < |Catalog()| && Catalog()[k].id == id
  {
    var c := Catalog();
    if id == "cardiology" { assert c[0].id == id; }
    else if id == "neurology" { assert c[1].id == id; }
    else if id == "pediatrics" { assert c[2].id == id; }
    else if id == "orthopedics" { assert c[4].id == id; }
    else if id == "dermatology" { assert c[5].id == id; }
    else { assert c[6].id == id; }
  }

  /** The short copies leave out exactly maternity, psychiatry and ophthalmology, which
      they then show by their raw id. */
  lemma ShortLabelsMissing(k: nat)
    requires k < |Catalog()|
    ensures Catalog()[k].id !in ShortLabels() <==> k == 3 || k == 7 || k == 8
  {
    var c := Catalog();
    if k < 3 {
      assert c[0] == Cardiology() && c[1] == Neurology() && c[2] == Pediatrics();
    } else {
      assert c[3] == Maternity() && c[4] == Orthopedics() && c[5] == Dermatology();
      assert c[6] == EmergencyDept() && c[7] == Psychiatry() && c[8] == Ophthalmology();
    }
  }

  /** Of the copies only the overview's table names maternity, as the catalog does. */
  lemma OverviewNamesMaternity()
    ensures Catalog()[3].id !in ShortLabels()
    ensures OverviewLabels()[Catalog()[3].id] == Catalog()[3].name
  {
    assert Catalog()[3] == Maternity();
  }
}
