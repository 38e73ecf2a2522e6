/** One offer of the search response made into one flat row (the body of the
    inner loop of `get_offers_data` in src/get_data.py). */
module Offers {
  import opened Values
  import opened Text

  /** The columns every flat row has. */
  const BaseColumns: set<Col> := {
    Id, Title, CodePostal, Latitude, Longitude, Description, DateCreation, DateActualization,
    ContractType, ContractNature, ExperienceBool, Experience, Salary, CompanyField
  }

  /** `simplified_offer`: the thirteen fields picked out of the API offer with
      `offer.get`. */
  datatype SimplifiedOffer = SimplifiedOffer(
    id: Value, title: Value, description: Value, dateCreation: Value, dateActualization: Value,
    place: Value, contractType: Value, contractNature: Value, experienceBool: Value,
    experience: Value, salary: Value, companyField: Value, competencies: Value)

  /** The keys of `simplified_offer`, each with the API field it is read from. */
  const SimplifiedKeys: seq<(string, string)> := [
    ("id", "id"), ("title", "intitule"), ("description", "description"),
    ("date_creation", "dateCreation"), ("date_actualization", "dateActualisation"),
    ("place", "lieuTravail"), ("contract_type", "typeContrat"), ("contract_nature", "natureContrat"),
    ("experience_bool", "experienceExige"), ("experience", "experienceLibelle"),
    ("salary", "salaire"), ("company_field", "secteurActiviteLibelle"), ("competencies", "competences")]

  /** Looking up a key of `simplified_offer` gives the offer's field it was
      read from, None when the offer lacks it. */
  function Simplify(offer: map<string, Value>): (s: SimplifiedOffer)
    ensures forall j :: 0 <= j < |SimplifiedKeys| ==>
      SimplifiedGet(s, SimplifiedKeys[j].0, Null) == Get(offer, SimplifiedKeys[j].1)
  {
    SimplifiedOffer(
      Get(offer, "id"), Get(offer, "intitule"), Get(offer, "description"),
      Get(offer, "dateCreation"), Get(offer, "dateActualisation"), Get(offer, "lieuTravail"),
      Get(offer, "typeContrat"), Get(offer, "natureContrat"), Get(offer, "experienceExige"),
      Get(offer, "experienceLibelle"), Get(offer, "salaire"), Get(offer, "secteurActiviteLibelle"),
      Get(offer, "competences"))
  }

  /** `simplified_offer.get(key, default)`: the dictionary's keys are the names
      it was built with. */
  function SimplifiedGet(s: SimplifiedOffer, key: string, default: Value): Value
  {
    if key == "id" then s.id
    else if key == "title" then s.title
    else if key == "description" then s.description
    else if key == "date_creation" then s.dateCreation
    else if key == "date_actualization" then s.dateActualization
    else if key == "place" then s.place
    else if key == "contract_type" then s.contractType
    else if key == "contract_nature" then s.contractNature
    else if key == "experience_bool" then s.experienceBool
    else if key == "experience" then s.experience
    else if key == "salary" then s.salary
    else if key == "company_field" then s.companyField
    else if key == "competencies" then s.competencies
    else default
  }

  /** The misspelled key 'competenices' is none of the keys, so the lookup
      always gives its default. */
  lemma MisspelledKeyMisses(s: SimplifiedOffer, default: Value)
    ensures SimplifiedGet(s, "competenices", default) == default
  {
    assert "competenices"[8] != "competencies"[8];
  }

  /** The column of the competency at position `i` of the list: `competencie_{i + 1}`. */
  function CompetencyKey(i: nat): Col
  {
    Named("competencie_" + NatToString(i + 1))
  }

  /** An item the comprehension can read: a dict with a `libelle`. */
  predicate HasLibelle(item: Value)
  {
    item.Obj? && "libelle" in item.fields
  }

  /** `{f'competencie_{i + 1}': comp['libelle'] for i, comp in enumerate(competencies)}`
      for a list of competency objects, from position `i` on. */
  function CompetencyList(items: seq<Value>, i: nat): (r: Result<map<Col, Value>>)
    requires i <= |items|
    decreases |items| - i
    ensures r.Ok? ==> forall c :: c in r.value ==> c.Named?
  {
    if i == |items| then Ok(map[])
    else
      match items[i]
      case Obj(comp) =>
        if "libelle" !in comp then Err(KeyError("libelle"))
        else
          (match CompetencyList(items, i + 1)
           case Err(e) => Err(e)
           case Ok(rest) => Ok(rest[CompetencyKey(i) := comp["libelle"]]))
      case _ => Err(TypeError("indices must be integers"))
  }

  /** The comprehension over a list succeeds exactly when every item is a
      dict with a `libelle`. Otherwise it raises at the first item that is
      not: KeyError for a dict without `libelle`, TypeError for anything else. */
  lemma {:induction false} CompetencyListFails(items: seq<Value>, i: nat)
    requires i <= |items|
    decreases |items| - i
    ensures var r := CompetencyList(items, i);
      && (r.Ok? <==> forall j :: i <= j < |items| ==> HasLibelle(items[j]))
      && (r.Err? ==> exists j :: i <= j < |items| && !HasLibelle(items[j])
                                && (forall k :: i <= k < j ==> HasLibelle(items[k]))
                                && r.error == (if items[j].Obj? then KeyError("libelle") else TypeError("indices must be integers")))
  {
    if i < |items| {
      CompetencyListFails(items, i + 1);
      var rest := CompetencyList(items, i + 1);
      if HasLibelle(items[i]) && rest.Err? {
        var j :| i + 1 <= j < |items| && !HasLibelle(items[j]) && (forall k :: i + 1 <= k < j ==> HasLibelle(items[k]))
                 && rest.error == (if items[j].Obj? then KeyError("libelle") else TypeError("indices must be integers"));
        assert CompetencyList(items, i).error == rest.error;
      }
    }
  }

  /** A comprehension that goes through has one column `competencie_{j + 1}`
      per item `j`, holding that item's `libelle`, and no other column. */
  lemma {:induction false} CompetencyListColumns(items: seq<Value>, i: nat)
    requires i <= |items| && CompetencyList(items, i).Ok?
    decreases |items| - i
    ensures var r := CompetencyList(items, i).value;
      && r.Keys == (set j | i <= j < |items| :: CompetencyKey(j))
      && forall j :: i <= j < |items| ==> HasLibelle(items[j]) && r[CompetencyKey(j)] == items[j].fields["libelle"]
  {
    if i < |items| {
      assert HasLibelle(items[i]);
      CompetencyListColumns(items, i + 1);
      var rest := CompetencyList(items, i + 1).value;
      var key := CompetencyKey(i);
      var r := CompetencyList(items, i).value;
      assert r == rest[key := items[i].fields["libelle"]];
      KeysFrom(|items|, i);
      assert r.Keys == rest.Keys + {key};
      forall j | i <= j < |items|
        ensures HasLibelle(items[j]) && CompetencyKey(j) in r && r[CompetencyKey(j)] == items[j].fields["libelle"]
      {
        if j > i {
          CompetencyKeysDiffer(i, j);
          assert CompetencyKey(j) in rest && rest[CompetencyKey(j)] == items[j].fields["libelle"];
        }
      }
    }
  }

  /** The columns from position `i` on are the column of `i` and those after it. */
  lemma KeysFrom(n: nat, i: nat)
    requires i < n
    ensures (set j | i <= j < n :: CompetencyKey(j)) == {CompetencyKey(i)} + (set j | i + 1 <= j < n :: CompetencyKey(j))
  {
  }

  /** Two positions give two different columns. */
  lemma CompetencyKeysDiffer(i: nat, j: nat)
    requires i != j
    ensures CompetencyKey(i) != CompetencyKey(j)
  {
    var prefix := "competencie_";
    var a, b := NatToString(i + 1), NatToString(j + 1);
    if prefix + a == prefix + b {
      assert (prefix + a)[|prefix|..] == a;
      assert (prefix + b)[|prefix|..] == b;
      NatToStringRoundTrip(i + 1);
      NatToStringRoundTrip(j + 1);
    }
  }

  /** The competency columns for what the lookup found: a list as above; an
      empty dict (the default of the lookup) enumerates nothing; anything else
      fails when indexed or iterated. */
  function CompetencyColumns(v: Value): (r: Result<map<Col, Value>>)
    ensures v == Obj(map[]) ==> r == Ok(map[])
  {
    match v
    case Arr(items) => CompetencyList(items, 0)
    case Obj(fields) => if fields == map[] then Ok(map[]) else Err(TypeError("indices must be integers"))
    case Str(s) => if s == [] then Ok(map[]) else Err(TypeError("indices must be integers"))
    case _ => Err(TypeError("object is not iterable"))
  }

  /** `extracted_offer`: the fourteen base columns of the flat row. */
  function BaseRow(simple: SimplifiedOffer, place: map<string, Value>, salary: map<string, Value>): (row: Row)
    ensures row.Keys == BaseColumns
  {
    map[
      Id := simple.id,
      Title := simple.title,
      CodePostal := Get(place, "codePostal"),
      Latitude := Get(place, "latitude"),
      Longitude := Get(place, "longitude"),
      Description := simple.description,
      DateCreation := simple.dateCreation,
      DateActualization := simple.dateActualization,
      ContractType := simple.contractType,
      ContractNature := simple.contractNature,
      ExperienceBool := simple.experienceBool,
      Experience := simple.experience,
      Salary := Get(salary, "libelle"),
      CompanyField := simple.companyField
    ]
  }

  /** The flat row of one offer. `place.get` and `salary.get` raise
      AttributeError when the offer is not an object or has no dict under
      `lieuTravail` or `salaire`; the competency lookup uses the key
      'competenices', which `simplified_offer` never has. */
  function Flatten(offer: Value): (r: Result<Row>)
    ensures r.Ok? <==> offer.Obj? && Get(offer.fields, "lieuTravail").Obj? && Get(offer.fields, "salaire").Obj?
    ensures r.Err? ==> r.error.AttributeError?
  {
    match offer
    case Obj(fields) =>
      var simple := Simplify(fields);
      (match simple.place
       case Obj(place) =>
         (match CompetencyColumns(SimplifiedGet(simple, "competenices", Obj(map[])))
          case Err(e) => Err(e)
          case Ok(competencies) =>
            (match simple.salary
             case Obj(salary) =>
               Ok(BaseRow(simple, place, salary) + competencies)
             case _ => Err(AttributeError("get"))))
       case _ => Err(AttributeError("get")))
    case _ => Err(AttributeError("get"))
  }

  // ------------------------------------------------------------------ lemmas

  /** A flat row has exactly the fourteen base columns (no `competencie_N`
      column is ever added) and copies each of them from its source field. */
  lemma FlattenCopiesFields(offer: Value)
    requires Flatten(offer).Ok?
    ensures var row, o := Flatten(offer).value, offer.fields;
      var place, salary := o["lieuTravail"].fields, o["salaire"].fields;
      && row.Keys == BaseColumns
      && row[Id] == Get(o, "id") && row[Title] == Get(o, "intitule")
      && row[Description] == Get(o, "description") && row[DateCreation] == Get(o, "dateCreation")
      && row[DateActualization] == Get(o, "dateActualisation")
      && row[ContractType] == Get(o, "typeContrat") && row[ContractNature] == Get(o, "natureContrat")
      && row[ExperienceBool] == Get(o, "experienceExige") && row[Experience] == Get(o, "experienceLibelle")
      && row[CompanyField] == Get(o, "secteurActiviteLibelle")
      && row[CodePostal] == Get(place, "codePostal") && row[Latitude] == Get(place, "latitude")
      && row[Longitude] == Get(place, "longitude")
      && row[Salary] == Get(salary, "libelle")
  {
    var o := offer.fields;
    FlattenIsBaseRow(offer);
    BaseRowFields(Simplify(o), o["lieuTravail"].fields, o["salaire"].fields);
  }

  /** A flat row is the base row alone: the competency lookup adds nothing. */
  lemma FlattenIsBaseRow(offer: Value)
    requires Flatten(offer).Ok?
    ensures Flatten(offer).value == BaseRow(Simplify(offer.fields), offer.fields["lieuTravail"].fields, offer.fields["salaire"].fields)
  {
    var o := offer.fields;
    var simple := Simplify(o);
    MisspelledKeyMisses(simple, Obj(map[]));
    var row := BaseRow(simple, o["lieuTravail"].fields, o["salaire"].fields);
    assert Flatten(offer) == Ok(row + map[]);
    assert row + map[] == row;
  }

  /** Each base column holds the field it is named after. */
  lemma BaseRowFields(simple: SimplifiedOffer, place: map<string, Value>, salary: map<string, Value>)
    ensures var row := BaseRow(simple, place, salary);
      && row[Id] == simple.id && row[Title] == simple.title
      && row[Description] == simple.description && row[DateCreation] == simple.dateCreation
      && row[DateActualization] == simple.dateActualization
      && row[ContractType] == simple.contractType && row[ContractNature] == simple.contractNature
      && row[ExperienceBool] == simple.experienceBool && row[Experience] == simple.experience
      && row[CompanyField] == simple.companyField
      && row[CodePostal] == Get(place, "codePostal") && row[Latitude] == Get(place, "latitude")
      && row[Longitude] == Get(place, "longitude") && row[Salary] == Get(salary, "libelle")
  {
  }

  /** Had the lookup used the key the offer is stored under, each competency of
      the list would have become a column. */
  lemma CompetenciesWouldBeColumns(libelle: Value)
    ensures CompetencyColumns(Arr([Obj(map["libelle" := libelle])]))
         == Ok(map[Named("competencie_1") := libelle])
  {
    var items := [Obj(map["libelle" := libelle])];
    assert NatToString(1) == "1";
    assert "competencie_" + NatToString(1) == "competencie_1";
    assert CompetencyList(items, 1) == Ok(map[]);
    assert CompetencyList(items, 0) == Ok(map[][Named("competencie_" + NatToString(1)) := libelle]);
  }
}
