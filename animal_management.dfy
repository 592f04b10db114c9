/**
 * The animal list (frontend/components/AnimalManagementPage.tsx): the filter inputs and the
 * filter they produce, the keeper and habitat names shown per row, and where each row's
 * buttons lead.
 */
module AnimalManagement {
  import opened Wrappers
  import opened Values
  import Navigation
  import Store

  /** The placeholder option of the species select. */
  const SpeciesPlaceholder := "Filtrar por espécie"

  /** The filter handed to `onFilter`; `None` is `undefined`. */
  datatype Filters = Filters(name: Option<string>, species: Option<string>, ageMin: Value, ageMax: Value)

  /** `handleFilter`'s normalisation of the four inputs. */
  function Normalise(name: string, species: string, ageMin: Value, ageMax: Value): Filters
  {
    Filters(
      if name == "" then None else Some(name),
      if species == SpeciesPlaceholder || species == "" then None else Some(species),
      ageMin,
      ageMax)
  }

  /**
   * An empty name, and an empty or placeholder species, are dropped from the filter; anything
   * else is passed on as typed; the age bounds pass through untouched.
   */
  lemma NormaliseSpec(name: string, species: string, ageMin: Value, ageMax: Value)
    ensures var f := Normalise(name, species, ageMin, ageMax);
      && (f.name.None? <==> name == "")
      && (f.name.Some? ==> f.name.value == name)
      && (f.species.None? <==> species == "" || species == SpeciesPlaceholder)
      && (f.species.Some? ==> f.species.value == species && f.species.value != SpeciesPlaceholder)
      && f.ageMin == ageMin && f.ageMax == ageMax
  {
  }

  /** `e.target.value ? parseInt(e.target.value) : undefined`. */
  function AgeInput(text: string): (v: Value)
    ensures text == "" <==> v == Undefined
    ensures text != "" ==> v.Num? || v.NaN?
  {
    if text == "" then Undefined else ParseIntValue(text)
  }

  /** `keepers.find(k => k.id === keeperId)?.name || 'N/A'`. */
  function KeeperName(keepers: seq<Rec>, keeperId: Value): string
  {
    LabelOr(FindByRef(keepers, keeperId), "name", "N/A")
  }

  /** `habitats.find(h => h.id === habitatId)?.name || 'N/A'`. */
  function HabitatName(habitats: seq<Rec>, habitatId: Value): string
  {
    LabelOr(FindByRef(habitats, habitatId), "name", "N/A")
  }

  /**
   * In a collection with unique ids, the name shown for a reference is the name of the record
   * with that id (or 'N/A' if that name is empty); a reference no record has shows 'N/A'.
   */
  lemma NameLookupSpec(recs: seq<Rec>, ref: Value)
    requires Store.UniqueIds(recs)
    ensures forall i :: 0 <= i < |recs| && ref == Num(recs[i].id) ==>
      LabelOr(FindByRef(recs, ref), "name", "N/A") ==
        (if Truthy(Field(recs[i], "name")) then Show(Field(recs[i], "name")) else "N/A")
    ensures (forall i :: 0 <= i < |recs| ==> ref != Num(recs[i].id)) ==>
      LabelOr(FindByRef(recs, ref), "name", "N/A") == "N/A"
  {
    forall i | 0 <= i < |recs| && ref == Num(recs[i].id)
      ensures FindByRef(recs, ref) == Some(recs[i])
    {
      var j :| 0 <= j < |recs| && recs[j] == FindById(recs, ref.n).value && recs[j].id == ref.n &&
        forall k :: 0 <= k < j ==> recs[k].id != ref.n;
      assert j == i;
    }
  }

  /** One row of the table, where its buttons lead, and the record its delete button hands over. */
  datatype Row = Row(animal: Rec, habitat: string, keeper: string, details: Navigation.View, edit: Navigation.View,
                     deleteItem: Rec)

  /** `animals.map(...)`: one row per animal, in collection order. */
  function Rows(animals: seq<Rec>, keepers: seq<Rec>, habitats: seq<Rec>): (r: seq<Row>)
    ensures |r| == |animals|
    ensures forall i :: 0 <= i < |animals| ==>
      && r[i].animal == animals[i]
      && r[i].details == Navigation.View("animalDetails", Some(animals[i].id))
      && r[i].edit == Navigation.View("animalForm", Some(animals[i].id))
      && r[i].deleteItem == animals[i]
      && r[i].keeper == KeeperName(keepers, Field(animals[i], "keeperId"))
      && r[i].habitat == HabitatName(habitats, Field(animals[i], "habitatId"))
  {
    if animals == [] then []
    else
      var a := animals[0];
      [Row(a, HabitatName(habitats, Field(a, "habitatId")), KeeperName(keepers, Field(a, "keeperId")),
           Navigation.View("animalDetails", Some(a.id)), Navigation.View("animalForm", Some(a.id)), a)]
        + Rows(animals[1..], keepers, habitats)
  }

  /** The "Adicionar Novo Animal" button's target: the empty form. */
  const AddTarget := Navigation.View("animalForm", None)

  /** Every target of the list is a drill-down page, so following it pushes onto the history. */
  lemma TargetsPush(animals: seq<Rec>, keepers: seq<Rec>, habitats: seq<Rec>, stack: seq<Navigation.View>)
    ensures Navigation.Navigate(stack, AddTarget) == stack + [AddTarget]
    ensures forall row :: row in Rows(animals, keepers, habitats) ==>
      Navigation.Navigate(stack, row.details) == stack + [row.details] &&
      Navigation.Navigate(stack, row.edit) == stack + [row.edit]
  {
  }

  class AnimalManagementPage {
    var filterName: string
    var filterSpecies: string
    var filterAgeMin: Value
    var filterAgeMax: Value

    constructor()
      ensures filterName == "" && filterSpecies == ""
      ensures filterAgeMin == Undefined && filterAgeMax == Undefined
    {
      filterName := "";
      filterSpecies := "";
      filterAgeMin := Undefined;
      filterAgeMax := Undefined;
    }

    method SetFilterName(text: string)
      modifies this
      ensures filterName == text
      ensures filterSpecies == old(filterSpecies) && filterAgeMin == old(filterAgeMin) && filterAgeMax == old(filterAgeMax)
    {
      filterName := text;
    }

    method SetFilterSpecies(option: string)
      modifies this
      ensures filterSpecies == option
      ensures filterName == old(filterName) && filterAgeMin == old(filterAgeMin) && filterAgeMax == old(filterAgeMax)
    {
      filterSpecies := option;
    }

    method SetFilterAgeMin(text: string)
      modifies this
      ensures filterAgeMin == AgeInput(text)
      ensures filterName == old(filterName) && filterSpecies == old(filterSpecies) && filterAgeMax == old(filterAgeMax)
    {
      filterAgeMin := AgeInput(text);
    }

    method SetFilterAgeMax(text: string)
      modifies this
      ensures filterAgeMax == AgeInput(text)
      ensures filterName == old(filterName) && filterSpecies == old(filterSpecies) && filterAgeMin == old(filterAgeMin)
    {
      filterAgeMax := AgeInput(text);
    }

    /** `handleFilter`: the filter passed to `onFilter`. */
    method HandleFilter() returns (f: Filters)
      ensures f == Normalise(filterName, filterSpecies, filterAgeMin, filterAgeMax)
    {
      f := Normalise(filterName, filterSpecies, filterAgeMin, filterAgeMax);
    }
  }
}
