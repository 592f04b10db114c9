/**
 * The animal form (frontend/components/AnimalFormPage.tsx): per-habitat occupancy, the rule that
 * greys out full habitats, loading the animal being edited, and the change and submit handlers.
 */
module AnimalForm {
  import opened Wrappers
  import opened Values
  import Text

  /**
   * Animals counted under the occupancy key `key`: those whose `habitatId` is truthy and, used as
   * an object key, reads as `key` (JavaScript object keys are strings).
   */
  function ResidentCount(animals: seq<Rec>, key: string): nat
  {
    if animals == [] then 0
    else
      var last := Field(animals[|animals| - 1], "habitatId");
      ResidentCount(animals[..|animals| - 1], key) + (if Truthy(last) && Show(last) == key then 1 else 0)
  }

  /** `occ` holds exactly the non-zero resident counts of `animals`. */
  ghost predicate OccupancyOf(occ: map<string, int>, animals: seq<Rec>)
  {
    && (forall key :: key in occ ==> occ[key] == ResidentCount(animals, key))
    && (forall key :: key !in occ ==> ResidentCount(animals, key) == 0)
  }

  /** The `habitatOccupancy` loop. */
  method HabitatOccupancy(animals: seq<Rec>) returns (occ: map<string, int>)
    ensures OccupancyOf(occ, animals)
  {
    occ := map[];
    for i := 0 to |animals|
      invariant OccupancyOf(occ, animals[..i])
    {
      assert animals[..i + 1][..i] == animals[..i];
      var h := Field(animals[i], "habitatId");
      if Truthy(h) {
        var key := Show(h);
        occ := occ[key := (if key in occ then occ[key] else 0) + 1];
      }
    }
    assert animals[..|animals|] == animals;
  }

  /** `habitatOccupancy[h.id] || 0`. */
  function OccupancyOfHabitat(occ: map<string, int>, h: Rec): int
  {
    var key := Text.IntText(h.id);
    if key in occ && occ[key] != 0 then occ[key] else 0
  }

  /** `isFull && h.id !== formData.habitatId`: the option for `h` cannot be chosen. */
  predicate OptionDisabled(occ: map<string, int>, h: Rec, selected: Value)
  {
    var capacity := ToNumber(Field(h, "capacity"));
    && capacity.Some?
    && OccupancyOfHabitat(occ, h) >= capacity.value
    && Num(h.id) != selected
  }

  /**
   * A habitat's option is disabled exactly when the animals counted under its id fill its
   * capacity and it is not the habitat the form already has selected.
   */
  lemma OptionDisabledSpec(occ: map<string, int>, animals: seq<Rec>, h: Rec, selected: Value)
    requires OccupancyOf(occ, animals)
    ensures OptionDisabled(occ, h, selected) <==>
      && ToNumber(Field(h, "capacity")).Some?
      && ResidentCount(animals, Text.IntText(h.id)) >= ToNumber(Field(h, "capacity")).value
      && selected != Num(h.id)
  {
  }

  /** The habitat currently selected in the form can always be kept. */
  lemma SelectedNeverDisabled(occ: map<string, int>, h: Rec)
    ensures !OptionDisabled(occ, h, Num(h.id))
  {
  }

  /** Where every `habitatId` is a number or falsy, counting by key is counting by `===`. */
  lemma {:induction false} ResidentCountMatches(animals: seq<Rec>, id: int)
    requires id != 0
    requires forall i :: 0 <= i < |animals| ==>
      Field(animals[i], "habitatId").Num? || !Truthy(Field(animals[i], "habitatId"))
    ensures ResidentCount(animals, Text.IntText(id)) == |Matching(animals, "habitatId", Num(id))|
  {
    if animals != [] {
      var init := animals[..|animals| - 1];
      var last := animals[|animals| - 1];
      forall i | 0 <= i < |init|
        ensures Field(init[i], "habitatId").Num? || !Truthy(Field(init[i], "habitatId"))
      {
        assert init[i] == animals[i];
      }
      ResidentCountMatches(init, id);
      assert animals == init + [last];
      MatchingAppend(init, [last], "habitatId", Num(id));
      MatchingSingle(last, "habitatId", Num(id));
      KeyMatches(Field(last, "habitatId"), id);
    }
  }

  /** A number or falsy value shows as the key of a non-zero id exactly when it is that id. */
  lemma KeyMatches(h: Value, id: int)
    requires id != 0
    requires h.Num? || !Truthy(h)
    ensures Truthy(h) && Show(h) == Text.IntText(id) <==> h == Num(id)
  {
    if Truthy(h) && Show(h) == Text.IntText(id) {
      Text.ParseIntText(h.n);
      Text.ParseIntText(id);
    }
  }

  /** The input names of the form. */
  const Inputs: set<string> :=
    {"name", "species", "age", "sex", "arrivalDate", "habitatId", "keeperId", "vetId", "feedingPlanId", "status", "image"}

  /** Inputs whose values are stored as numbers. */
  const NumericInputs: set<string> := {"age", "keeperId", "vetId", "habitatId", "feedingPlanId"}

  /** `isNumericField && value ? parseInt(value) : value`. */
  function InputValue(name: string, value: string): Value
  {
    if name in NumericInputs && value != "" then ParseIntValue(value) else Str(value)
  }

  /** A number typed into a numeric input is stored as that number; other inputs keep the text. */
  lemma InputValueSpec(name: string, value: string, n: int)
    ensures name in NumericInputs && value == Text.IntText(n) ==> InputValue(name, value) == Num(n)
    ensures name !in NumericInputs ==> InputValue(name, value) == Str(value)
    ensures value == "" ==> InputValue(name, value) == Str("")
  {
    if name in NumericInputs && value == Text.IntText(n) {
      Text.ParseIntText(n);
    }
  }

  /** The form of a new animal. */
  const Defaults: map<string, Value> := map[
    "name" := Str(""),
    "species" := Str(""),
    "age" := Num(0),
    "sex" := Str("Macho"),
    "arrivalDate" := Str(""),
    "habitatId" := Undefined,
    "keeperId" := Undefined,
    "vetId" := Undefined,
    "feedingPlanId" := Undefined,
    "status" := Str("Ativo"),
    "image" := Str("https://i.imgur.com/lFn440i.png")
  ]

  /** The form after the loading effect: the edited animal if it exists, else `current`. */
  function Loaded(animalId: Option<int>, animals: seq<Rec>, current: ItemData): (r: ItemData)
    ensures animalId.None? ==> r == current
    ensures animalId.Some? && FindById(animals, animalId.value).Some? ==>
      r.id == animalId && r.fields == FindById(animals, animalId.value).value.fields
    ensures animalId.Some? && FindById(animals, animalId.value).None? ==> r == current
  {
    match animalId
    case None => current
    case Some(id) =>
      match FindById(animals, id)
      case Some(a) => ItemData(Some(a.id), a.fields)
      case None => current
  }

  class AnimalFormPage {
    const animalId: Option<int>
    var formData: ItemData
    var habitatError: Option<string>
    var keeperError: Option<string>

    /** `isEditing`. */
    predicate IsEditing()
    {
      animalId.Some?
    }

    /** Mounting the form: the defaults, then the loading effect. */
    constructor(animalId: Option<int>, animals: seq<Rec>)
      ensures this.animalId == animalId
      ensures formData == Loaded(animalId, animals, ItemData(None, Defaults))
      ensures habitatError == None && keeperError == None
    {
      this.animalId := animalId;
      formData := Loaded(animalId, animals, ItemData(None, Defaults));
      habitatError := None;
      keeperError := None;
    }

    /** The loading effect, re-run when the animals change. */
    method LoadForEdit(animals: seq<Rec>)
      modifies this
      ensures formData == Loaded(animalId, animals, old(formData))
      ensures habitatError == old(habitatError) && keeperError == old(keeperError)
    {
      if IsEditing() {
        var found := FindById(animals, animalId.value);
        if found.Some? {
          formData := ItemData(Some(found.value.id), found.value.fields);
        }
      }
    }

    /** `handleChange`: sets the one input, and clears that input's error. */
    method HandleChange(name: string, value: string)
      requires name in Inputs
      modifies this
      ensures formData == ItemData(old(formData).id, old(formData).fields[name := InputValue(name, value)])
      ensures habitatError == (if name == "habitatId" then None else old(habitatError))
      ensures keeperError == (if name == "keeperId" then None else old(keeperError))
    {
      formData := ItemData(formData.id, formData.fields[name := InputValue(name, value)]);
      if name == "habitatId" {
        habitatError := None;
      }
      if name == "keeperId" {
        keeperError := None;
      }
    }

    /** `handleSubmit`: the data handed to the save. */
    method HandleSubmit() returns (data: ItemData)
      ensures data == formData
    {
      data := formData;
    }
  }
}
