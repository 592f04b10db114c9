/**
 * The detail pages: an animal with its keeper, vet, habitat and feeding plan
 * (frontend/components/AnimalDetailsPage.tsx), and a habitat, a feeding plan or a vet with the
 * animals that refer to it (frontend/components/HabitatDetailsPage.tsx,
 * frontend/components/FeedingPlanDetailsPage.tsx, components/VetDetailsPage.tsx).
 */
module DetailsPages {
  import opened Wrappers
  import opened Values
  import Navigation
  import Overview

  /** `params?.id` as the value the pages compare ids against. */
  function IdParam(id: Option<int>): (v: Value)
    ensures id.None? ==> !v.Num?
    ensures id.Some? ==> v == Num(id.value)
  {
    match id
    case Some(n) => Num(n)
    case None => Undefined
  }

  const DefaultImage := "https://i.imgur.com/lFn440i.png"

  /** `{ ...animal, image: animal.image || DEFAULT }`. */
  function DisplayAnimal(animal: Rec): Rec
  {
    Rec(animal.id, animal.fields["image" := Or(Field(animal, "image"), Str(DefaultImage))])
  }

  /** A link to a related record: its text, and where a click leads (nowhere if it is missing). */
  datatype Link = Link(text: string, target: Option<Navigation.View>)

  /** `rec && handleLinkClick(e, page, rec.id)` with the text `rec?.field || 'N/A'`. */
  function RelatedLink(found: Option<Rec>, field: string, page: string): Link
  {
    Link(LabelOr(found, field, "N/A"), if found.Some? then Some(Navigation.View(page, Some(found.value.id))) else None)
  }

  datatype AnimalView =
    | AnimalNotFound
    | AnimalShown(
        animal: Rec,
        habitat: Link, habitatType: string,
        keeper: Link, vet: Link,
        foodType: string, quantity: string, frequency: string, plan: Link,
        edit: Navigation.View, deleteItem: Rec)

  /** The animal details page for the `id` parameter. */
  function AnimalDetails(id: Option<int>, animals: seq<Rec>, keepers: seq<Rec>, vets: seq<Rec>,
                         habitats: seq<Rec>, plans: seq<Rec>): AnimalView
  {
    match FindByRef(animals, IdParam(id))
    case None => AnimalNotFound
    case Some(animal) =>
      var keeper := FindByRef(keepers, Field(animal, "keeperId"));
      var vet := FindByRef(vets, Field(animal, "vetId"));
      var habitat := FindByRef(habitats, Field(animal, "habitatId"));
      var plan := FindByRef(plans, Field(animal, "feedingPlanId"));
      AnimalShown(
        DisplayAnimal(animal),
        RelatedLink(habitat, "name", "habitatDetails"), LabelOr(habitat, "type", "N/A"),
        RelatedLink(keeper, "name", "keeperDetails"),
        RelatedLink(vet, "name", "vetDetails"),
        LabelOr(plan, "foodType", "N/A"), LabelOr(plan, "quantity", "N/A"), LabelOr(plan, "frequency", "N/A"),
        RelatedLink(plan, "planName", "feedingPlanDetails"),
        Navigation.View("animalForm", id), animal)
  }

  /** A related link leads to the record's own detail page exactly when the record exists. */
  predicate LinkFollows(l: Link, recs: seq<Rec>, ref: Value, page: string)
  {
    && (l.target.None? <==> FindByRef(recs, ref).None?)
    && (l.target.Some? ==> ref.Num? && l.target.value == Navigation.View(page, Some(ref.n)))
    && (l.target.None? ==> l.text == "N/A")
  }

  /**
   * The page is the not-found view exactly when no animal has the id. Otherwise it shows that
   * animal, with the default image if it has none and every other property unchanged; each of
   * the four related records is looked up on its own, a missing one reads 'N/A' and its link
   * leads nowhere, and an existing one's link opens its detail page; edit opens the form for the
   * same id, and delete targets this very animal.
   */
  lemma AnimalDetailsSpec(id: Option<int>, animals: seq<Rec>, keepers: seq<Rec>, vets: seq<Rec>,
                          habitats: seq<Rec>, plans: seq<Rec>)
    ensures var v := AnimalDetails(id, animals, keepers, vets, habitats, plans);
      && (v.AnimalNotFound? <==> id.None? || forall i :: 0 <= i < |animals| ==> animals[i].id != id.value)
      && (v.AnimalShown? ==>
        && id.Some? && v.deleteItem in animals && v.deleteItem.id == id.value
        && v.animal.id == v.deleteItem.id
        && (forall k :: k in v.deleteItem.fields && k != "image" ==> k in v.animal.fields && v.animal.fields[k] == v.deleteItem.fields[k])
        && Field(v.animal, "image") == (if Truthy(Field(v.deleteItem, "image")) then Field(v.deleteItem, "image") else Str(DefaultImage))
        && LinkFollows(v.keeper, keepers, Field(v.deleteItem, "keeperId"), "keeperDetails")
        && LinkFollows(v.vet, vets, Field(v.deleteItem, "vetId"), "vetDetails")
        && LinkFollows(v.habitat, habitats, Field(v.deleteItem, "habitatId"), "habitatDetails")
        && LinkFollows(v.plan, plans, Field(v.deleteItem, "feedingPlanId"), "feedingPlanDetails")
        && v.edit == Navigation.View("animalForm", id))
  {
    var v := AnimalDetails(id, animals, keepers, vets, habitats, plans);
    if v.AnimalShown? {
      var found := FindByRef(animals, IdParam(id));
      var i :| 0 <= i < |animals| && animals[i] == found.value && found.value.id == IdParam(id).n &&
        forall j :: 0 <= j < i ==> animals[j].id != IdParam(id).n;
      assert v.deleteItem in animals;
    }
  }

  /** A drill-down page of a habitat, a feeding plan or a vet. */
  datatype RelatedView =
    | RelatedNotFound
    | RelatedShown(record: Rec, members: seq<Rec>, memberLinks: seq<Navigation.View>, showsEmpty: bool,
                   breadcrumb: Navigation.View)

  /** A record of `records` and the animals whose `fkField` refers to it. */
  function RelatedDetails(records: seq<Rec>, animals: seq<Rec>, fkField: string, id: Option<int>, section: string): RelatedView
  {
    var members := Matching(animals, fkField, IdParam(id));
    match FindByRef(records, IdParam(id))
    case None => RelatedNotFound
    case Some(r) =>
      RelatedShown(r, members, Overview.DetailLinks(members, "animalDetails"), |members| == 0, Navigation.View(section, None))
  }

  function HabitatDetails(habitats: seq<Rec>, animals: seq<Rec>, id: Option<int>): RelatedView
  {
    RelatedDetails(habitats, animals, "habitatId", id, "habitats")
  }

  function FeedingPlanDetails(plans: seq<Rec>, animals: seq<Rec>, id: Option<int>): RelatedView
  {
    RelatedDetails(plans, animals, "feedingPlanId", id, "feeding")
  }

  function VetDetails(vets: seq<Rec>, animals: seq<Rec>, id: Option<int>): RelatedView
  {
    RelatedDetails(vets, animals, "vetId", id, "vets")
  }

  /**
   * What a related page shows: the not-found view exactly when no record has the id; otherwise
   * that record, as members exactly the animals referring to the id, a link per member to that
   * animal's page, the empty message exactly when no animal refers to the id, and a breadcrumb
   * back to the section that resets the history.
   */
  ghost predicate ShowsRelated(v: RelatedView, records: seq<Rec>, animals: seq<Rec>, fkField: string, id: Option<int>)
  {
    && (v.RelatedNotFound? <==> id.None? || forall i :: 0 <= i < |records| ==> records[i].id != id.value)
    && (v.RelatedShown? ==>
      && id.Some? && v.record in records && v.record.id == id.value
      && v.members == Matching(animals, fkField, Num(id.value))
      && (forall x :: x in v.members <==> x in animals && Field(x, fkField) == Num(id.value))
      && |v.memberLinks| == |v.members|
      && (forall i :: 0 <= i < |v.members| ==> v.memberLinks[i] == Navigation.View("animalDetails", Some(v.members[i].id)))
      && (v.showsEmpty <==> forall i :: 0 <= i < |animals| ==> Field(animals[i], fkField) != Num(id.value))
      && forall stack :: Navigation.Navigate(stack, v.breadcrumb) == [v.breadcrumb])
  }

  lemma RelatedDetailsSpec(records: seq<Rec>, animals: seq<Rec>, fkField: string, id: Option<int>, section: string)
    requires Navigation.IsTopLevel(section)
    ensures ShowsRelated(RelatedDetails(records, animals, fkField, id, section), records, animals, fkField, id)
  {
    var v := RelatedDetails(records, animals, fkField, id, section);
    if v.RelatedShown? {
      var ref := IdParam(id);
      var i :| 0 <= i < |records| && records[i] == v.record && v.record.id == ref.n &&
        forall j :: 0 <= j < i ==> records[j].id != ref.n;
      MembersExact(animals, fkField, ref);
      forall stack ensures Navigation.Navigate(stack, v.breadcrumb) == [v.breadcrumb] {
        Navigation.NavigateShape(stack, v.breadcrumb);
      }
    }
  }

  /** The animals matching a reference are exactly those holding it, and none exist exactly when the list is empty. */
  lemma MembersExact(animals: seq<Rec>, fkField: string, ref: Value)
    ensures forall x :: x in Matching(animals, fkField, ref) <==> x in animals && Field(x, fkField) == ref
    ensures |Matching(animals, fkField, ref)| == 0 <==> forall i :: 0 <= i < |animals| ==> Field(animals[i], fkField) != ref
  {
    forall x ensures x in Matching(animals, fkField, ref) <==> x in animals && Field(x, fkField) == ref {
      MatchingComplete(animals, fkField, ref, x);
    }
    MatchingEmpty(animals, fkField, ref);
  }

  /** The habitat page lists the habitat's residents and returns to the habitats section. */
  lemma HabitatDetailsSpec(habitats: seq<Rec>, animals: seq<Rec>, id: Option<int>)
    ensures ShowsRelated(HabitatDetails(habitats, animals, id), habitats, animals, "habitatId", id)
    ensures HabitatDetails(habitats, animals, id).RelatedShown? ==>
      HabitatDetails(habitats, animals, id).breadcrumb == Navigation.View("habitats", None)
  {
    RelatedDetailsSpec(habitats, animals, "habitatId", id, "habitats");
  }

  /** The feeding-plan page lists the animals on the plan and returns to the feeding section. */
  lemma FeedingPlanDetailsSpec(plans: seq<Rec>, animals: seq<Rec>, id: Option<int>)
    ensures ShowsRelated(FeedingPlanDetails(plans, animals, id), plans, animals, "feedingPlanId", id)
    ensures FeedingPlanDetails(plans, animals, id).RelatedShown? ==>
      FeedingPlanDetails(plans, animals, id).breadcrumb == Navigation.View("feeding", None)
  {
    RelatedDetailsSpec(plans, animals, "feedingPlanId", id, "feeding");
  }

  /** The vet page lists the vet's patients and returns to the vets section. */
  lemma VetDetailsSpec(vets: seq<Rec>, animals: seq<Rec>, id: Option<int>)
    ensures ShowsRelated(VetDetails(vets, animals, id), vets, animals, "vetId", id)
    ensures VetDetails(vets, animals, id).RelatedShown? ==>
      VetDetails(vets, animals, id).breadcrumb == Navigation.View("vets", None)
  {
    RelatedDetailsSpec(vets, animals, "vetId", id, "vets");
  }
}
