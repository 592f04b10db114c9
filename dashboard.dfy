/**
 * The dashboard component's state and its handlers (components/DashboardPage.tsx): the view
 * history, the five collections, the pending deletion and the toast. Each handler replaces the
 * fields it sets, as the component's state setters do; what it computes is given by the functions
 * of `Navigation` and `Store` and by the message functions below.
 */
module Dashboard {
  import opened Wrappers
  import opened Values
  import opened Navigation
  import Store
  import Text
  import Seed

  /** The record awaiting confirmation in the deletion modal. */
  datatype ModalItem = ModalItem(id: int, kind: string, name: Value)

  /** `typeToNameMap`: the title of each collection kind. */
  const TypeNames: map<string, string> := map[
    "animal" := "Animal",
    "keeper" := "Cuidador",
    "vet" := "Veterinário",
    "habitat" := "Habitat",
    "feedingPlan" := "Plano de Alimentação"
  ]

  /** `typeToNameMap[type] || 'Item'`. */
  function FriendlyName(kind: string): (r: string)
    ensures r == "Item" <==> kind !in TypeNames
    ensures kind in TypeNames ==> r == TypeNames[kind]
    ensures |r| > 0 && r[0] != 'S'
  {
    if kind in TypeNames then TypeNames[kind] else "Item"
  }

  /** The verb of a save toast. */
  function Action(editing: bool): string
  {
    if editing then "atualizado" else "adicionado"
  }

  /** `itemData.name || itemData.planName`. */
  function ItemName(data: ItemData): Value
  {
    Or(Get(data.fields, "name"), Get(data.fields, "planName"))
  }

  /** The keeper an animal save is announced to: the one its `keeperId` refers to, with a contact. */
  function NotifiedKeeper(keepers: seq<Rec>, data: ItemData, kind: string): Option<Rec>
  {
    if kind != "animal" then None
    else
      var keeper := FindByRef(keepers, Get(data.fields, "keeperId"));
      if keeper.Some? && Truthy(Field(keeper.value, "contact")) then keeper else None
  }

  const EmailPrefix := "Simulação: E-mail enviado para "

  /** The toast `saveData` shows. */
  function SaveToast(keepers: seq<Rec>, data: ItemData, kind: string): string
  {
    var action := Action(data.id.Some?);
    var name := Show(ItemName(data));
    match NotifiedKeeper(keepers, data, kind)
    case Some(k) => EmailPrefix + Show(Field(k, "contact")) + " (" + name + " foi " + action + ")."
    case None => FriendlyName(kind) + " \"" + name + "\" foi " + action + " com sucesso."
  }

  /**
   * A save toast announces an e-mail exactly when an animal is saved whose keeper (looked up among
   * the keepers before the save) has a contact, and then opens with that contact; otherwise it
   * opens with the kind's title and the quoted name and closes with " com sucesso.". Either way it
   * names the item and says whether it was added or updated.
   */
  lemma SaveToastSpec(keepers: seq<Rec>, data: ItemData, kind: string)
    ensures var r := SaveToast(keepers, data, kind);
      var keeper := NotifiedKeeper(keepers, data, kind);
      && (Text.StartsWith(r, EmailPrefix) <==>
          kind == "animal" && FindByRef(keepers, Get(data.fields, "keeperId")).Some? &&
          Truthy(Field(FindByRef(keepers, Get(data.fields, "keeperId")).value, "contact")))
      && (keeper.Some? ==>
          && Text.StartsWith(r, EmailPrefix + Show(Field(keeper.value, "contact")) + " (")
          && Text.Contains(r, Show(Field(keeper.value, "contact"))))
      && (keeper.None? ==>
          && Text.StartsWith(r, FriendlyName(kind) + " \"" + Show(ItemName(data)) + "\" foi ")
          && Text.Contains(r, " com sucesso."))
      && Text.Contains(r, Show(ItemName(data)))
      && Text.Contains(r, Action(data.id.Some?))
  {
    var action := Action(data.id.Some?);
    var name := Show(ItemName(data));
    match NotifiedKeeper(keepers, data, kind)
    case Some(k) =>
      EmailToast(EmailPrefix, Show(Field(k, "contact")), " (", name, " foi ", action, ").");
    case None =>
      TitleToast(FriendlyName(kind), " \"", name, "\" foi ", action, " com sucesso.");
      assert EmailPrefix[0] == 'S';
  }

  /**
   * An e-mail toast opens with its prefix, the contact and the opening bracket, and contains the
   * contact, the item's name and the verb.
   */
  lemma EmailToast(prefix: string, contact: string, open: string, name: string, mid: string, action: string, close: string)
    ensures var r := prefix + contact + open + name + mid + action + close;
      && Text.StartsWith(r, prefix)
      && Text.StartsWith(r, prefix + contact + open)
      && Text.Contains(r, contact)
      && Text.Contains(r, name)
      && Text.Contains(r, action)
  {
    var r := prefix + contact + open + name + mid + action + close;
    assert r == prefix + (contact + open + name + mid + action + close);
    Text.StartsWithConcat(prefix, contact + open + name + mid + action + close);
    assert r == (prefix + contact + open) + (name + mid + action + close);
    Text.StartsWithConcat(prefix + contact + open, name + mid + action + close);
    assert r == prefix + contact + (open + name + mid + action + close);
    Text.ContainsConcat(prefix, contact, open + name + mid + action + close);
    NamesBoth(prefix + contact + open, name, mid, action, close);
  }

  /**
   * A plain toast starts with the title's first letter, opens with everything before the verb,
   * and contains the item's name, the verb and the closing words.
   */
  lemma TitleToast(title: string, quote: string, name: string, mid: string, action: string, tail: string)
    requires |title| > 0
    ensures var r := title + quote + name + mid + action + tail;
      && |r| > 0 && r[0] == title[0]
      && Text.StartsWith(r, title + quote + name + mid)
      && Text.Contains(r, name)
      && Text.Contains(r, action)
      && Text.Contains(r, tail)
  {
    var r := title + quote + name + mid + action + tail;
    assert r == (title + quote + name + mid) + (action + tail);
    Text.StartsWithConcat(title + quote + name + mid, action + tail);
    assert r == (title + quote + name + mid + action) + tail + "";
    Text.ContainsConcat(title + quote + name + mid + action, tail, "");
    NamesBoth(title + quote, name, mid, action, tail);
  }

  /** A message assembled from pieces contains the two pieces it was built around. */
  lemma NamesBoth(head: string, name: string, mid: string, action: string, tail: string)
    ensures Text.Contains(head + name + mid + action + tail, name)
    ensures Text.Contains(head + name + mid + action + tail, action)
  {
    var r := head + name + mid + action + tail;
    assert r == head + name + (mid + action + tail);
    Text.ContainsConcat(head, name, mid + action + tail);
    assert r == (head + name + mid) + action + tail;
    Text.ContainsConcat(head + name + mid, action, tail);
  }

  /** `item.name || item.planName || 'este item'`: never empty. */
  function DeleteName(item: Rec): (r: Value)
    ensures Truthy(r)
    ensures Truthy(Field(item, "name")) ==> r == Field(item, "name")
    ensures !Truthy(Field(item, "name")) && Truthy(Field(item, "planName")) ==> r == Field(item, "planName")
    ensures !Truthy(Field(item, "name")) && !Truthy(Field(item, "planName")) ==> r == Str("este item")
  {
    Or(Or(Field(item, "name"), Field(item, "planName")), Str("este item"))
  }

  const DeletedSuffix := "\" foi excluído com sucesso."

  /** The toast `handleConfirmDelete` shows. */
  function DeleteToast(m: ModalItem): string
  {
    FriendlyName(m.kind) + " \"" + Show(m.name) + DeletedSuffix
  }

  /** The deletion toast starts with the kind's title, names the item and reports the deletion. */
  lemma DeleteToastSpec(m: ModalItem)
    ensures var r := DeleteToast(m);
      && Text.StartsWith(r, FriendlyName(m.kind))
      && Text.Contains(r, Show(m.name))
      && Text.Contains(r, DeletedSuffix)
      && !Text.StartsWith(r, EmailPrefix)
  {
    var r := DeleteToast(m);
    var title := FriendlyName(m.kind);
    assert r[..|title|] == title;
    assert r[0] == title[0];
    assert r == (title + " \"") + Show(m.name) + DeletedSuffix;
    Text.ContainsConcat(title + " \"", Show(m.name), DeletedSuffix);
    assert r == (title + " \"" + Show(m.name)) + DeletedSuffix + "";
    Text.ContainsConcat(title + " \"" + Show(m.name), DeletedSuffix, "");
  }

  /** Whether the view on top of the history is the detail page of the record being deleted. */
  function ShowsDeleted(stack: seq<View>, m: ModalItem): bool
    requires |stack| > 0
  {
    Current(stack).page == m.kind + "Details" && Current(stack).id == Some(m.id)
  }

  class DashboardPage {
    var viewStack: seq<View>
    var animals: seq<Rec>
    var keepers: seq<Rec>
    var vets: seq<Rec>
    var habitats: seq<Rec>
    var feedingPlans: seq<Rec>
    var modal: Option<ModalItem>
    var toast: Option<string>

    /** The history has its well-formed shape and no collection holds two records with one id. */
    ghost predicate Valid()
      reads this
    {
      && WellFormed(viewStack)
      && Store.UniqueIds(animals)
      && Store.UniqueIds(keepers)
      && Store.UniqueIds(vets)
      && Store.UniqueIds(habitats)
      && Store.UniqueIds(feedingPlans)
    }

    constructor()
      ensures Valid()
      ensures viewStack == InitialStack && modal == None && toast == None
      ensures animals == Seed.Animals && keepers == Seed.Keepers && vets == Seed.Vets
      ensures habitats == Seed.Habitats && feedingPlans == Seed.FeedingPlans
    {
      viewStack := InitialStack;
      animals := Seed.Animals;
      keepers := Seed.Keepers;
      vets := Seed.Vets;
      habitats := Seed.Habitats;
      feedingPlans := Seed.FeedingPlans;
      modal := None;
      toast := None;
      InitialWellFormed();
      Store.NumberedUnique(Seed.Animals);
      Store.NumberedUnique(Seed.Keepers);
      Store.NumberedUnique(Seed.Vets);
      Store.NumberedUnique(Seed.Habitats);
      Store.NumberedUnique(Seed.FeedingPlans);
    }

    /** `navigateTo`. */
    method NavigateTo(v: View)
      requires Valid()
      modifies this
      ensures Valid()
      ensures viewStack == Navigate(old(viewStack), v)
      ensures animals == old(animals) && keepers == old(keepers) && vets == old(vets)
      ensures habitats == old(habitats) && feedingPlans == old(feedingPlans)
      ensures modal == old(modal) && toast == old(toast)
    {
      NavigatePreserves(viewStack, v);
      viewStack := Navigate(viewStack, v);
    }

    /** `navigateBack`. */
    method NavigateBack()
      requires Valid()
      modifies this
      ensures Valid()
      ensures viewStack == Back(old(viewStack))
      ensures animals == old(animals) && keepers == old(keepers) && vets == old(vets)
      ensures habitats == old(habitats) && feedingPlans == old(feedingPlans)
      ensures modal == old(modal) && toast == old(toast)
    {
      BackPreserves(viewStack);
      viewStack := Back(viewStack);
    }

    /**
     * `saveData(itemData, type)`: saves into the collection `type` names (none for an unknown
     * kind), shows the save toast computed from the keepers as they were, and goes back.
     */
    method SaveData(data: ItemData, kind: string)
      requires Valid()
      modifies this
      ensures Valid()
      ensures animals == (if kind == "animal" then Store.Save(old(animals), data) else old(animals))
      ensures keepers == (if kind == "keeper" then Store.Save(old(keepers), data) else old(keepers))
      ensures vets == (if kind == "vet" then Store.Save(old(vets), data) else old(vets))
      ensures habitats == (if kind == "habitat" then Store.Save(old(habitats), data) else old(habitats))
      ensures feedingPlans == (if kind == "feedingPlan" then Store.Save(old(feedingPlans), data) else old(feedingPlans))
      ensures toast == Some(SaveToast(old(keepers), data, kind))
      ensures viewStack == Back(old(viewStack))
      ensures modal == old(modal)
    {
      var message := SaveToast(keepers, data, kind);
      if kind == "animal" {
        Store.SavePreservesUnique(animals, data);
        animals := Store.Save(animals, data);
      } else if kind == "keeper" {
        Store.SavePreservesUnique(keepers, data);
        keepers := Store.Save(keepers, data);
      } else if kind == "vet" {
        Store.SavePreservesUnique(vets, data);
        vets := Store.Save(vets, data);
      } else if kind == "habitat" {
        Store.SavePreservesUnique(habitats, data);
        habitats := Store.Save(habitats, data);
      } else if kind == "feedingPlan" {
        Store.SavePreservesUnique(feedingPlans, data);
        feedingPlans := Store.Save(feedingPlans, data);
      }
      toast := Some(message);
      NavigateBack();
    }

    /** `handleDeleteRequest(item, type)`: opens the modal for that record. */
    method HandleDeleteRequest(item: Rec, kind: string)
      requires Valid()
      modifies this
      ensures Valid()
      ensures modal == Some(ModalItem(item.id, kind, DeleteName(item)))
      ensures viewStack == old(viewStack) && toast == old(toast)
      ensures animals == old(animals) && keepers == old(keepers) && vets == old(vets)
      ensures habitats == old(habitats) && feedingPlans == old(feedingPlans)
    {
      modal := Some(ModalItem(item.id, kind, DeleteName(item)));
    }

    /** `handleModalClose`. */
    method HandleModalClose()
      requires Valid()
      modifies this
      ensures Valid()
      ensures modal == None
      ensures viewStack == old(viewStack) && toast == old(toast)
      ensures animals == old(animals) && keepers == old(keepers) && vets == old(vets)
      ensures habitats == old(habitats) && feedingPlans == old(feedingPlans)
    {
      modal := None;
    }

    /**
     * `handleConfirmDelete`: with nothing pending it does nothing. Otherwise it leaves the deleted
     * record's detail page if that page is on top, removes every record with the id from the
     * collection the kind names, shows the deletion toast and closes the modal.
     */
    method HandleConfirmDelete()
      requires Valid()
      modifies this
      ensures Valid()
      ensures old(modal).None? ==>
        viewStack == old(viewStack) && toast == old(toast) && modal == None &&
        animals == old(animals) && keepers == old(keepers) && vets == old(vets) &&
        habitats == old(habitats) && feedingPlans == old(feedingPlans)
      ensures old(modal).Some? ==>
        var m := old(modal).value;
        && viewStack == (if ShowsDeleted(old(viewStack), m) then Back(old(viewStack)) else old(viewStack))
        && animals == (if m.kind == "animal" then Store.Remove(old(animals), m.id) else old(animals))
        && keepers == (if m.kind == "keeper" then Store.Remove(old(keepers), m.id) else old(keepers))
        && vets == (if m.kind == "vet" then Store.Remove(old(vets), m.id) else old(vets))
        && habitats == (if m.kind == "habitat" then Store.Remove(old(habitats), m.id) else old(habitats))
        && feedingPlans == (if m.kind == "feedingPlan" then Store.Remove(old(feedingPlans), m.id) else old(feedingPlans))
        && toast == Some(DeleteToast(m))
        && modal == None
    {
      if modal.None? {
        return;
      }
      var m := modal.value;
      if ShowsDeleted(viewStack, m) {
        NavigateBack();
      }
      if m.kind == "animal" {
        Store.RemovePreservesUnique(animals, m.id);
        animals := Store.Remove(animals, m.id);
      } else if m.kind == "keeper" {
        Store.RemovePreservesUnique(keepers, m.id);
        keepers := Store.Remove(keepers, m.id);
      } else if m.kind == "vet" {
        Store.RemovePreservesUnique(vets, m.id);
        vets := Store.Remove(vets, m.id);
      } else if m.kind == "habitat" {
        Store.RemovePreservesUnique(habitats, m.id);
        habitats := Store.Remove(habitats, m.id);
      } else if m.kind == "feedingPlan" {
        Store.RemovePreservesUnique(feedingPlans, m.id);
        feedingPlans := Store.Remove(feedingPlans, m.id);
      }
      toast := Some(DeleteToast(m));
      HandleModalClose();
    }
  }
}
