/**
 * The animal service (backend/santuario/src/main/java/com/zoo/santuario/service/AnimalService.java):
 * creating, updating and deleting animals under the keeper, capacity and existence rules, the
 * e-mails sent to keepers, the list filter and the response shape.
 */
module AnimalService {
  import opened Wrappers
  import opened Entities
  import Text

  datatype AnimalRequest = AnimalRequest(
    name: string, species: string, age: int, sex: string, arrivalDate: string, status: string,
    image: Option<string>,
    keeperId: Option<int>, vetId: Option<int>, habitatId: Option<int>, feedingPlanId: Option<int>)

  datatype AnimalDto = AnimalDto(
    id: int, name: string, species: string, age: int, sex: string, arrivalDate: string, status: string,
    image: Option<string>,
    keeperId: Option<int>, vetId: Option<int>, habitatId: Option<int>, feedingPlanId: Option<int>)

  /** `convertToDto`: a missing relation gives a null id. */
  function ToDto(a: Animal): AnimalDto
  {
    AnimalDto(a.id, a.name, a.species, a.age, a.sex, a.arrivalDate, a.status, a.image,
      a.keeperId, a.vetId, a.habitatId, a.feedingPlanId)
  }

  /** The animal stored under `id` once the request's fields and relations have been set. */
  function Stored(id: int, req: AnimalRequest): Animal
  {
    Animal(id, req.name, req.species, req.age, req.sex, req.arrivalDate, req.status, req.image,
      req.keeperId, req.vetId, req.habitatId, req.feedingPlanId)
  }

  /** The request a response describes: everything but the id. */
  function RequestOf(d: AnimalDto): AnimalRequest
  {
    AnimalRequest(d.name, d.species, d.age, d.sex, d.arrivalDate, d.status, d.image,
      d.keeperId, d.vetId, d.habitatId, d.feedingPlanId)
  }

  /** The response to a save carries the stored id and gives back exactly the request. */
  lemma ResponseRoundTrip(id: int, req: AnimalRequest)
    ensures ToDto(Stored(id, req)).id == id
    ensures RequestOf(ToDto(Stored(id, req))) == req
  {
  }

  const CaretakerMessage := "Animal must have a caretaker associated."

  /** What dereferencing the missing habitat of a stored animal raises. */
  const HabitatNullPointer := OtherException("NullPointerException",
    "Cannot invoke \"com.zoo.santuario.model.Habitat.getId()\" because the return value of \"com.zoo.santuario.model.Animal.getHabitat()\" is null")

  /** `validateHabitatCapacity`: the exception it throws, if any. */
  function CapacityCheck(animals: map<int, Animal>, habitats: map<int, Habitat>,
                         newHabitatId: Option<int>, oldHabitatId: Option<int>): (r: Option<Exc>)
    ensures r.None? <==>
      || newHabitatId.None? || newHabitatId == oldHabitatId
      || (newHabitatId.value in habitats &&
          |Residents(animals, newHabitatId.value)| < habitats[newHabitatId.value].capacity)
    ensures r.Some? && newHabitatId.value !in habitats ==>
      r.value == ResourceNotFound(WithId("Habitat not found with ID: ", newHabitatId.value))
    ensures r.Some? && newHabitatId.value in habitats ==> r.value.HabitatCapacityExceeded?
  {
    if newHabitatId.Some? && newHabitatId != oldHabitatId then
      var id := newHabitatId.value;
      if id !in habitats then Some(ResourceNotFound(WithId("Habitat not found with ID: ", id)))
      else
        var habitat := habitats[id];
        if |Residents(animals, id)| >= habitat.capacity then
          Some(HabitatCapacityExceeded("Habitat " + habitat.name + " (ID: " + Text.IntText(habitat.id) +
            ") has reached its maximum capacity."))
        else None
    else None
  }

  /**
   * Storing animal `a` under `id` after the capacity check passed keeps every habitat within its
   * capacity: only the habitat it moves into gains a resident, and that one had room.
   */
  lemma AdmitKeepsCapacity(animals: map<int, Animal>, habitats: map<int, Habitat>, id: int, a: Animal,
                           oldHabitatId: Option<int>)
    requires WithinCapacity(animals, habitats)
    requires oldHabitatId == (if id in animals then animals[id].habitatId else None)
    requires CapacityCheck(animals, habitats, a.habitatId, oldHabitatId).None?
    ensures WithinCapacity(animals[id := a], habitats)
  {
    forall h | h in habitats
      ensures |Residents(animals[id := a], h)| <= habitats[h].capacity
    {
      if a.habitatId == Some(h) {
        if oldHabitatId == Some(h) {
          ResidentsStay(animals, id, a, h);
        } else {
          ResidentsGain(animals, id, a, h);
        }
      } else {
        ResidentsNoGain(animals, id, a, h);
      }
    }
  }

  /** Removing an animal keeps every habitat within its capacity. */
  lemma RemoveKeepsCapacity(animals: map<int, Animal>, habitats: map<int, Habitat>, id: int)
    requires WithinCapacity(animals, habitats)
    ensures WithinCapacity(animals - {id}, habitats)
  {
    forall h | h in habitats
      ensures |Residents(animals - {id}, h)| <= habitats[h].capacity
    {
      ResidentsRemove(animals, id, h);
    }
  }

  /** `repository.findById(id).orElseThrow(...)`: a null id is refused outright. */
  function Find<T>(table: map<int, T>, id: Option<int>, what: string): (r: Result<T, Exc>)
    ensures id.None? ==> r == Failure(NullIdRefused)
    ensures id.Some? && id.value !in table ==> r == Failure(ResourceNotFound(WithId(what + " not found with ID: ", id.value)))
    ensures id.Some? && id.value in table ==> r == Success(table[id.value])
  {
    match id
    case None => Failure(NullIdRefused)
    case Some(k) => if k in table then Success(table[k]) else Failure(ResourceNotFound(WithId(what + " not found with ID: ", k)))
  }

  /** The four related rows an animal is saved with. */
  datatype Relations = Relations(keeper: Keeper, habitat: Habitat, vet: Vet, plan: FeedingPlan)

  /** The lookups of keeper, habitat, vet and feeding plan, in that order. */
  function Resolve(keepers: map<int, Keeper>, habitats: map<int, Habitat>, vets: map<int, Vet>,
                   plans: map<int, FeedingPlan>, req: AnimalRequest): (r: Result<Relations, Exc>)
    ensures r.Success? <==>
      && req.keeperId.Some? && req.keeperId.value in keepers
      && req.habitatId.Some? && req.habitatId.value in habitats
      && req.vetId.Some? && req.vetId.value in vets
      && req.feedingPlanId.Some? && req.feedingPlanId.value in plans
    ensures r.Success? ==> r.value == Relations(keepers[req.keeperId.value], habitats[req.habitatId.value],
                                                 vets[req.vetId.value], plans[req.feedingPlanId.value])
    ensures Find(keepers, req.keeperId, "Keeper").Failure? ==> r == Failure(Find(keepers, req.keeperId, "Keeper").error)
    ensures Find(keepers, req.keeperId, "Keeper").Success? && Find(habitats, req.habitatId, "Habitat").Failure? ==>
      r == Failure(Find(habitats, req.habitatId, "Habitat").error)
    ensures r.Failure? ==> r.error.ResourceNotFound? || r.error == NullIdRefused
  {
    match Find(keepers, req.keeperId, "Keeper")
    case Failure(e) => Failure(e)
    case Success(keeper) =>
      match Find(habitats, req.habitatId, "Habitat")
      case Failure(e) => Failure(e)
      case Success(habitat) =>
        match Find(vets, req.vetId, "Vet")
        case Failure(e) => Failure(e)
        case Success(vet) =>
          match Find(plans, req.feedingPlanId, "Feeding plan")
          case Failure(e) => Failure(e)
          case Success(plan) => Success(Relations(keeper, habitat, vet, plan))
  }

  /** `createAnimal`'s checks, in order: keeper required, habitat capacity, the four lookups. */
  function CreateDecision(animals: map<int, Animal>, keepers: map<int, Keeper>, habitats: map<int, Habitat>,
                          vets: map<int, Vet>, plans: map<int, FeedingPlan>, req: AnimalRequest): Result<Relations, Exc>
  {
    if req.keeperId.None? then Failure(CaretakerRequired(CaretakerMessage))
    else match CapacityCheck(animals, habitats, req.habitatId, None)
    case Some(e) => Failure(e)
    case None => Resolve(keepers, habitats, vets, plans, req)
  }

  /**
   * A missing keeper id fails with `CaretakerRequiredException` whatever else the request holds;
   * a full target habitat fails with `HabitatCapacityExceededException`; a create succeeds only
   * when every reference resolves and the target habitat has room.
   */
  lemma CreateDecisionSpec(animals: map<int, Animal>, keepers: map<int, Keeper>, habitats: map<int, Habitat>,
                           vets: map<int, Vet>, plans: map<int, FeedingPlan>, req: AnimalRequest)
    ensures var d := CreateDecision(animals, keepers, habitats, vets, plans, req);
      && (req.keeperId.None? ==> d == Failure(CaretakerRequired(CaretakerMessage)))
      && (req.keeperId.Some? && req.habitatId.Some? && req.habitatId.value in habitats &&
          |Residents(animals, req.habitatId.value)| >= habitats[req.habitatId.value].capacity ==>
            d.Failure? && d.error.HabitatCapacityExceeded?)
      && (d.Success? <==>
          && req.keeperId.Some? && req.keeperId.value in keepers
          && req.habitatId.Some? && req.habitatId.value in habitats
          && |Residents(animals, req.habitatId.value)| < habitats[req.habitatId.value].capacity
          && req.vetId.Some? && req.vetId.value in vets
          && req.feedingPlanId.Some? && req.feedingPlanId.value in plans)
  {
  }

  /** `updateAnimal`'s checks, in order: the animal exists, keeper required, capacity, lookups. */
  function UpdateDecision(animals: map<int, Animal>, keepers: map<int, Keeper>, habitats: map<int, Habitat>,
                          vets: map<int, Vet>, plans: map<int, FeedingPlan>, id: int, req: AnimalRequest): Result<Relations, Exc>
  {
    if id !in animals then Failure(ResourceNotFound(WithId("Animal not found with ID: ", id)))
    else if req.keeperId.None? then Failure(CaretakerRequired(CaretakerMessage))
    else if animals[id].habitatId.None? then Failure(HabitatNullPointer)
    else match CapacityCheck(animals, habitats, req.habitatId, animals[id].habitatId)
    case Some(e) => Failure(e)
    case None => Resolve(keepers, habitats, vets, plans, req)
  }

  /**
   * An unknown id fails with not-found before anything else; a missing keeper id fails next;
   * keeping the same habitat skips the capacity check, so an update succeeds exactly when every
   * reference resolves and the animal stays put or its new habitat has room.
   */
  lemma UpdateDecisionSpec(animals: map<int, Animal>, keepers: map<int, Keeper>, habitats: map<int, Habitat>,
                           vets: map<int, Vet>, plans: map<int, FeedingPlan>, id: int, req: AnimalRequest)
    ensures var d := UpdateDecision(animals, keepers, habitats, vets, plans, id, req);
      && (id !in animals ==> d == Failure(ResourceNotFound(WithId("Animal not found with ID: ", id))))
      && (id in animals && req.keeperId.None? ==> d == Failure(CaretakerRequired(CaretakerMessage)))
      && (d.Success? <==>
          && id in animals && animals[id].habitatId.Some?
          && req.keeperId.Some? && req.keeperId.value in keepers
          && req.habitatId.Some? && req.habitatId.value in habitats
          && (req.habitatId == animals[id].habitatId ||
              |Residents(animals, req.habitatId.value)| < habitats[req.habitatId.value].capacity)
          && req.vetId.Some? && req.vetId.value in vets
          && req.feedingPlanId.Some? && req.feedingPlanId.value in plans)
  {
  }

  /** Why a keeper is written to. */
  datatype NoticeKind = Assigned | Reassigned | DetailsUpdated | Unassigned | Removed

  datatype Notice = Notice(keeper: Keeper, kind: NoticeKind)

  /** `sendKeeperNotification`'s guard: a null keeper is not written to. */
  function KeeperNotice(keeper: Option<Keeper>, kind: NoticeKind): (r: seq<Notice>)
    ensures keeper.None? ==> r == []
    ensures keeper.Some? ==> r == [Notice(keeper.value, kind)]
  {
    match keeper
    case None => []
    case Some(k) => [Notice(k, kind)]
  }

  /** The keeper row an animal's keeper reference leads to. */
  function KeeperOf(keepers: map<int, Keeper>, ref: Option<int>): Option<Keeper>
  {
    if ref.Some? && ref.value in keepers then Some(keepers[ref.value]) else None
  }

  /** Two keeper rows of one persistence context are equal exactly when their ids are. */
  predicate SameKeeper(a: Option<Keeper>, b: Option<Keeper>)
  {
    a.Some? && b.Some? && a.value.id == b.value.id
  }

  /** `handleUpdateNotifications`: who is written to after an update, and why. */
  function UpdateNotices(newKeeper: Option<Keeper>, oldKeeper: Option<Keeper>): (r: seq<Notice>)
    ensures newKeeper.Some? && !SameKeeper(newKeeper, oldKeeper) ==>
      r == [Notice(newKeeper.value, Reassigned)] + KeeperNotice(oldKeeper, Unassigned)
    ensures SameKeeper(newKeeper, oldKeeper) ==> r == [Notice(newKeeper.value, DetailsUpdated)]
    ensures newKeeper.None? ==> r == KeeperNotice(oldKeeper, Unassigned)
  {
    if newKeeper.Some? && !SameKeeper(newKeeper, oldKeeper) then
      [Notice(newKeeper.value, Reassigned)] + KeeperNotice(oldKeeper, Unassigned)
    else if newKeeper.Some? && SameKeeper(newKeeper, oldKeeper) then
      [Notice(newKeeper.value, DetailsUpdated)]
    else if newKeeper.None? && oldKeeper.Some? then
      [Notice(oldKeeper.value, Unassigned)]
    else []
  }

  /**
   * After an update the new keeper, if any, hears exactly once; the old keeper hears exactly when
   * it exists, and once; nobody else hears; at most two keepers are written to.
   */
  lemma UpdateNoticesReach(newKeeper: Option<Keeper>, oldKeeper: Option<Keeper>)
    ensures var r := UpdateNotices(newKeeper, oldKeeper);
      && |r| <= 2
      && (forall n :: n in r ==> Some(n.keeper) == newKeeper || Some(n.keeper) == oldKeeper)
      && (newKeeper.Some? ==> |r| > 0 && r[0].keeper == newKeeper.value)
      && (oldKeeper.Some? ==> exists n :: n in r && n.keeper.id == oldKeeper.value.id)
      && (newKeeper.None? && oldKeeper.None? ==> r == [])
      && (forall i, j :: 0 <= i < j < |r| ==> r[i].keeper.id != r[j].keeper.id)
  {
    var r := UpdateNotices(newKeeper, oldKeeper);
    if oldKeeper.Some? && newKeeper.Some? && !SameKeeper(newKeeper, oldKeeper) {
      assert r[1] == Notice(oldKeeper.value, Unassigned);
    } else if oldKeeper.Some? {
      assert r[0].keeper.id == oldKeeper.value.id;
    }
  }

  const SignOff := "<br><br>Atenciosamente,<br>Gerência do Zoológico"

  /** A mail template: the greeting, then `lead`, the animal's name, `mid`, its species, `tail`. */
  datatype Template = Template(lead: string, mid: string, tail: string)

  const NewAssignmentBody := Template("Um novo animal, <b>", "</b> (Espécie: ", "), foi atribuído a você.")
  const UpdateDetailsBody := Template("Os detalhes do animal <b>", "</b> (Espécie: ", "), atribuído a você, foram atualizados.")
  const UnassignmentBody := Template("O animal <b>", "</b> (Espécie: ", ") foi desatribuído de você.")
  const DeletedBody := Template("O animal <b>", "</b> (Espécie: ", "), que estava atribuído a você, foi removido do sistema.")

  function TemplateOf(kind: NoticeKind): Template
  {
    match kind
    case Assigned => NewAssignmentBody
    case Reassigned => NewAssignmentBody
    case DetailsUpdated => UpdateDetailsBody
    case Unassigned => UnassignmentBody
    case Removed => DeletedBody
  }

  function SubjectOf(kind: NoticeKind, animalName: string): string
  {
    match kind
    case Assigned => "Novo Animal Atribuído: " + animalName
    case Reassigned => "Atribuição de Animal Atualizada: " + animalName
    case DetailsUpdated => "Detalhes do Animal Atualizados: " + animalName
    case Unassigned => "Animal Desatribuído: " + animalName
    case Removed => "Animal Removido: " + animalName
  }

  /** `String.format(template, keeperName, animalName, species)`: each `%s` takes one argument. */
  function Format(t: Template, keeperName: string, animalName: string, species: string): string
  {
    "Prezado(a) " + keeperName + ",<br><br>" + t.lead + animalName + t.mid + species + t.tail + SignOff
  }

  /** `s.replace("%", "%%")`. */
  function Escape(s: string): string
  {
    if s == [] then [] else (if s[0] == '%' then "%%" else [s[0]]) + Escape(s[1..])
  }

  /** Each `%` is doubled and nothing else changes length. */
  lemma {:induction false} EscapeLength(s: string)
    ensures |Escape(s)| == |s| + Text.Occurrences(s, '%')
  {
    if s != [] {
      EscapeLength(s[1..]);
    }
  }

  /** Escaping leaves a text alone exactly when it holds no `%`. */
  lemma {:induction false} EscapeIdentity(s: string)
    ensures Escape(s) == s <==> '%' !in s
  {
    if s != [] {
      EscapeIdentity(s[1..]);
      EscapeLength(s);
      OccurrencesIn(s, '%');
    }
  }

  lemma {:induction false} OccurrencesIn(s: string, c: char)
    ensures Text.Occurrences(s, c) == 0 <==> c !in s
  {
    if s != [] {
      OccurrencesIn(s[1..], c);
      assert s == [s[0]] + s[1..];
    }
  }

  /** The body as written: the arguments, not the template, have their `%` doubled. */
  function BodyAsWritten(t: Template, keeperName: string, animalName: string, species: string): string
  {
    Format(t, Escape(keeperName), Escape(animalName), Escape(species))
  }

  /** The body as meant: the names as they are stored. */
  function Body(t: Template, keeperName: string, animalName: string, species: string): string
  {
    Format(t, keeperName, animalName, species)
  }

  /** The two bodies agree exactly when no name holds a `%`; otherwise each `%` shows up twice. */
  lemma BodyAsWrittenDiffers(t: Template, keeperName: string, animalName: string, species: string)
    ensures |BodyAsWritten(t, keeperName, animalName, species)| ==
      |Body(t, keeperName, animalName, species)| + Text.Occurrences(keeperName, '%') +
      Text.Occurrences(animalName, '%') + Text.Occurrences(species, '%')
    ensures BodyAsWritten(t, keeperName, animalName, species) == Body(t, keeperName, animalName, species) <==>
      '%' !in keeperName && '%' !in animalName && '%' !in species
  {
    EscapeLength(keeperName);
    EscapeLength(animalName);
    EscapeLength(species);
    EscapeIdentity(keeperName);
    EscapeIdentity(animalName);
    EscapeIdentity(species);
    OccurrencesIn(keeperName, '%');
    OccurrencesIn(animalName, '%');
    OccurrencesIn(species, '%');
  }

  /** Escaping works character by character. */
  lemma {:induction false} EscapeAppend(a: string, b: string)
    ensures Escape(a + b) == Escape(a) + Escape(b)
  {
    if a == [] {
      assert a + b == b;
    } else {
      assert (a + b)[0] == a[0] && (a + b)[1..] == a[1..] + b;
      EscapeAppend(a[1..], b);
    }
  }

  /** A name ending in its only `%`, such as "Tigre 100%", is escaped with that `%` doubled. */
  lemma TrailingPercentDoubled(stem: string)
    requires '%' !in stem
    ensures Escape(stem + "%") == stem + "%%"
  {
    EscapeIdentity(stem);
    EscapeAppend(stem, "%");
  }

  /** "Tigre 100%" becomes "Tigre 100%%". */
  lemma PercentEscaped()
    ensures Escape("Tigre 100%") == "Tigre 100%%"
  {
    var stem := "Tigre 100";
    assert "Tigre 100%" == stem + "%" && "Tigre 100%%" == stem + "%%";
    TrailingPercentDoubled(stem);
  }

  /** So the mail as written to a keeper about "Tigre 100%" is not the intended one. */
  lemma PercentDoubledExample()
    ensures BodyAsWritten(NewAssignmentBody, "Ana", "Tigre 100%", "Tigre") != Body(NewAssignmentBody, "Ana", "Tigre 100%", "Tigre")
  {
    assert "Tigre 100%"[9] == '%';
    BodyAsWrittenDiffers(NewAssignmentBody, "Ana", "Tigre 100%", "Tigre");
  }

  /** A text assembled from eight pieces starts with the first and contains the fourth and sixth. */
  lemma Assembled(greeting: string, gap: string, lead: string, name: string, mid: string, species: string,
                  tail: string, signOff: string)
    ensures var b := greeting + gap + lead + name + mid + species + tail + signOff;
      && Text.StartsWith(b, greeting)
      && Text.Contains(b, name)
      && Text.Contains(b, species)
  {
    var b := greeting + gap + lead + name + mid + species + tail + signOff;
    var pre := greeting + gap + lead;
    assert b == greeting + (gap + lead + name + mid + species + tail + signOff);
    Text.StartsWithConcat(greeting, gap + lead + name + mid + species + tail + signOff);
    assert b == pre + name + (mid + species + tail + signOff);
    Text.ContainsConcat(pre, name, mid + species + tail + signOff);
    assert b == (pre + name + mid) + species + (tail + signOff);
    Text.ContainsConcat(pre + name + mid, species, tail + signOff);
  }

  /** The body greets the keeper by name and names the animal and its species as stored. */
  lemma BodyNames(t: Template, keeperName: string, animalName: string, species: string)
    ensures var b := Body(t, keeperName, animalName, species);
      && Text.StartsWith(b, "Prezado(a) " + keeperName)
      && Text.Contains(b, animalName)
      && Text.Contains(b, species)
  {
    Assembled("Prezado(a) " + keeperName, ",<br><br>", t.lead, animalName, t.mid, species, t.tail, SignOff);
  }

  /** `sendKeeperNotification` for each notice, in order. */
  function Notify(notices: seq<Notice>, a: Animal): (r: seq<Email>)
    ensures |r| == |notices|
    ensures forall i :: 0 <= i < |notices| ==>
      r[i] == Email(notices[i].keeper.contact, SubjectOf(notices[i].kind, a.name),
                    Body(TemplateOf(notices[i].kind), notices[i].keeper.name, a.name, a.species))
  {
    if notices == [] then []
    else
      var n := notices[0];
      [Email(n.keeper.contact, SubjectOf(n.kind, a.name), Body(TemplateOf(n.kind), n.keeper.name, a.name, a.species))]
        + Notify(notices[1..], a)
  }

  /** `createAnimal`. */
  method CreateAnimal(db: Database, req: AnimalRequest) returns (r: Result<AnimalDto, Exc>, emails: seq<Email>)
    requires db.Valid()
    modifies db
    ensures db.Valid()
    ensures var d := CreateDecision(old(db.animals), old(db.keepers), old(db.habitats), old(db.vets), old(db.plans), req);
      && (d.Failure? ==> r == Failure(d.error) && emails == [] && unchanged(db))
      && (d.Success? ==>
        var a := Stored(old(db.nextAnimalId), req);
        && old(db.nextAnimalId) !in old(db.animals)
        && db.animals == old(db.animals)[a.id := a]
        && db.nextAnimalId == old(db.nextAnimalId) + 1
        && db.keepers == old(db.keepers) && db.habitats == old(db.habitats) && db.vets == old(db.vets)
        && db.plans == old(db.plans) && db.nextKeeperId == old(db.nextKeeperId)
        && r == Success(ToDto(a))
        && emails == Notify([Notice(d.value.keeper, Assigned)], a))
    ensures old(WithinCapacity(db.animals, db.habitats)) ==> WithinCapacity(db.animals, db.habitats)
  {
    if req.keeperId.None? {
      return Failure(CaretakerRequired(CaretakerMessage)), [];
    }
    var check := CapacityCheck(db.animals, db.habitats, req.habitatId, None);
    if check.Some? {
      return Failure(check.value), [];
    }
    var relations := Resolve(db.keepers, db.habitats, db.vets, db.plans, req);
    if relations.Failure? {
      return Failure(relations.error), [];
    }
    var animal := Stored(db.nextAnimalId, req);
    StoreAnimalKeepsTables(db.animals, db.keepers, db.habitats, db.vets, db.plans, db.nextAnimalId, db.nextKeeperId,
      animal, db.nextAnimalId + 1);
    if WithinCapacity(db.animals, db.habitats) {
      AdmitKeepsCapacity(db.animals, db.habitats, animal.id, animal, None);
    }
    db.animals := db.animals[animal.id := animal];
    db.nextAnimalId := db.nextAnimalId + 1;
    emails := Notify(KeeperNotice(Some(relations.value.keeper), Assigned), animal);
    r := Success(ToDto(animal));
  }

  /** `updateAnimal`: every field and relation is overwritten from the request. */
  method UpdateAnimal(db: Database, id: int, req: AnimalRequest) returns (r: Result<AnimalDto, Exc>, emails: seq<Email>)
    requires db.Valid()
    modifies db
    ensures db.Valid()
    ensures var d := UpdateDecision(old(db.animals), old(db.keepers), old(db.habitats), old(db.vets), old(db.plans), id, req);
      && (d.Failure? ==> r == Failure(d.error) && emails == [] && unchanged(db))
      && (d.Success? ==>
        var a := Stored(id, req);
        && db.animals == old(db.animals)[id := a]
        && db.keepers == old(db.keepers) && db.habitats == old(db.habitats) && db.vets == old(db.vets)
        && db.plans == old(db.plans) && db.nextAnimalId == old(db.nextAnimalId) && db.nextKeeperId == old(db.nextKeeperId)
        && r == Success(ToDto(a))
        && emails == Notify(UpdateNotices(Some(d.value.keeper), KeeperOf(old(db.keepers), old(db.animals)[id].keeperId)), a))
    ensures old(WithinCapacity(db.animals, db.habitats)) ==> WithinCapacity(db.animals, db.habitats)
  {
    if id !in db.animals {
      return Failure(ResourceNotFound(WithId("Animal not found with ID: ", id))), [];
    }
    var existing := db.animals[id];
    if req.keeperId.None? {
      return Failure(CaretakerRequired(CaretakerMessage)), [];
    }
    var oldKeeper := KeeperOf(db.keepers, existing.keeperId);
    if existing.habitatId.None? {
      return Failure(HabitatNullPointer), [];
    }
    var check := CapacityCheck(db.animals, db.habitats, req.habitatId, existing.habitatId);
    if check.Some? {
      return Failure(check.value), [];
    }
    var relations := Resolve(db.keepers, db.habitats, db.vets, db.plans, req);
    if relations.Failure? {
      return Failure(relations.error), [];
    }
    var updated := Stored(id, req);
    StoreAnimalKeepsTables(db.animals, db.keepers, db.habitats, db.vets, db.plans, db.nextAnimalId, db.nextKeeperId,
      updated, db.nextAnimalId);
    if WithinCapacity(db.animals, db.habitats) {
      AdmitKeepsCapacity(db.animals, db.habitats, id, updated, existing.habitatId);
    }
    db.animals := db.animals[id := updated];
    emails := Notify(UpdateNotices(Some(relations.value.keeper), oldKeeper), updated);
    r := Success(ToDto(updated));
  }

  /** `deleteAnimal`: the former keeper, if any, is told. */
  method DeleteAnimal(db: Database, id: int) returns (r: Result<(), Exc>, emails: seq<Email>)
    requires db.Valid()
    modifies db
    ensures db.Valid()
    ensures id !in old(db.animals) ==>
      r == Failure(ResourceNotFound(WithId("Animal not found with ID: ", id))) && emails == [] && unchanged(db)
    ensures id in old(db.animals) ==>
      var a := old(db.animals)[id];
      && r == Success(())
      && db.animals == old(db.animals) - {id}
      && db.keepers == old(db.keepers) && db.habitats == old(db.habitats) && db.vets == old(db.vets)
      && db.plans == old(db.plans) && db.nextAnimalId == old(db.nextAnimalId) && db.nextKeeperId == old(db.nextKeeperId)
      && emails == Notify(KeeperNotice(KeeperOf(old(db.keepers), a.keeperId), Removed), a)
    ensures old(WithinCapacity(db.animals, db.habitats)) ==> WithinCapacity(db.animals, db.habitats)
  {
    if id !in db.animals {
      return Failure(ResourceNotFound(WithId("Animal not found with ID: ", id))), [];
    }
    var animalToDelete := db.animals[id];
    if WithinCapacity(db.animals, db.habitats) {
      RemoveKeepsCapacity(db.animals, db.habitats, id);
    }
    db.animals := db.animals - {id};
    emails := Notify(KeeperNotice(KeeperOf(db.keepers, animalToDelete.keeperId), Removed), animalToDelete);
    r := Success(());
  }

  /** The criteria of `getFilteredAnimals`; `None` is a null parameter. */
  datatype AnimalFilter = AnimalFilter(species: Option<string>, ageMin: Option<int>, ageMax: Option<int>, name: Option<string>)

  /** One predicate of the query. */
  datatype Criterion = SpeciesIs(species: string) | AgeAtLeast(min: int) | AgeAtMost(max: int) | NameLike(text: string)

  predicate Holds(c: Criterion, a: Animal)
  {
    match c
    case SpeciesIs(s) => a.species == s
    case AgeAtLeast(n) => a.age >= n
    case AgeAtMost(n) => a.age <= n
    case NameLike(t) => Text.Contains(Text.Lower(a.name), Text.Lower(t))
  }

  predicate AllHold(cs: seq<Criterion>, a: Animal)
  {
    forall i :: 0 <= i < |cs| ==> Holds(cs[i], a)
  }

  /** An animal passes the filter: every criterion actually supplied holds of it. */
  predicate Matches(a: Animal, f: AnimalFilter)
  {
    && (f.species.Some? && f.species.value != "" ==> a.species == f.species.value)
    && (f.ageMin.Some? ==> a.age >= f.ageMin.value)
    && (f.ageMax.Some? ==> a.age <= f.ageMax.value)
    && (f.name.Some? && f.name.value != "" ==> Text.Contains(Text.Lower(a.name), Text.Lower(f.name.value)))
  }

  /** The predicate list of `getFilteredAnimals`: one entry per supplied criterion, and-ed. */
  method Criteria(f: AnimalFilter) returns (cs: seq<Criterion>)
    ensures forall a :: AllHold(cs, a) <==> Matches(a, f)
    ensures |cs| <= 4
  {
    cs := [];
    if f.species.Some? && f.species.value != "" {
      AddCriterion(cs, SpeciesIs(f.species.value));
      cs := cs + [SpeciesIs(f.species.value)];
    }
    assert forall a :: AllHold(cs, a) <==> Matches(a, AnimalFilter(f.species, None, None, None));
    if f.ageMin.Some? {
      AddCriterion(cs, AgeAtLeast(f.ageMin.value));
      cs := cs + [AgeAtLeast(f.ageMin.value)];
    }
    assert forall a :: AllHold(cs, a) <==> Matches(a, AnimalFilter(f.species, f.ageMin, None, None));
    if f.ageMax.Some? {
      AddCriterion(cs, AgeAtMost(f.ageMax.value));
      cs := cs + [AgeAtMost(f.ageMax.value)];
    }
    assert forall a :: AllHold(cs, a) <==> Matches(a, AnimalFilter(f.species, f.ageMin, f.ageMax, None));
    if f.name.Some? && f.name.value != "" {
      AddCriterion(cs, NameLike(f.name.value));
      cs := cs + [NameLike(f.name.value)];
    }
  }

  /** After `predicates.add(c)` the list demands what it did before, and `c`. */
  lemma AddCriterion(cs: seq<Criterion>, c: Criterion)
    ensures forall a :: AllHold(cs + [c], a) <==> AllHold(cs, a) && Holds(c, a)
  {
    forall a ensures AllHold(cs + [c], a) <==> AllHold(cs, a) && Holds(c, a) {
      if AllHold(cs + [c], a) {
        forall i | 0 <= i < |cs| ensures Holds(cs[i], a) {
          assert (cs + [c])[i] == cs[i];
        }
        assert (cs + [c])[|cs|] == c;
      }
    }
  }

  /** `getFilteredAnimals`: the responses of the matching animals. */
  function FilteredAnimals(animals: map<int, Animal>, f: AnimalFilter): (r: set<AnimalDto>)
    requires forall k :: k in animals ==> animals[k].id == k
    ensures forall k :: k in animals && Matches(animals[k], f) ==> ToDto(animals[k]) in r
    ensures forall d :: d in r ==> d.id in animals && Matches(animals[d.id], f) && d == ToDto(animals[d.id])
  {
    set k | k in animals && Matches(animals[k], f) :: ToDto(animals[k])
  }

  /**
   * With no criterion every animal passes; both age bounds are inclusive; the name matches
   * regardless of case; an empty text is no criterion at all.
   */
  lemma MatchesSpec(a: Animal, f: AnimalFilter)
    ensures Matches(a, AnimalFilter(None, None, None, None))
    ensures Matches(a, AnimalFilter(None, Some(a.age), Some(a.age), None))
    ensures Matches(a, f.(species := Some(""))) <==> Matches(a, f.(species := None))
    ensures Matches(a, f.(name := Some(""))) <==> Matches(a, f.(name := None))
    ensures f.name.Some? ==> (Matches(a, f.(name := Some(Text.Lower(f.name.value)))) <==> Matches(a, f))
    ensures Matches(a, f) ==> Matches(a, f.(species := None)) && Matches(a, f.(ageMin := None)) &&
                              Matches(a, f.(ageMax := None)) && Matches(a, f.(name := None))
  {
    if f.name.Some? {
      Text.LowerIdempotent(f.name.value);
    }
  }
}
