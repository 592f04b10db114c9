/**
 * The back end's entities (backend/santuario/src/main/java/com/zoo/santuario/model), the
 * exceptions its services raise, and the database the repositories stand for: one map per table
 * from id to row, and the identity counters that hand out new ids. An animal refers to its
 * keeper, vet, habitat and feeding plan by id.
 */
module Entities {
  import opened Wrappers
  import Text

  datatype Keeper = Keeper(id: int, name: string, contact: string, specialty: string, status: string, workShift: string)

  datatype Habitat = Habitat(id: int, name: string, kind: string, capacity: int, status: string)

  datatype Vet = Vet(id: int, name: string, crmv: string, specialty: string, status: string)

  datatype FeedingPlan = FeedingPlan(id: int, planName: string, foodType: string, quantity: string, frequency: string)

  datatype Animal = Animal(
    id: int, name: string, species: string, age: int, sex: string, arrivalDate: string, status: string,
    image: Option<string>,
    keeperId: Option<int>, vetId: Option<int>, habitatId: Option<int>, feedingPlanId: Option<int>)

  /** The exceptions that reach the exception handler, each with its message. */
  datatype Exc =
    | IllegalArgument(message: string)
    | ResourceNotFound(message: string)
    | CaretakerRequired(message: string)
    | HabitatCapacityExceeded(message: string)
    | IllegalState(message: string)
    | OtherException(name: string, message: string)

  /** What the repository raises when `findById` is handed a null id. */
  const NullIdRefused := OtherException("InvalidDataAccessApiUsageException", "The given id must not be null")

  /** `"... ID: " + id` for a Java `Long`. */
  function WithId(prefix: string, id: int): string
  {
    prefix + Text.IntText(id)
  }

  /** An e-mail handed to the mail service. */
  datatype Email = Email(to: string, subject: string, body: string)

  /** Ids of the animals living in habitat `h`: `countByHabitatId(h)` is its size. */
  function Residents(animals: map<int, Animal>, h: int): set<int>
  {
    set k | k in animals && animals[k].habitatId == Some(h)
  }

  /** Ids of the animals cared for by keeper `k`: the keeper's `animals` list. */
  function KeeperAnimals(animals: map<int, Animal>, k: int): set<int>
  {
    set a | a in animals && animals[a].keeperId == Some(k)
  }

  /** No two keepers share a contact (the column is unique). */
  ghost predicate ContactsUnique(keepers: map<int, Keeper>)
  {
    forall a, b :: a in keepers && b in keepers && a != b ==> keepers[a].contact != keepers[b].contact
  }

  /** Every habitat holds at most its capacity. */
  ghost predicate WithinCapacity(animals: map<int, Animal>, habitats: map<int, Habitat>)
  {
    forall h :: h in habitats ==> |Residents(animals, h)| <= habitats[h].capacity
  }

  /** An animal refers only to rows that exist. */
  ghost predicate References(a: Animal, keepers: map<int, Keeper>, habitats: map<int, Habitat>, vets: map<int, Vet>,
                             plans: map<int, FeedingPlan>)
  {
    && (a.keeperId.Some? ==> a.keeperId.value in keepers)
    && (a.vetId.Some? ==> a.vetId.value in vets)
    && (a.habitatId.Some? ==> a.habitatId.value in habitats)
    && (a.feedingPlanId.Some? ==> a.feedingPlanId.value in plans)
  }

  /**
   * The consistency of the tables: each row is stored under its own id, below the identity
   * counter; every reference an animal holds names an existing row (the foreign keys); contacts
   * are unique.
   */
  ghost predicate Tables(animals: map<int, Animal>, keepers: map<int, Keeper>, habitats: map<int, Habitat>,
                         vets: map<int, Vet>, plans: map<int, FeedingPlan>, nextAnimalId: int, nextKeeperId: int)
  {
    && (forall k :: k in animals ==> animals[k].id == k && k < nextAnimalId)
    && (forall k :: k in keepers ==> keepers[k].id == k && k < nextKeeperId)
    && (forall k :: k in habitats ==> habitats[k].id == k)
    && (forall k :: k in vets ==> vets[k].id == k)
    && (forall k :: k in plans ==> plans[k].id == k)
    && (forall k :: k in animals ==> References(animals[k], keepers, habitats, vets, plans))
    && ContactsUnique(keepers)
  }

  /**
   * Storing an animal under its own id, below the (possibly advanced) counter, with references
   * that all resolve keeps the tables consistent.
   */
  lemma StoreAnimalKeepsTables(animals: map<int, Animal>, keepers: map<int, Keeper>, habitats: map<int, Habitat>,
                               vets: map<int, Vet>, plans: map<int, FeedingPlan>, nextAnimalId: int, nextKeeperId: int,
                               a: Animal, nextAnimalId': int)
    requires Tables(animals, keepers, habitats, vets, plans, nextAnimalId, nextKeeperId)
    requires a.id < nextAnimalId' && nextAnimalId <= nextAnimalId'
    requires References(a, keepers, habitats, vets, plans)
    ensures Tables(animals[a.id := a], keepers, habitats, vets, plans, nextAnimalId', nextKeeperId)
  {
  }

  /** The tables behind the repositories. */
  class Database {
    var animals: map<int, Animal>
    var keepers: map<int, Keeper>
    var habitats: map<int, Habitat>
    var vets: map<int, Vet>
    var plans: map<int, FeedingPlan>
    var nextAnimalId: int
    var nextKeeperId: int

    /**
     * Each row is stored under its own id, below the identity counter; every reference an animal
     * holds names an existing row (the foreign keys); contacts are unique.
     */
    ghost predicate Valid()
      reads this
    {
      Tables(animals, keepers, habitats, vets, plans, nextAnimalId, nextKeeperId)
    }

    constructor()
      ensures Valid()
      ensures animals == map[] && keepers == map[] && habitats == map[] && vets == map[] && plans == map[]
      ensures nextAnimalId == 1 && nextKeeperId == 1
    {
      animals := map[];
      keepers := map[];
      habitats := map[];
      vets := map[];
      plans := map[];
      nextAnimalId := 1;
      nextKeeperId := 1;
    }
  }

  /** Storing animal `a` under `id`: the habitat it moves into gains exactly that one resident. */
  lemma ResidentsGain(animals: map<int, Animal>, id: int, a: Animal, h: int)
    requires a.habitatId == Some(h)
    requires id !in animals || animals[id].habitatId != Some(h)
    ensures Residents(animals[id := a], h) == Residents(animals, h) + {id}
    ensures id !in Residents(animals, h)
    ensures |Residents(animals[id := a], h)| == |Residents(animals, h)| + 1
  {
  }

  /** Storing an animal outside habitat `h` never adds to `h`'s residents. */
  lemma ResidentsNoGain(animals: map<int, Animal>, id: int, a: Animal, h: int)
    requires a.habitatId != Some(h)
    ensures Residents(animals[id := a], h) == Residents(animals, h) - {id}
    ensures |Residents(animals[id := a], h)| <= |Residents(animals, h)|
  {
    SubsetSize(Residents(animals[id := a], h), Residents(animals, h));
  }

  /** Storing an animal that stays in habitat `h` leaves `h`'s residents as they were. */
  lemma ResidentsStay(animals: map<int, Animal>, id: int, a: Animal, h: int)
    requires id in animals && animals[id].habitatId == Some(h) && a.habitatId == Some(h)
    ensures Residents(animals[id := a], h) == Residents(animals, h)
  {
  }

  /** Removing an animal never adds to any habitat's residents. */
  lemma ResidentsRemove(animals: map<int, Animal>, id: int, h: int)
    ensures Residents(animals - {id}, h) == Residents(animals, h) - {id}
    ensures |Residents(animals - {id}, h)| <= |Residents(animals, h)|
  {
    SubsetSize(Residents(animals - {id}, h), Residents(animals, h));
  }

  lemma SubsetSize<T>(a: set<T>, b: set<T>)
    requires a <= b
    ensures |a| <= |b|
  {
    assert b == a + (b - a);
  }
}
