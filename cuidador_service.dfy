/**
 * The keeper service (backend/santuario/src/main/java/com/zoo/santuario/service/CuidadorService.java):
 * keepers are created and updated under a unique contact, and deleted only once no animal is
 * assigned to them.
 */
module CuidadorService {
  import opened Wrappers
  import opened Entities
  import Text

  datatype KeeperRequest = KeeperRequest(name: string, contact: string, specialty: string, status: string, workShift: string)

  datatype KeeperDto = KeeperDto(id: int, name: string, contact: string, specialty: string, status: string, workShift: string)

  function ToDto(k: Keeper): KeeperDto
  {
    KeeperDto(k.id, k.name, k.contact, k.specialty, k.status, k.workShift)
  }

  /** The keeper stored under `id` with the request's fields. */
  function FromRequest(id: int, req: KeeperRequest): Keeper
  {
    Keeper(id, req.name, req.contact, req.specialty, req.status, req.workShift)
  }

  const DuplicateContact := "A cuidador with this contact already exists."

  /** `findByContact(contact).isPresent()`. */
  predicate ContactTaken(keepers: map<int, Keeper>, contact: string)
  {
    exists k :: k in keepers && keepers[k].contact == contact
  }

  /**
   * Storing keeper `k` under `id` keeps contacts unique when its contact is free, or is the one
   * the keeper stored under `id` already has.
   */
  lemma StoreKeepsContactsUnique(keepers: map<int, Keeper>, id: int, k: Keeper)
    requires ContactsUnique(keepers)
    requires !ContactTaken(keepers, k.contact) || (id in keepers && keepers[id].contact == k.contact)
    ensures ContactsUnique(keepers[id := k])
  {
    var after := keepers[id := k];
    forall a, b | a in after && b in after && a != b
      ensures after[a].contact != after[b].contact
    {
      if a == id {
        assert b in keepers && after[b] == keepers[b];
      } else if b == id {
        assert a in keepers && after[a] == keepers[a];
      }
    }
  }

  /** A contact already in use is found, and a contact nobody uses is not. */
  lemma ContactTakenSpec(keepers: map<int, Keeper>, id: int, contact: string)
    ensures id in keepers && keepers[id].contact == contact ==> ContactTaken(keepers, contact)
    ensures ContactTaken(keepers, contact) <==> contact in set k | k in keepers :: keepers[k].contact
  {
    if ContactTaken(keepers, contact) {
      var k :| k in keepers && keepers[k].contact == contact;
      assert contact == keepers[k].contact;
    }
  }

  /** `createCuidador`. */
  method CreateCuidador(db: Database, req: KeeperRequest) returns (r: Result<KeeperDto, Exc>)
    requires db.Valid()
    modifies db
    ensures db.Valid()
    ensures ContactTaken(old(db.keepers), req.contact) ==>
      r == Failure(IllegalArgument(DuplicateContact)) && unchanged(db)
    ensures !ContactTaken(old(db.keepers), req.contact) ==>
      var k := FromRequest(old(db.nextKeeperId), req);
      && old(db.nextKeeperId) !in old(db.keepers)
      && db.keepers == old(db.keepers)[k.id := k]
      && db.nextKeeperId == old(db.nextKeeperId) + 1
      && db.animals == old(db.animals) && db.habitats == old(db.habitats) && db.vets == old(db.vets)
      && db.plans == old(db.plans) && db.nextAnimalId == old(db.nextAnimalId)
      && r == Success(ToDto(k))
  {
    if ContactTaken(db.keepers, req.contact) {
      return Failure(IllegalArgument(DuplicateContact));
    }
    var keeper := FromRequest(db.nextKeeperId, req);
    StoreKeepsContactsUnique(db.keepers, keeper.id, keeper);
    db.keepers := db.keepers[keeper.id := keeper];
    db.nextKeeperId := db.nextKeeperId + 1;
    r := Success(ToDto(keeper));
  }

  /** `updateCuidador`: `None` for an unknown id. */
  method UpdateCuidador(db: Database, id: int, req: KeeperRequest) returns (r: Result<Option<KeeperDto>, Exc>)
    requires db.Valid()
    modifies db
    ensures db.Valid()
    ensures id !in old(db.keepers) ==> r == Success(None) && unchanged(db)
    ensures id in old(db.keepers) && old(db.keepers)[id].contact != req.contact && ContactTaken(old(db.keepers), req.contact) ==>
      r == Failure(IllegalArgument(DuplicateContact)) && unchanged(db)
    ensures id in old(db.keepers) && (old(db.keepers)[id].contact == req.contact || !ContactTaken(old(db.keepers), req.contact)) ==>
      var k := FromRequest(id, req);
      && db.keepers == old(db.keepers)[id := k]
      && db.animals == old(db.animals) && db.habitats == old(db.habitats) && db.vets == old(db.vets)
      && db.plans == old(db.plans) && db.nextAnimalId == old(db.nextAnimalId) && db.nextKeeperId == old(db.nextKeeperId)
      && r == Success(Some(ToDto(k)))
  {
    if id !in db.keepers {
      return Success(None);
    }
    var existing := db.keepers[id];
    if existing.contact != req.contact {
      if ContactTaken(db.keepers, req.contact) {
        return Failure(IllegalArgument(DuplicateContact));
      }
    }
    var updated := FromRequest(id, req);
    StoreKeepsContactsUnique(db.keepers, id, updated);
    db.keepers := db.keepers[id := updated];
    r := Success(Some(ToDto(updated)));
  }

  /** The message refusing to delete a keeper who still has animals. */
  function StillAssigned(k: Keeper, count: nat): string
  {
    "Cannot delete keeper " + k.name + " because they are still assigned to " + Text.IntText(count) + " animal(s)."
  }

  /** `deleteCuidador`. */
  method DeleteCuidador(db: Database, id: int) returns (r: Result<bool, Exc>)
    requires db.Valid()
    modifies db
    ensures db.Valid()
    ensures id !in old(db.keepers) ==>
      r == Failure(ResourceNotFound(WithId("Cuidador not found with ID: ", id))) && unchanged(db)
    ensures id in old(db.keepers) && |KeeperAnimals(old(db.animals), id)| > 0 ==>
      r == Failure(IllegalState(StillAssigned(old(db.keepers)[id], |KeeperAnimals(old(db.animals), id)|))) && unchanged(db)
    ensures id in old(db.keepers) && |KeeperAnimals(old(db.animals), id)| == 0 ==>
      && r == Success(true)
      && db.keepers == old(db.keepers) - {id}
      && db.animals == old(db.animals) && db.habitats == old(db.habitats) && db.vets == old(db.vets)
      && db.plans == old(db.plans) && db.nextAnimalId == old(db.nextAnimalId) && db.nextKeeperId == old(db.nextKeeperId)
  {
    if id !in db.keepers {
      return Failure(ResourceNotFound(WithId("Cuidador not found with ID: ", id)));
    }
    var cuidador := db.keepers[id];
    var animalsOfKeeper := KeeperAnimals(db.animals, id);
    if |animalsOfKeeper| > 0 {
      return Failure(IllegalState(StillAssigned(cuidador, |animalsOfKeeper|)));
    }
    NoAnimalsNoReferences(db.animals, id);
    db.keepers := db.keepers - {id};
    r := Success(true);
  }

  /** A keeper with no animals is referred to by no animal, so removing it breaks no reference. */
  lemma NoAnimalsNoReferences(animals: map<int, Animal>, id: int)
    requires |KeeperAnimals(animals, id)| == 0
    ensures forall a :: a in animals ==> animals[a].keeperId != Some(id)
  {
    var assignedIds := KeeperAnimals(animals, id);
    assert assignedIds == {};
    forall a | a in animals
      ensures animals[a].keeperId != Some(id)
    {
      assert a !in assignedIds;
    }
  }

  /** `getFilteredCuidadores`: every keeper for a null specialty, else those with exactly it. */
  function FilteredCuidadores(keepers: map<int, Keeper>, specialty: Option<string>): (r: set<KeeperDto>)
    requires forall k :: k in keepers ==> keepers[k].id == k
    ensures forall d :: d in r ==> d.id in keepers && d == ToDto(keepers[d.id])
    ensures forall d :: d in r && specialty.Some? ==> d.specialty == specialty.value
    ensures forall k :: k in keepers && (specialty.None? || keepers[k].specialty == specialty.value) ==> ToDto(keepers[k]) in r
  {
    match specialty
    case None => set k | k in keepers :: ToDto(keepers[k])
    case Some(s) => set k | k in keepers && keepers[k].specialty == s :: ToDto(keepers[k])
  }
}
