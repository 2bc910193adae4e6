/** The animal service: reads, create, partial update and delete over the `animals` table. */
module AnimalServices {
  import opened Common
  import Table
  import opened AnimalModel
  import AnimalImageServices

  /** The body of a create request. */
  datatype AnimalCreateDto = AnimalCreateDto(
    animalName: string,
    animalAge: Option<Int32>,
    animalGender: string,
    animalBreed: string,
    animalDescription: string,
    animalStatus: string,
    animalLocation: string,
    animalLatitude: Option<Coordinate>,
    animalLongitude: Option<Coordinate>,
    animalTypeKey: Option<string>,
    animalSizeKey: Option<string>,
    userId: Option<Uuid>,
    shelterId: Option<Uuid>,
    fosterHomeId: Option<Uuid>)

  /** The body of an update request: every field may be left out. */
  datatype AnimalUpdateDto = AnimalUpdateDto(
    animalName: Option<string>,
    animalAge: Option<Int32>,
    animalGender: Option<string>,
    animalBreed: Option<string>,
    animalDescription: Option<string>,
    animalStatus: Option<string>,
    animalLocation: Option<string>,
    animalLatitude: Option<Coordinate>,
    animalLongitude: Option<Coordinate>,
    animalTypeKey: Option<string>,
    animalSizeKey: Option<string>,
    userId: Option<Uuid>,
    shelterId: Option<Uuid>,
    fosterHomeId: Option<Uuid>)

  /** What the reads return for one animal, with the list of its images. */
  datatype AnimalReadDto = AnimalReadDto(
    animalId: Uuid,
    animalName: string,
    animalAge: Option<Int32>,
    animalGender: string,
    animalBreed: string,
    animalDescription: string,
    animalStatus: string,
    animalLocation: string,
    animalLatitude: Option<Coordinate>,
    animalLongitude: Option<Coordinate>,
    animalTypeKey: Option<string>,
    animalSizeKey: Option<string>,
    userId: Option<Uuid>,
    shelterId: Option<Uuid>,
    fosterHomeId: Option<Uuid>,
    animalIsVerified: bool,
    adPostedDate: DateTime,
    adUpdateDate: DateTime,
    images: seq<AnimalImageServices.AnimalImageReadDto>)

  /** The animal a read DTO describes (its image list aside). */
  function FromReadDto(d: AnimalReadDto): Animal {
    Animal(d.animalId, d.animalName, d.animalAge, d.animalGender, d.animalBreed,
      d.animalDescription, d.animalStatus, d.adPostedDate, d.adUpdateDate, d.animalLocation,
      d.animalLatitude, d.animalLongitude, d.animalIsVerified, d.userId, d.shelterId,
      d.fosterHomeId, d.animalTypeKey, d.animalSizeKey)
  }

  /** The projection every read uses. It loses no field of the animal, and its image list is
      always empty: the service never loads the images. */
  function ToReadDto(a: Animal): (d: AnimalReadDto)
    ensures FromReadDto(d) == a
    ensures d.images == []
  {
    AnimalReadDto(a.animalId, a.animalName, a.animalAge, a.animalGender, a.animalBreed,
      a.animalDescription, a.animalStatus, a.animalLocation, a.animalLatitude,
      a.animalLongitude, a.animalTypeKey, a.animalSizeKey, a.userId, a.shelterId,
      a.fosterHomeId, a.animalIsVerified, a.adPostedDate, a.adUpdateDate, [])
  }

  /** The row a create request inserts under the store-generated key `id` at time `now`:
      not verified, posted and updated at `now`, every other field taken from the request. */
  function NewAnimal(id: Uuid, dto: AnimalCreateDto, now: DateTime): (a: Animal)
    ensures a.animalId == id && !a.animalIsVerified
    ensures a.adPostedDate == now && a.adUpdateDate == now
    ensures a.userId == dto.userId && a.shelterId == dto.shelterId && a.fosterHomeId == dto.fosterHomeId
  {
    Animal(id, dto.animalName, dto.animalAge, dto.animalGender, dto.animalBreed,
      dto.animalDescription, dto.animalStatus, now, now, dto.animalLocation,
      dto.animalLatitude, dto.animalLongitude, false, dto.userId, dto.shelterId,
      dto.fosterHomeId, dto.animalTypeKey, dto.animalSizeKey)
  }

  /** The effect of an update request on the stored animal: each supplied field overwrites,
      every other field stays, and the update date becomes `now`. */
  function MergeAnimal(a: Animal, dto: AnimalUpdateDto, now: DateTime): (m: Animal)
    ensures m.animalId == a.animalId && m.adPostedDate == a.adPostedDate
    ensures m.animalIsVerified == a.animalIsVerified
    ensures m.adUpdateDate == now
  {
    a.(
      animalName := Patch(a.animalName, dto.animalName),
      animalAge := PatchNullable(a.animalAge, dto.animalAge),
      animalGender := Patch(a.animalGender, dto.animalGender),
      animalBreed := Patch(a.animalBreed, dto.animalBreed),
      animalDescription := Patch(a.animalDescription, dto.animalDescription),
      animalStatus := Patch(a.animalStatus, dto.animalStatus),
      animalLocation := Patch(a.animalLocation, dto.animalLocation),
      animalLatitude := PatchNullable(a.animalLatitude, dto.animalLatitude),
      animalLongitude := PatchNullable(a.animalLongitude, dto.animalLongitude),
      animalTypeKey := PatchNullable(a.animalTypeKey, dto.animalTypeKey),
      animalSizeKey := PatchNullable(a.animalSizeKey, dto.animalSizeKey),
      userId := PatchNullable(a.userId, dto.userId),
      shelterId := PatchNullable(a.shelterId, dto.shelterId),
      fosterHomeId := PatchNullable(a.fosterHomeId, dto.fosterHomeId),
      adUpdateDate := now)
  }

  /** An update request that supplies nothing. */
  const NoAnimalChanges: AnimalUpdateDto := AnimalUpdateDto(
    None, None, None, None, None, None, None, None, None, None, None, None, None, None)

  /** An empty update still refreshes the update date, and changes nothing else. */
  lemma MergeAnimalNoChanges(a: Animal, now: DateTime)
    ensures MergeAnimal(a, NoAnimalChanges, now) == a.(adUpdateDate := now)
  {
  }

  /** Sending the same update twice has the effect of sending it once. */
  lemma MergeAnimalIdempotent(a: Animal, dto: AnimalUpdateDto, first: DateTime, second: DateTime)
    ensures MergeAnimal(MergeAnimal(a, dto, first), dto, second) == MergeAnimal(a, dto, second)
  {
  }

  /** Marking an animal adopted: the status changes, the update date is refreshed, and name,
      breed, location and every other field keep their values. */
  lemma MarkAdopted(a: Animal, now: DateTime)
    ensures MergeAnimal(a, NoAnimalChanges.(animalStatus := Some("adopted")), now) ==
            a.(animalStatus := "adopted", adUpdateDate := now)
    ensures ValidAnimal(a) ==> ValidAnimal(MergeAnimal(a, NoAnimalChanges.(animalStatus := Some("adopted")), now))
  {
    ValidAnimalStatusIff("adopted");
  }

  /** An update can move an animal to another custodian but can never detach it: a user,
      shelter or foster home that is set stays set, and changes only when the request names
      another one. */
  lemma CustodiansNeverCleared(a: Animal, dto: AnimalUpdateDto, now: DateTime)
    ensures a.userId.Some? ==> MergeAnimal(a, dto, now).userId.Some?
    ensures a.shelterId.Some? ==> MergeAnimal(a, dto, now).shelterId.Some?
    ensures a.fosterHomeId.Some? ==> MergeAnimal(a, dto, now).fosterHomeId.Some?
    ensures MergeAnimal(a, dto, now).shelterId != a.shelterId ==> MergeAnimal(a, dto, now).shelterId == dto.shelterId
    ensures MergeAnimal(a, dto, now).fosterHomeId != a.fosterHomeId ==> MergeAnimal(a, dto, now).fosterHomeId == dto.fosterHomeId
    ensures MergeAnimal(a, dto, now).userId != a.userId ==> MergeAnimal(a, dto, now).userId == dto.userId
  {
  }

  /** The fields an update may supply are each valid for the table when supplied. */
  predicate ValidAnimalUpdate(dto: AnimalUpdateDto) {
    && (dto.animalName.Some? ==> Required(dto.animalName.value) && |dto.animalName.value| <= 75)
    && (dto.animalGender.Some? ==> ValidAnimalGender(dto.animalGender.value))
    && (dto.animalBreed.Some? ==> Required(dto.animalBreed.value) && |dto.animalBreed.value| <= 75)
    && (dto.animalDescription.Some? ==> Required(dto.animalDescription.value))
    && (dto.animalStatus.Some? ==> ValidAnimalStatus(dto.animalStatus.value))
    && (dto.animalLocation.Some? ==> Required(dto.animalLocation.value))
  }

  /** An update whose supplied fields are valid keeps a valid animal valid; conversely, a valid
      result means every supplied field was valid. The service checks nothing itself. */
  lemma MergeAnimalKeepsValid(a: Animal, dto: AnimalUpdateDto, now: DateTime)
    requires ValidAnimal(a)
    ensures ValidAnimal(MergeAnimal(a, dto, now)) <==> ValidAnimalUpdate(dto)
  {
  }

  class AnimalService {
    /** The `animals` table, in table order. */
    var animals: seq<Animal>

    ghost predicate Valid()
      reads this
    {
      Table.KeysUnique(animals, AnimalKey)
    }

    constructor (initial: seq<Animal>)
      requires Table.KeysUnique(initial, AnimalKey)
      ensures Valid() && animals == initial
    {
      animals := initial;
    }

    /** `GetAllAnimalsAsync`: one read DTO per stored animal, in table order, each with an
        empty image list. */
    function GetAllAnimals(): (all: seq<AnimalReadDto>)
      reads this
      ensures |all| == |animals|
      ensures forall i :: 0 <= i < |animals| ==> FromReadDto(all[i]) == animals[i] && all[i].images == []
    {
      Table.MapRows(animals, ToReadDto)
    }

    /** `GetAnimalByIdAsync`: null exactly when no animal has the id, otherwise a copy of that
        animal with an empty image list. */
    function GetAnimalById(animalId: Uuid): (found: Option<AnimalReadDto>)
      reads this
      ensures found.None? <==> !Table.HasKey(animals, AnimalKey, animalId)
      ensures found.Some? ==> FromReadDto(found.value) in animals && found.value.animalId == animalId
      ensures found.Some? ==> found.value.images == []
    {
      match Table.Find(animals, AnimalKey, animalId)
      case None => None
      case Some(a) => Some(ToReadDto(a))
    }

    /** `CreateAnimalAsync`: appends the new animal under the fresh key `newId` and returns its
        projection, which a read by that key then returns. */
    method CreateAnimal(dto: AnimalCreateDto, newId: Uuid, now: DateTime) returns (created: AnimalReadDto)
      requires Valid()
      requires !Table.HasKey(animals, AnimalKey, newId)
      modifies this
      ensures Valid()
      ensures animals == old(animals) + [NewAnimal(newId, dto, now)]
      ensures created == ToReadDto(NewAnimal(newId, dto, now))
      ensures GetAnimalById(newId) == Some(created)
      ensures forall k :: k != newId ==> GetAnimalById(k) == old(GetAnimalById(k))
    {
      var animal := NewAnimal(newId, dto, now);
      Table.AppendFresh(animals, AnimalKey, animal);
      animals := animals + [animal];
      created := ToReadDto(animal);
    }

    /** `UpdateAnimalAsync`: false, with nothing changed, when the id is absent; otherwise the
        animal is overwritten field by field with what the DTO supplies, and its update date
        refreshed. */
    method UpdateAnimal(animalId: Uuid, dto: AnimalUpdateDto, now: DateTime) returns (found: bool)
      requires Valid()
      modifies this
      ensures Valid()
      ensures found == Table.HasKey(old(animals), AnimalKey, animalId)
      ensures !found ==> animals == old(animals)
      ensures found ==>
        var i := Table.IndexOf(old(animals), AnimalKey, animalId).value;
        animals == old(animals)[i := MergeAnimal(old(animals)[i], dto, now)]
      ensures found ==>
        GetAnimalById(animalId) == Some(ToReadDto(MergeAnimal(old(Table.Find(animals, AnimalKey, animalId)).value, dto, now)))
      ensures forall k :: k != animalId ==> GetAnimalById(k) == old(GetAnimalById(k))
    {
      var index := Table.IndexOf(animals, AnimalKey, animalId);
      if index.None? {
        return false;
      }
      var i := index.value;
      var animal := MergeAnimal(animals[i], dto, now);
      Table.ReplaceKeepingKey(animals, AnimalKey, i, animal);
      animals := animals[i := animal];
      return true;
    }

    /** `DeleteAnimalAsync`: false, with nothing changed, when the id is absent; otherwise
        exactly that animal is removed. */
    method DeleteAnimal(animalId: Uuid) returns (found: bool)
      requires Valid()
      modifies this
      ensures Valid()
      ensures found == Table.HasKey(old(animals), AnimalKey, animalId)
      ensures !found ==> animals == old(animals)
      ensures found ==>
        var i := Table.IndexOf(old(animals), AnimalKey, animalId).value;
        animals == old(animals)[..i] + old(animals)[i + 1..]
      ensures GetAnimalById(animalId).None?
      ensures forall k :: k != animalId ==> GetAnimalById(k) == old(GetAnimalById(k))
    {
      var index := Table.IndexOf(animals, AnimalKey, animalId);
      if index.None? {
        return false;
      }
      var i := index.value;
      Table.RemoveAt(animals, AnimalKey, i);
      animals := animals[..i] + animals[i + 1..];
      return true;
    }
  }
}
