/** The read-only `animal_types` lookup table, keyed by a string such as "dog", and the
    service that lists it and looks entries up. The service only reads: its operations are
    functions of the table's contents. */
module AnimalTypeServices {
  import opened Common
  import Table

  datatype AnimalType = AnimalType(
    animalTypeKey: string,
    animalTypeLabel: string)

  /** The primary key. */
  function AnimalTypeKey(t: AnimalType): string {
    t.animalTypeKey
  }

  /** What the reads return for one type. */
  datatype AnimalTypeReadDto = AnimalTypeReadDto(
    animalTypeKey: string,
    animalTypeLabel: string)

  /** The projection both reads use: key and label copied unchanged. */
  function ToReadDto(t: AnimalType): (d: AnimalTypeReadDto)
    ensures d.animalTypeKey == t.animalTypeKey
    ensures d.animalTypeLabel == t.animalTypeLabel
  {
    AnimalTypeReadDto(t.animalTypeKey, t.animalTypeLabel)
  }

  /** `GetAllAnimalTypesAsync`: one DTO per row, in table order. */
  function GetAllAnimalTypes(types: seq<AnimalType>): (all: seq<AnimalTypeReadDto>)
    ensures |all| == |types|
    ensures forall i :: 0 <= i < |types| ==> all[i] == ToReadDto(types[i])
  {
    Table.MapRows(types, ToReadDto)
  }

  /** `GetAnimalTypeByKeyAsync`: null exactly when no row has the key, otherwise a copy of the
      row that has it. */
  function GetAnimalTypeByKey(types: seq<AnimalType>, animalTypeKey: string): (found: Option<AnimalTypeReadDto>)
    ensures found.None? <==> !Table.HasKey(types, AnimalTypeKey, animalTypeKey)
    ensures found.Some? ==> found.value.animalTypeKey == animalTypeKey
    ensures found.Some? ==> exists i :: 0 <= i < |types| && found.value == ToReadDto(types[i])
  {
    match Table.IndexOf(types, AnimalTypeKey, animalTypeKey)
    case None => None
    case Some(i) => Some(ToReadDto(types[i]))
  }

  /** The two reads agree: under the key constraint, looking up the key of any listed entry
      returns that very entry. */
  lemma {:induction false} GetAllAgreesWithGetByKey(types: seq<AnimalType>, i: nat)
    requires Table.KeysUnique(types, AnimalTypeKey)
    requires i < |types|
    ensures GetAnimalTypeByKey(types, GetAllAnimalTypes(types)[i].animalTypeKey) == Some(GetAllAnimalTypes(types)[i])
  {
    Table.IndexOfUnique(types, AnimalTypeKey, i);
  }
}
