/** The read-only `animal_sizes` lookup table, keyed by a string such as "small", and the
    service that lists it and looks entries up. The service only reads: its operations are
    functions of the table's contents. */
module AnimalSizeServices {
  import opened Common
  import Table

  datatype AnimalSize = AnimalSize(
    animalSizeKey: string,
    animalSizeLabel: string,
    animalSizeDescription: string)

  /** The primary key. */
  function AnimalSizeKey(s: AnimalSize): string {
    s.animalSizeKey
  }

  /** What the reads return for one size. */
  datatype AnimalSizeReadDto = AnimalSizeReadDto(
    animalSizeKey: string,
    animalSizeLabel: string,
    animalSizeDescription: string)

  /** The projection both reads use: key, label and description copied unchanged. */
  function ToReadDto(s: AnimalSize): (d: AnimalSizeReadDto)
    ensures d.animalSizeKey == s.animalSizeKey
    ensures d.animalSizeLabel == s.animalSizeLabel
    ensures d.animalSizeDescription == s.animalSizeDescription
  {
    AnimalSizeReadDto(s.animalSizeKey, s.animalSizeLabel, s.animalSizeDescription)
  }

  /** `GetAllAnimalSizesAsync`: one DTO per row, in table order. */
  function GetAllAnimalSizes(sizes: seq<AnimalSize>): (all: seq<AnimalSizeReadDto>)
    ensures |all| == |sizes|
    ensures forall i :: 0 <= i < |sizes| ==> all[i] == ToReadDto(sizes[i])
  {
    Table.MapRows(sizes, ToReadDto)
  }

  /** `GetAnimalSizeByKeyAsync`: null exactly when no row has the key, otherwise a copy of the
      row that has it. */
  function GetAnimalSizeByKey(sizes: seq<AnimalSize>, animalSizeKey: string): (found: Option<AnimalSizeReadDto>)
    ensures found.None? <==> !Table.HasKey(sizes, AnimalSizeKey, animalSizeKey)
    ensures found.Some? ==> found.value.animalSizeKey == animalSizeKey
    ensures found.Some? ==> exists i :: 0 <= i < |sizes| && found.value == ToReadDto(sizes[i])
  {
    match Table.IndexOf(sizes, AnimalSizeKey, animalSizeKey)
    case None => None
    case Some(i) => Some(ToReadDto(sizes[i]))
  }

  /** The two reads agree: under the key constraint, looking up the key of any listed entry
      returns that very entry. */
  lemma {:induction false} GetAllAgreesWithGetByKey(sizes: seq<AnimalSize>, i: nat)
    requires Table.KeysUnique(sizes, AnimalSizeKey)
    requires i < |sizes|
    ensures GetAnimalSizeByKey(sizes, GetAllAnimalSizes(sizes)[i].animalSizeKey) == Some(GetAllAnimalSizes(sizes)[i])
  {
    Table.IndexOfUnique(sizes, AnimalSizeKey, i);
  }
}
