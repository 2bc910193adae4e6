/** An animal offered for adoption (the `animals` table) and the constraints its data
    annotations place on it. */
module AnimalModel {
  import opened Common
  import ReportModel

  datatype Animal = Animal(
    animalId: Uuid,
    animalName: string,
    animalAge: Option<Int32>,
    animalGender: string,
    animalBreed: string,
    animalDescription: string,
    animalStatus: string,
    adPostedDate: DateTime,
    adUpdateDate: DateTime,
    animalLocation: string,
    animalLatitude: Option<Coordinate>,
    animalLongitude: Option<Coordinate>,
    animalIsVerified: bool,
    userId: Option<Uuid>,
    shelterId: Option<Uuid>,
    fosterHomeId: Option<Uuid>,
    animalTypeKey: Option<string>,
    animalSizeKey: Option<string>)

  /** The primary key. */
  function AnimalKey(a: Animal): Uuid {
    a.animalId
  }

  const AnimalGenders: set<string> := {"male", "female", "not_specified"}
  const AnimalStatuses: set<string> := {"not_available", "available", "adopted", "fostered", "in_shelter"}

  /** `AnimalGender`: required, at most 20 characters, one of the three genders. */
  predicate ValidAnimalGender(s: string) {
    Required(s) && |s| <= 20 && MatchesOneOfOpt(Some(s), AnimalGenders)
  }

  /** `AnimalStatus`: required, one of the five statuses. */
  predicate ValidAnimalStatus(s: string) {
    Required(s) && MatchesOneOfOpt(Some(s), AnimalStatuses)
  }

  /** Every data annotation of the `Animal` class holds. */
  predicate ValidAnimal(a: Animal) {
    && Required(a.animalName) && |a.animalName| <= 75
    && ValidAnimalGender(a.animalGender)
    && Required(a.animalBreed) && |a.animalBreed| <= 75
    && Required(a.animalDescription)
    && ValidAnimalStatus(a.animalStatus)
    && Required(a.animalLocation)
  }

  /** Taken together, the gender attributes admit exactly the three genders. */
  lemma ValidAnimalGenderIff(s: string)
    ensures ValidAnimalGender(s) <==> s in AnimalGenders
  {
    if s in AnimalGenders {
      assert !IsWhiteSpace(s[0]);
    }
  }

  /** Taken together, the status attributes admit exactly the five statuses. */
  lemma ValidAnimalStatusIff(s: string)
    ensures ValidAnimalStatus(s) <==> s in AnimalStatuses
  {
    if s in AnimalStatuses {
      assert !IsWhiteSpace(s[0]);
    }
  }

  /** An animal's gender vocabulary is not a report's: "unknown" is accepted on a report and
      rejected on an animal, "not_specified" the other way round. */
  lemma GenderVocabulariesDiffer()
    ensures MatchesOneOfOpt(Some("unknown"), ReportModel.ReportAnimalGenders)
    ensures !ValidAnimalGender("unknown")
    ensures ValidAnimalGender("not_specified")
    ensures !MatchesOneOfOpt(Some("not_specified"), ReportModel.ReportAnimalGenders)
  {
    ValidAnimalGenderIff("unknown");
    ValidAnimalGenderIff("not_specified");
  }
}
