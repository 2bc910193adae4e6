/** A shelter (the `shelters` table) and the constraints its data annotations place on it.
    No service over this table is part of the model. */
module ShelterModel {
  import opened Common

  datatype Shelter = Shelter(
    shelterId: Uuid,
    shelterName: string,
    shelterAddress: string,
    shelterDescription: string,
    shelterCapacity: Int32,
    shelterCurrentCapacity: Int32,
    shelterCurrentOccupancy: Int32,
    shelterWebsite: Option<string>,
    shelterPhoneNumber: string,
    shelterCreateDate: DateTime,
    shelterUpdateDate: DateTime,
    shelterIsVerified: bool,
    userId: Option<Uuid>)

  /** The primary key. */
  function ShelterKey(s: Shelter): Uuid {
    s.shelterId
  }

  /** Every data annotation of the `Shelter` class holds. */
  predicate ValidShelter(s: Shelter) {
    && Required(s.shelterName) && |s.shelterName| <= 100
    && Required(s.shelterAddress)
    && Required(s.shelterDescription)
    && CountersInRange(s.shelterCapacity, s.shelterCurrentCapacity, s.shelterCurrentOccupancy)
    && Required(s.shelterPhoneNumber)
  }

  /** A shelter built with an object initialiser that sets only its descriptive fields, at time
      `now`: the counters take `int`'s default 0, the flag its declared default `false`, and the
      two dates the moment of construction. */
  function ShelterWithDefaults(id: Uuid, name: string, address: string, description: string,
                               capacity: Int32, website: Option<string>, phone: string,
                               now: DateTime): (s: Shelter)
    ensures s.shelterId == id && s.shelterCapacity == capacity
    ensures !s.shelterIsVerified
    ensures s.shelterCurrentCapacity == 0 && s.shelterCurrentOccupancy == 0
    ensures s.shelterCreateDate == now && s.shelterUpdateDate == now
  {
    Shelter(id, name, address, description, capacity, 0, 0, website, phone, now, now, false, None)
  }

  /** Such a shelter is valid exactly when its strings are present, its name fits and its
      capacity is at least 1. */
  lemma ShelterWithDefaultsValid(id: Uuid, name: string, address: string, description: string,
                                 capacity: Int32, website: Option<string>, phone: string,
                                 now: DateTime)
    ensures ValidShelter(ShelterWithDefaults(id, name, address, description, capacity, website, phone, now)) <==>
              Required(name) && |name| <= 100 && Required(address) && Required(description) &&
              Required(phone) && capacity >= 1
  {
  }

  /** A valid shelter holds at least one animal, never a negative count, and has a non-blank
      name of at most 100 characters. */
  lemma ValidShelterFields(s: Shelter)
    requires ValidShelter(s)
    ensures s.shelterCapacity >= 1
    ensures s.shelterCurrentCapacity >= 0 && s.shelterCurrentOccupancy >= 0
    ensures 0 < |s.shelterName| <= 100
  {
  }
}
