/** A foster home (the `foster_homes` table) and the constraints its data annotations place
    on it. */
module FosterHomeModel {
  import opened Common

  datatype FosterHome = FosterHome(
    fosterHomeId: Uuid,
    fosterHomeName: string,
    fosterHomeDescription: string,
    fosterHomeCapacity: Int32,
    fosterHomeCurrentCapacity: Int32,
    fosterHomeCurrentOccupancy: Int32,
    fosterHomeWebsite: Option<string>,
    fosterHomeAddress: string,
    fosterHomePhoneNumber: string,
    fosterHomeCreateDate: DateTime,
    fosterHomeUpdateDate: DateTime,
    fosterHomeIsVerified: bool,
    userId: Option<Uuid>)

  /** The primary key. */
  function FosterHomeKey(h: FosterHome): Uuid {
    h.fosterHomeId
  }

  /** The capacity and counter ranges of a foster home. */
  predicate FosterHomeCountersInRange(h: FosterHome) {
    CountersInRange(h.fosterHomeCapacity, h.fosterHomeCurrentCapacity, h.fosterHomeCurrentOccupancy)
  }

  /** Every data annotation of the `FosterHome` class holds. */
  predicate ValidFosterHome(h: FosterHome) {
    && Required(h.fosterHomeName) && |h.fosterHomeName| <= 100
    && Required(h.fosterHomeDescription)
    && FosterHomeCountersInRange(h)
    && Required(h.fosterHomeAddress)
    && Required(h.fosterHomePhoneNumber)
  }

  /** A valid foster home holds at least one animal, never a negative count, and has a
      non-blank name of at most 100 characters. */
  lemma ValidFosterHomeFields(h: FosterHome)
    requires ValidFosterHome(h)
    ensures h.fosterHomeCapacity >= 1
    ensures h.fosterHomeCurrentCapacity >= 0 && h.fosterHomeCurrentOccupancy >= 0
    ensures 0 < |h.fosterHomeName| <= 100
  {
  }
}
