/** The foster-home service: reads, create, partial update and delete over the
    `foster_homes` table. */
module FosterHomeServices {
  import opened Common
  import Table
  import opened FosterHomeModel

  /** The body of a create request. */
  datatype FosterHomeCreateDto = FosterHomeCreateDto(
    fosterHomeName: string,
    fosterHomeDescription: string,
    fosterHomeCapacity: Int32,
    fosterHomeWebsite: Option<string>,
    fosterHomeAddress: string,
    fosterHomePhoneNumber: string,
    userId: Option<Uuid>)

  /** The body of an update request: every field may be left out. */
  datatype FosterHomeUpdateDto = FosterHomeUpdateDto(
    fosterHomeName: Option<string>,
    fosterHomeDescription: Option<string>,
    fosterHomeCapacity: Option<Int32>,
    fosterHomeWebsite: Option<string>,
    fosterHomeAddress: Option<string>,
    fosterHomePhoneNumber: Option<string>,
    userId: Option<Uuid>,
    fosterHomeIsVerified: Option<bool>)

  /** What the reads return for one foster home. */
  datatype FosterHomeReadDto = FosterHomeReadDto(
    fosterHomeId: Uuid,
    fosterHomeName: string,
    fosterHomeDescription: string,
    fosterHomeCapacity: Int32,
    fosterHomeCurrentCapacity: Int32,
    fosterHomeCurrentOccupancy: Int32,
    fosterHomeWebsite: Option<string>,
    fosterHomeAddress: string,
    fosterHomePhoneNumber: string,
    fosterHomeCreateDate: DateTime,
    fosterHomeUpdateDate: DateTime,
    fosterHomeIsVerified: bool,
    userId: Option<Uuid>)

  /** The foster home a read DTO describes. */
  function FromReadDto(d: FosterHomeReadDto): FosterHome {
    FosterHome(d.fosterHomeId, d.fosterHomeName, d.fosterHomeDescription, d.fosterHomeCapacity,
      d.fosterHomeCurrentCapacity, d.fosterHomeCurrentOccupancy, d.fosterHomeWebsite,
      d.fosterHomeAddress, d.fosterHomePhoneNumber, d.fosterHomeCreateDate,
      d.fosterHomeUpdateDate, d.fosterHomeIsVerified, d.userId)
  }

  /** The projection every read uses. It loses nothing. */
  function ToReadDto(h: FosterHome): (d: FosterHomeReadDto)
    ensures FromReadDto(d) == h
  {
    FosterHomeReadDto(h.fosterHomeId, h.fosterHomeName, h.fosterHomeDescription,
      h.fosterHomeCapacity, h.fosterHomeCurrentCapacity, h.fosterHomeCurrentOccupancy,
      h.fosterHomeWebsite, h.fosterHomeAddress, h.fosterHomePhoneNumber,
      h.fosterHomeCreateDate, h.fosterHomeUpdateDate, h.fosterHomeIsVerified, h.userId)
  }

  /** The row a create request inserts under the store-generated key `id` at time `now`: the
      requested capacity, both counters at zero, not verified. The counters are in range
      exactly when the requested capacity is at least 1, which the service does not check. */
  function NewFosterHome(id: Uuid, dto: FosterHomeCreateDto, now: DateTime): (h: FosterHome)
    ensures h.fosterHomeId == id && h.fosterHomeCapacity == dto.fosterHomeCapacity
    ensures h.fosterHomeCurrentCapacity == 0 && h.fosterHomeCurrentOccupancy == 0
    ensures !h.fosterHomeIsVerified
    ensures h.fosterHomeCreateDate == now && h.fosterHomeUpdateDate == now
    ensures FosterHomeCountersInRange(h) <==> dto.fosterHomeCapacity >= 1
  {
    FosterHome(id, dto.fosterHomeName, dto.fosterHomeDescription, dto.fosterHomeCapacity, 0, 0,
      dto.fosterHomeWebsite, dto.fosterHomeAddress, dto.fosterHomePhoneNumber, now, now, false,
      dto.userId)
  }

  /** The effect of an update request: each supplied field overwrites, the counters and the
      create date are never touched, and the update date becomes `now`. */
  function MergeFosterHome(h: FosterHome, dto: FosterHomeUpdateDto, now: DateTime): (m: FosterHome)
    ensures m.fosterHomeId == h.fosterHomeId && m.fosterHomeCreateDate == h.fosterHomeCreateDate
    ensures m.fosterHomeCurrentCapacity == h.fosterHomeCurrentCapacity
    ensures m.fosterHomeCurrentOccupancy == h.fosterHomeCurrentOccupancy
    ensures m.fosterHomeUpdateDate == now
  {
    h.(
      fosterHomeName := Patch(h.fosterHomeName, dto.fosterHomeName),
      fosterHomeDescription := Patch(h.fosterHomeDescription, dto.fosterHomeDescription),
      fosterHomeCapacity := Patch(h.fosterHomeCapacity, dto.fosterHomeCapacity),
      fosterHomeWebsite := PatchNullable(h.fosterHomeWebsite, dto.fosterHomeWebsite),
      fosterHomeAddress := Patch(h.fosterHomeAddress, dto.fosterHomeAddress),
      fosterHomePhoneNumber := Patch(h.fosterHomePhoneNumber, dto.fosterHomePhoneNumber),
      userId := PatchNullable(h.userId, dto.userId),
      fosterHomeIsVerified := Patch(h.fosterHomeIsVerified, dto.fosterHomeIsVerified),
      fosterHomeUpdateDate := now)
  }

  /** An update request that supplies nothing. */
  const NoFosterHomeChanges: FosterHomeUpdateDto :=
    FosterHomeUpdateDto(None, None, None, None, None, None, None, None)

  /** An empty update still refreshes the update date, and changes nothing else. */
  lemma MergeFosterHomeNoChanges(h: FosterHome, now: DateTime)
    ensures MergeFosterHome(h, NoFosterHomeChanges, now) == h.(fosterHomeUpdateDate := now)
  {
  }

  /** Sending the same update twice has the effect of sending it once. */
  lemma MergeFosterHomeIdempotent(h: FosterHome, dto: FosterHomeUpdateDto, first: DateTime, second: DateTime)
    ensures MergeFosterHome(MergeFosterHome(h, dto, first), dto, second) == MergeFosterHome(h, dto, second)
  {
  }

  /** Capacity and the verified flag change exactly when the request supplies them, and a
      supplied `false` does revoke verification. */
  lemma CapacityAndVerifiedOverwrite(h: FosterHome, dto: FosterHomeUpdateDto, now: DateTime)
    ensures dto.fosterHomeCapacity.None? ==> MergeFosterHome(h, dto, now).fosterHomeCapacity == h.fosterHomeCapacity
    ensures dto.fosterHomeCapacity.Some? ==> MergeFosterHome(h, dto, now).fosterHomeCapacity == dto.fosterHomeCapacity.value
    ensures dto.fosterHomeIsVerified == Some(false) ==> !MergeFosterHome(h, dto, now).fosterHomeIsVerified
    ensures dto.fosterHomeIsVerified.None? ==> MergeFosterHome(h, dto, now).fosterHomeIsVerified == h.fosterHomeIsVerified
  {
  }

  /** An update keeps the counters of a foster home in range exactly when it leaves the
      capacity alone or supplies one of at least 1. */
  lemma MergeFosterHomeCounters(h: FosterHome, dto: FosterHomeUpdateDto, now: DateTime)
    requires FosterHomeCountersInRange(h)
    ensures FosterHomeCountersInRange(MergeFosterHome(h, dto, now)) <==>
              dto.fosterHomeCapacity.None? || dto.fosterHomeCapacity.value >= 1
  {
  }

  /** The fields an update may supply are each valid for the table when supplied. */
  predicate ValidFosterHomeUpdate(dto: FosterHomeUpdateDto) {
    && (dto.fosterHomeName.Some? ==> Required(dto.fosterHomeName.value) && |dto.fosterHomeName.value| <= 100)
    && (dto.fosterHomeDescription.Some? ==> Required(dto.fosterHomeDescription.value))
    && (dto.fosterHomeCapacity.Some? ==> dto.fosterHomeCapacity.value >= 1)
    && (dto.fosterHomeAddress.Some? ==> Required(dto.fosterHomeAddress.value))
    && (dto.fosterHomePhoneNumber.Some? ==> Required(dto.fosterHomePhoneNumber.value))
  }

  /** A valid foster home stays valid under an update exactly when every supplied field is
      valid. The service checks nothing itself. */
  lemma MergeFosterHomeKeepsValid(h: FosterHome, dto: FosterHomeUpdateDto, now: DateTime)
    requires ValidFosterHome(h)
    ensures ValidFosterHome(MergeFosterHome(h, dto, now)) <==> ValidFosterHomeUpdate(dto)
  {
  }

  class FosterHomeService {
    /** The `foster_homes` table, in table order. */
    var fosterHomes: seq<FosterHome>

    ghost predicate Valid()
      reads this
    {
      Table.KeysUnique(fosterHomes, FosterHomeKey)
    }

    constructor (initial: seq<FosterHome>)
      requires Table.KeysUnique(initial, FosterHomeKey)
      ensures Valid() && fosterHomes == initial
    {
      fosterHomes := initial;
    }

    /** `GetAllFosterHomesAsync`: one read DTO per stored foster home, in table order. */
    function GetAllFosterHomes(): (all: seq<FosterHomeReadDto>)
      reads this
      ensures |all| == |fosterHomes|
      ensures forall i :: 0 <= i < |fosterHomes| ==> FromReadDto(all[i]) == fosterHomes[i]
    {
      Table.MapRows(fosterHomes, ToReadDto)
    }

    /** `GetFosterHomeByIdAsync`: null exactly when no foster home has the id, otherwise a copy
        of that foster home. */
    function GetFosterHomeById(fosterHomeId: Uuid): (found: Option<FosterHomeReadDto>)
      reads this
      ensures found.None? <==> !Table.HasKey(fosterHomes, FosterHomeKey, fosterHomeId)
      ensures found.Some? ==> FromReadDto(found.value) in fosterHomes && found.value.fosterHomeId == fosterHomeId
    {
      match Table.Find(fosterHomes, FosterHomeKey, fosterHomeId)
      case None => None
      case Some(h) => Some(ToReadDto(h))
    }

    /** `CreateFosterHomeAsync`: appends the new foster home under the fresh key `newId` and
        returns its projection, which a read by that key then returns. */
    method CreateFosterHome(dto: FosterHomeCreateDto, newId: Uuid, now: DateTime) returns (created: FosterHomeReadDto)
      requires Valid()
      requires !Table.HasKey(fosterHomes, FosterHomeKey, newId)
      modifies this
      ensures Valid()
      ensures fosterHomes == old(fosterHomes) + [NewFosterHome(newId, dto, now)]
      ensures created == ToReadDto(NewFosterHome(newId, dto, now))
      ensures GetFosterHomeById(newId) == Some(created)
      ensures forall k :: k != newId ==> GetFosterHomeById(k) == old(GetFosterHomeById(k))
    {
      var fosterHome := NewFosterHome(newId, dto, now);
      Table.AppendFresh(fosterHomes, FosterHomeKey, fosterHome);
      fosterHomes := fosterHomes + [fosterHome];
      created := ToReadDto(fosterHome);
    }

    /** `UpdateFosterHomeAsync`: false, with nothing changed, when the id is absent; otherwise
        the foster home is overwritten field by field with what the DTO supplies, and its update
        date refreshed. */
    method UpdateFosterHome(fosterHomeId: Uuid, dto: FosterHomeUpdateDto, now: DateTime) returns (found: bool)
      requires Valid()
      modifies this
      ensures Valid()
      ensures found == Table.HasKey(old(fosterHomes), FosterHomeKey, fosterHomeId)
      ensures !found ==> fosterHomes == old(fosterHomes)
      ensures found ==>
        var i := Table.IndexOf(old(fosterHomes), FosterHomeKey, fosterHomeId).value;
        fosterHomes == old(fosterHomes)[i := MergeFosterHome(old(fosterHomes)[i], dto, now)]
      ensures found ==>
        GetFosterHomeById(fosterHomeId) ==
          Some(ToReadDto(MergeFosterHome(old(Table.Find(fosterHomes, FosterHomeKey, fosterHomeId)).value, dto, now)))
      ensures forall k :: k != fosterHomeId ==> GetFosterHomeById(k) == old(GetFosterHomeById(k))
    {
      var index := Table.IndexOf(fosterHomes, FosterHomeKey, fosterHomeId);
      if index.None? {
        return false;
      }
      var i := index.value;
      var fosterHome := MergeFosterHome(fosterHomes[i], dto, now);
      Table.ReplaceKeepingKey(fosterHomes, FosterHomeKey, i, fosterHome);
      fosterHomes := fosterHomes[i := fosterHome];
      return true;
    }

    /** `DeleteFosterHomeAsync`: false, with nothing changed, when the id is absent; otherwise
        exactly that foster home is removed. */
    method DeleteFosterHome(fosterHomeId: Uuid) returns (found: bool)
      requires Valid()
      modifies this
      ensures Valid()
      ensures found == Table.HasKey(old(fosterHomes), FosterHomeKey, fosterHomeId)
      ensures !found ==> fosterHomes == old(fosterHomes)
      ensures found ==>
        var i := Table.IndexOf(old(fosterHomes), FosterHomeKey, fosterHomeId).value;
        fosterHomes == old(fosterHomes)[..i] + old(fosterHomes)[i + 1..]
      ensures GetFosterHomeById(fosterHomeId).None?
      ensures forall k :: k != fosterHomeId ==> GetFosterHomeById(k) == old(GetFosterHomeById(k))
    {
      var index := Table.IndexOf(fosterHomes, FosterHomeKey, fosterHomeId);
      if index.None? {
        return false;
      }
      var i := index.value;
      Table.RemoveAt(fosterHomes, FosterHomeKey, i);
      fosterHomes := fosterHomes[..i] + fosterHomes[i + 1..];
      return true;
    }
  }
}
