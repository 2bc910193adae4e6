/** Adoption requests (the `adoption_requests` table) and the service that reads, lists by
    user or by animal, creates, partially updates and deletes them. */
module AdoptionRequestServices {
  import opened Common
  import Table

  /** One stored request. */
  datatype AdoptionRequest = AdoptionRequest(
    adoptionRequestId: Uuid,
    requestDate: DateTime,
    requestUpdateDate: DateTime,
    requestStatus: string,
    requestMessage: Option<string>,
    requestResponse: Option<string>,
    requestResponseDate: Option<DateTime>,
    requestIsVerified: bool,
    requestIsCompleted: bool,
    userId: Uuid,
    animalId: Uuid)

  /** The primary key. */
  function AdoptionRequestKey(r: AdoptionRequest): Uuid {
    r.adoptionRequestId
  }

  /** The status a new request gets. */
  const PendingStatus: string := "pending"

  /** The data annotations of `AdoptionRequest`: the status is required and at most 20
      characters. No vocabulary is enforced. */
  predicate ValidAdoptionRequest(r: AdoptionRequest) {
    Required(r.requestStatus) && |r.requestStatus| <= 20
  }

  /** The body of a create request. */
  datatype AdoptionRequestCreateDto = AdoptionRequestCreateDto(
    requestMessage: Option<string>,
    userId: Uuid,
    animalId: Uuid)

  /** The body of an update request: every field may be left out. */
  datatype AdoptionRequestUpdateDto = AdoptionRequestUpdateDto(
    requestStatus: Option<string>,
    requestResponse: Option<string>,
    requestResponseDate: Option<DateTime>,
    requestIsVerified: Option<bool>,
    requestIsCompleted: Option<bool>)

  /** What the reads return for one request. */
  datatype AdoptionRequestReadDto = AdoptionRequestReadDto(
    adoptionRequestId: Uuid,
    requestDate: DateTime,
    requestUpdateDate: DateTime,
    requestStatus: string,
    requestMessage: Option<string>,
    requestResponse: Option<string>,
    requestResponseDate: Option<DateTime>,
    requestIsVerified: bool,
    requestIsCompleted: bool,
    userId: Uuid,
    animalId: Uuid)

  /** The request a read DTO describes. */
  function FromReadDto(d: AdoptionRequestReadDto): AdoptionRequest {
    AdoptionRequest(d.adoptionRequestId, d.requestDate, d.requestUpdateDate, d.requestStatus,
      d.requestMessage, d.requestResponse, d.requestResponseDate, d.requestIsVerified,
      d.requestIsCompleted, d.userId, d.animalId)
  }

  /** `MapToReadDto`: a projection that loses nothing. */
  function MapToReadDto(r: AdoptionRequest): (d: AdoptionRequestReadDto)
    ensures FromReadDto(d) == r
  {
    AdoptionRequestReadDto(r.adoptionRequestId, r.requestDate, r.requestUpdateDate,
      r.requestStatus, r.requestMessage, r.requestResponse, r.requestResponseDate,
      r.requestIsVerified, r.requestIsCompleted, r.userId, r.animalId)
  }

  /** The row a create request inserts under the store-generated key `id` at time `now`:
      pending, with no response, neither verified nor completed, made and updated at `now`.
      It is always valid. */
  function NewAdoptionRequest(id: Uuid, dto: AdoptionRequestCreateDto, now: DateTime): (r: AdoptionRequest)
    ensures r.adoptionRequestId == id && r.userId == dto.userId && r.animalId == dto.animalId
    ensures r.requestStatus == PendingStatus
    ensures r.requestResponse.None? && r.requestResponseDate.None?
    ensures !r.requestIsVerified && !r.requestIsCompleted
    ensures r.requestDate == now && r.requestUpdateDate == now
    ensures ValidAdoptionRequest(r)
  {
    assert !IsWhiteSpace(PendingStatus[0]);
    AdoptionRequest(id, now, now, PendingStatus, dto.requestMessage, None, None, false, false,
      dto.userId, dto.animalId)
  }

  /** The effect of an update request: each supplied field overwrites, the requester, the
      animal and the request date never change, and the update date becomes `now`. */
  function MergeAdoptionRequest(r: AdoptionRequest, dto: AdoptionRequestUpdateDto, now: DateTime): (m: AdoptionRequest)
    ensures m.adoptionRequestId == r.adoptionRequestId && m.requestDate == r.requestDate
    ensures m.userId == r.userId && m.animalId == r.animalId
    ensures m.requestMessage == r.requestMessage
    ensures m.requestUpdateDate == now
  {
    r.(
      requestStatus := Patch(r.requestStatus, dto.requestStatus),
      requestResponse := PatchNullable(r.requestResponse, dto.requestResponse),
      requestResponseDate := PatchNullable(r.requestResponseDate, dto.requestResponseDate),
      requestIsVerified := Patch(r.requestIsVerified, dto.requestIsVerified),
      requestIsCompleted := Patch(r.requestIsCompleted, dto.requestIsCompleted),
      requestUpdateDate := now)
  }

  /** An update request that supplies nothing. */
  const NoAdoptionRequestChanges: AdoptionRequestUpdateDto :=
    AdoptionRequestUpdateDto(None, None, None, None, None)

  /** An empty update still refreshes the update date, and changes nothing else. */
  lemma MergeAdoptionRequestNoChanges(r: AdoptionRequest, now: DateTime)
    ensures MergeAdoptionRequest(r, NoAdoptionRequestChanges, now) == r.(requestUpdateDate := now)
  {
  }

  /** Sending the same update twice has the effect of sending it once. */
  lemma MergeAdoptionRequestIdempotent(r: AdoptionRequest, dto: AdoptionRequestUpdateDto, first: DateTime, second: DateTime)
    ensures MergeAdoptionRequest(MergeAdoptionRequest(r, dto, first), dto, second) ==
            MergeAdoptionRequest(r, dto, second)
  {
  }

  /** A response, once given, cannot be withdrawn by an update; the response date likewise. */
  lemma ResponseNeverCleared(r: AdoptionRequest, dto: AdoptionRequestUpdateDto, now: DateTime)
    ensures r.requestResponse.Some? ==> MergeAdoptionRequest(r, dto, now).requestResponse.Some?
    ensures r.requestResponseDate.Some? ==> MergeAdoptionRequest(r, dto, now).requestResponseDate.Some?
  {
  }

  /** A valid request stays valid under an update exactly when it leaves the status alone or
      supplies a non-blank one of at most 20 characters. */
  lemma MergeAdoptionRequestKeepsValid(r: AdoptionRequest, dto: AdoptionRequestUpdateDto, now: DateTime)
    requires ValidAdoptionRequest(r)
    ensures ValidAdoptionRequest(MergeAdoptionRequest(r, dto, now)) <==>
              dto.requestStatus.None? ||
              (Required(dto.requestStatus.value) && |dto.requestStatus.value| <= 20)
  {
  }

  /** The filter of `GetAdoptionRequestsByUserIdAsync`. */
  function ByUser(userId: Uuid): AdoptionRequest -> bool {
    (r: AdoptionRequest) => r.userId == userId
  }

  /** The filter of `GetAdoptionRequestsByAnimalIdAsync`. */
  function ByAnimal(animalId: Uuid): AdoptionRequest -> bool {
    (r: AdoptionRequest) => r.animalId == animalId
  }

  /** The filters of the two listings, read off a request's read DTO. */
  function ReadDtoByUser(userId: Uuid): AdoptionRequestReadDto -> bool {
    (d: AdoptionRequestReadDto) => d.userId == userId
  }

  function ReadDtoByAnimal(animalId: Uuid): AdoptionRequestReadDto -> bool {
    (d: AdoptionRequestReadDto) => d.animalId == animalId
  }

  class AdoptionRequestService {
    /** The `adoption_requests` table, in table order. */
    var requests: seq<AdoptionRequest>

    ghost predicate Valid()
      reads this
    {
      Table.KeysUnique(requests, AdoptionRequestKey)
    }

    constructor (initial: seq<AdoptionRequest>)
      requires Table.KeysUnique(initial, AdoptionRequestKey)
      ensures Valid() && requests == initial
    {
      requests := initial;
    }

    /** `GetAllAdoptionRequestsAsync`: one read DTO per stored request, in table order. */
    function GetAllAdoptionRequests(): (all: seq<AdoptionRequestReadDto>)
      reads this
      ensures |all| == |requests|
      ensures forall i :: 0 <= i < |requests| ==> FromReadDto(all[i]) == requests[i]
    {
      Table.MapRows(requests, MapToReadDto)
    }

    /** `GetAdoptionRequestByIdAsync`: null exactly when no request has the id, otherwise that
        request. */
    function GetAdoptionRequestById(adoptionRequestId: Uuid): (found: Option<AdoptionRequestReadDto>)
      reads this
      ensures found.None? <==> !Table.HasKey(requests, AdoptionRequestKey, adoptionRequestId)
      ensures found.Some? ==> FromReadDto(found.value) in requests && found.value.adoptionRequestId == adoptionRequestId
    {
      match Table.Find(requests, AdoptionRequestKey, adoptionRequestId)
      case None => None
      case Some(r) => Some(MapToReadDto(r))
    }

    /** `GetAdoptionRequestsByUserIdAsync`: exactly the requests made by `userId`, in table order. */
    function GetAdoptionRequestsByUserId(userId: Uuid): (found: seq<AdoptionRequestReadDto>)
      reads this
      ensures |found| <= |requests|
      ensures forall i :: 0 <= i < |found| ==> found[i].userId == userId && FromReadDto(found[i]) in requests
      ensures forall i :: 0 <= i < |requests| && requests[i].userId == userId ==> MapToReadDto(requests[i]) in found
    {
      var rows := Table.Filter(requests, ByUser(userId));
      assert forall i :: 0 <= i < |requests| && requests[i].userId == userId ==>
        exists j :: 0 <= j < |rows| && rows[j] == requests[i];
      Table.MapRows(rows, MapToReadDto)
    }

    /** `GetAdoptionRequestsByAnimalIdAsync`: exactly the requests for `animalId`, in table order. */
    function GetAdoptionRequestsByAnimalId(animalId: Uuid): (found: seq<AdoptionRequestReadDto>)
      reads this
      ensures |found| <= |requests|
      ensures forall i :: 0 <= i < |found| ==> found[i].animalId == animalId && FromReadDto(found[i]) in requests
      ensures forall i :: 0 <= i < |requests| && requests[i].animalId == animalId ==> MapToReadDto(requests[i]) in found
    {
      var rows := Table.Filter(requests, ByAnimal(animalId));
      assert forall i :: 0 <= i < |requests| && requests[i].animalId == animalId ==>
        exists j :: 0 <= j < |rows| && rows[j] == requests[i];
      Table.MapRows(rows, MapToReadDto)
    }

    /** A user's listing is the full listing filtered to that user: it keeps table order and
        holds each of the user's request DTOs exactly as often as the full listing does. */
    lemma RequestsByUserFilterAll(userId: Uuid, d: AdoptionRequestReadDto)
      ensures GetAdoptionRequestsByUserId(userId) == Table.Filter(GetAllAdoptionRequests(), ReadDtoByUser(userId))
      ensures multiset(GetAdoptionRequestsByUserId(userId))[d] ==
                if d.userId == userId then multiset(GetAllAdoptionRequests())[d] else 0
    {
      Table.SelectThenWhere(requests, ByUser(userId), MapToReadDto, ReadDtoByUser(userId));
      Table.FilterCount(GetAllAdoptionRequests(), ReadDtoByUser(userId), d);
    }

    /** An animal's listing is the full listing filtered to that animal, in the same sense. */
    lemma RequestsByAnimalFilterAll(animalId: Uuid, d: AdoptionRequestReadDto)
      ensures GetAdoptionRequestsByAnimalId(animalId) == Table.Filter(GetAllAdoptionRequests(), ReadDtoByAnimal(animalId))
      ensures multiset(GetAdoptionRequestsByAnimalId(animalId))[d] ==
                if d.animalId == animalId then multiset(GetAllAdoptionRequests())[d] else 0
    {
      Table.SelectThenWhere(requests, ByAnimal(animalId), MapToReadDto, ReadDtoByAnimal(animalId));
      Table.FilterCount(GetAllAdoptionRequests(), ReadDtoByAnimal(animalId), d);
    }

    /** `CreateAdoptionRequestAsync`: appends the new request under the fresh key `newId`; it is
        then found by its key and listed last among its user's and its animal's requests. */
    method CreateAdoptionRequest(dto: AdoptionRequestCreateDto, newId: Uuid, now: DateTime) returns (created: AdoptionRequestReadDto)
      requires Valid()
      requires !Table.HasKey(requests, AdoptionRequestKey, newId)
      modifies this
      ensures Valid()
      ensures requests == old(requests) + [NewAdoptionRequest(newId, dto, now)]
      ensures created == MapToReadDto(NewAdoptionRequest(newId, dto, now))
      ensures GetAdoptionRequestById(newId) == Some(created)
      ensures forall k :: k != newId ==> GetAdoptionRequestById(k) == old(GetAdoptionRequestById(k))
      ensures forall u :: GetAdoptionRequestsByUserId(u) ==
                old(GetAdoptionRequestsByUserId(u)) + (if u == dto.userId then [created] else [])
      ensures forall a :: GetAdoptionRequestsByAnimalId(a) ==
                old(GetAdoptionRequestsByAnimalId(a)) + (if a == dto.animalId then [created] else [])
    {
      var request := NewAdoptionRequest(newId, dto, now);
      Table.AppendFresh(requests, AdoptionRequestKey, request);
      forall u {
        Table.SelectWhereAppend(requests, ByUser(u), MapToReadDto, request);
      }
      forall a {
        Table.SelectWhereAppend(requests, ByAnimal(a), MapToReadDto, request);
      }
      requests := requests + [request];
      created := MapToReadDto(request);
    }

    /** `UpdateAdoptionRequestAsync`: false, with nothing changed, when the id is absent;
        otherwise the request is overwritten field by field with what the DTO supplies, and its
        update date refreshed. */
    method UpdateAdoptionRequest(adoptionRequestId: Uuid, dto: AdoptionRequestUpdateDto, now: DateTime) returns (found: bool)
      requires Valid()
      modifies this
      ensures Valid()
      ensures found == Table.HasKey(old(requests), AdoptionRequestKey, adoptionRequestId)
      ensures !found ==> requests == old(requests)
      ensures found ==>
        var i := Table.IndexOf(old(requests), AdoptionRequestKey, adoptionRequestId).value;
        requests == old(requests)[i := MergeAdoptionRequest(old(requests)[i], dto, now)]
      ensures found ==>
        GetAdoptionRequestById(adoptionRequestId) ==
          Some(MapToReadDto(MergeAdoptionRequest(old(Table.Find(requests, AdoptionRequestKey, adoptionRequestId)).value, dto, now)))
      ensures forall k :: k != adoptionRequestId ==> GetAdoptionRequestById(k) == old(GetAdoptionRequestById(k))
    {
      var index := Table.IndexOf(requests, AdoptionRequestKey, adoptionRequestId);
      if index.None? {
        return false;
      }
      var i := index.value;
      var request := MergeAdoptionRequest(requests[i], dto, now);
      Table.ReplaceKeepingKey(requests, AdoptionRequestKey, i, request);
      requests := requests[i := request];
      return true;
    }

    /** `DeleteAdoptionRequestAsync`: false, with nothing changed, when the id is absent;
        otherwise exactly that request is removed. */
    method DeleteAdoptionRequest(adoptionRequestId: Uuid) returns (found: bool)
      requires Valid()
      modifies this
      ensures Valid()
      ensures found == Table.HasKey(old(requests), AdoptionRequestKey, adoptionRequestId)
      ensures !found ==> requests == old(requests)
      ensures found ==>
        var i := Table.IndexOf(old(requests), AdoptionRequestKey, adoptionRequestId).value;
        requests == old(requests)[..i] + old(requests)[i + 1..]
      ensures GetAdoptionRequestById(adoptionRequestId).None?
      ensures forall k :: k != adoptionRequestId ==> GetAdoptionRequestById(k) == old(GetAdoptionRequestById(k))
    {
      var index := Table.IndexOf(requests, AdoptionRequestKey, adoptionRequestId);
      if index.None? {
        return false;
      }
      var i := index.value;
      Table.RemoveAt(requests, AdoptionRequestKey, i);
      requests := requests[..i] + requests[i + 1..];
      return true;
    }
  }
}
