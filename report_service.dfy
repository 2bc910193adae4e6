/** The report service: reads, create, partial update and delete over the `reports` table. */
module ReportServices {
  import opened Common
  import Table
  import opened ReportModel

  /** The body of a create request. Title, type and description are required by the table. */
  datatype ReportCreateDto = ReportCreateDto(
    reportTitle: string,
    reportType: string,
    reportDescription: string,
    reportImageUrl: Option<string>,
    reportStatus: Option<string>,
    reportAddress: Option<string>,
    reportCity: Option<string>,
    reportProvince: Option<string>,
    reportPostalCode: Option<string>,
    reportCountry: Option<string>,
    reportLatitude: Option<Coordinate>,
    reportLongitude: Option<Coordinate>,
    animalName: Option<string>,
    animalGender: Option<string>,
    animalBreed: Option<string>,
    lastSeenDate: Option<DateTime>,
    userId: Option<Uuid>,
    animalTypeKey: Option<string>,
    animalSizeKey: Option<string>)

  /** The body of an update request: every field may be left out (null). */
  datatype ReportUpdateDto = ReportUpdateDto(
    reportTitle: Option<string>,
    reportType: Option<string>,
    reportDescription: Option<string>,
    reportImageUrl: Option<string>,
    reportStatus: Option<string>,
    reportAddress: Option<string>,
    reportCity: Option<string>,
    reportProvince: Option<string>,
    reportPostalCode: Option<string>,
    reportCountry: Option<string>,
    reportLatitude: Option<Coordinate>,
    reportLongitude: Option<Coordinate>,
    animalName: Option<string>,
    animalGender: Option<string>,
    animalBreed: Option<string>,
    lastSeenDate: Option<DateTime>,
    animalTypeKey: Option<string>,
    animalSizeKey: Option<string>,
    reportIsVerified: Option<bool>)

  /** What the reads return for one report. */
  datatype ReportReadDto = ReportReadDto(
    reportId: Uuid,
    reportTitle: string,
    reportType: string,
    reportDescription: string,
    reportDate: DateTime,
    reportUpdateDate: DateTime,
    reportImageUrl: Option<string>,
    reportStatus: string,
    reportAddress: Option<string>,
    reportCity: Option<string>,
    reportProvince: Option<string>,
    reportPostalCode: Option<string>,
    reportCountry: Option<string>,
    reportLatitude: Option<Coordinate>,
    reportLongitude: Option<Coordinate>,
    reportIsVerified: bool,
    animalName: Option<string>,
    animalGender: Option<string>,
    animalBreed: Option<string>,
    lastSeenDate: Option<DateTime>,
    userId: Option<Uuid>,
    animalTypeKey: Option<string>,
    animalSizeKey: Option<string>)

  /** The report a read DTO describes. */
  function FromReadDto(d: ReportReadDto): Report {
    Report(d.reportId, d.reportTitle, d.reportType, d.reportDescription, d.reportDate,
      d.reportUpdateDate, d.reportImageUrl, d.reportStatus, d.reportAddress, d.reportCity,
      d.reportProvince, d.reportPostalCode, d.reportCountry, d.reportLatitude, d.reportLongitude,
      d.reportIsVerified, d.animalName, d.animalGender, d.animalBreed, d.lastSeenDate, d.userId,
      d.animalTypeKey, d.animalSizeKey)
  }

  /** The projection every read uses. It loses nothing: the report can be read back from it. */
  function ToReadDto(r: Report): (d: ReportReadDto)
    ensures FromReadDto(d) == r
  {
    ReportReadDto(r.reportId, r.reportTitle, r.reportType, r.reportDescription, r.reportDate,
      r.reportUpdateDate, r.reportImageUrl, r.reportStatus, r.reportAddress, r.reportCity,
      r.reportProvince, r.reportPostalCode, r.reportCountry, r.reportLatitude, r.reportLongitude,
      r.reportIsVerified, r.animalName, r.animalGender, r.animalBreed, r.lastSeenDate, r.userId,
      r.animalTypeKey, r.animalSizeKey)
  }

  /** The row a create request inserts under the store-generated key `id` at time `now`. */
  function NewReport(id: Uuid, dto: ReportCreateDto, now: DateTime): (r: Report)
    ensures r.reportId == id && !r.reportIsVerified
    ensures r.reportDate == now && r.reportUpdateDate == now
    ensures r.reportStatus ==
              if IsNullOrEmpty(dto.reportStatus) then DefaultReportStatus else dto.reportStatus.value
    ensures ValidReportStatus(r.reportStatus) <==>
              IsNullOrEmpty(dto.reportStatus) || ValidReportStatus(dto.reportStatus.value)
  {
    var r := Report(
      id, dto.reportTitle, dto.reportType, dto.reportDescription, now, now, dto.reportImageUrl,
      if IsNullOrEmpty(dto.reportStatus) then DefaultReportStatus else dto.reportStatus.value,
      dto.reportAddress, dto.reportCity, dto.reportProvince, dto.reportPostalCode,
      dto.reportCountry, dto.reportLatitude, dto.reportLongitude, false, dto.animalName,
      dto.animalGender, dto.animalBreed, dto.lastSeenDate, dto.userId, dto.animalTypeKey,
      dto.animalSizeKey);
    ValidReportStatusIff(DefaultReportStatus);
    r
  }

  /** The effect of an update request on the stored report: each supplied field overwrites,
      every other field stays, and the update date becomes `now`. */
  function MergeReport(r: Report, dto: ReportUpdateDto, now: DateTime): (m: Report)
    ensures m.reportId == r.reportId && m.reportDate == r.reportDate && m.userId == r.userId
    ensures m.reportUpdateDate == now
  {
    r.(
      reportTitle := Patch(r.reportTitle, dto.reportTitle),
      reportType := Patch(r.reportType, dto.reportType),
      reportDescription := Patch(r.reportDescription, dto.reportDescription),
      reportImageUrl := PatchNullable(r.reportImageUrl, dto.reportImageUrl),
      reportStatus := Patch(r.reportStatus, dto.reportStatus),
      reportAddress := PatchNullable(r.reportAddress, dto.reportAddress),
      reportCity := PatchNullable(r.reportCity, dto.reportCity),
      reportProvince := PatchNullable(r.reportProvince, dto.reportProvince),
      reportPostalCode := PatchNullable(r.reportPostalCode, dto.reportPostalCode),
      reportCountry := PatchNullable(r.reportCountry, dto.reportCountry),
      reportLatitude := PatchNullable(r.reportLatitude, dto.reportLatitude),
      reportLongitude := PatchNullable(r.reportLongitude, dto.reportLongitude),
      animalName := PatchNullable(r.animalName, dto.animalName),
      animalGender := PatchNullable(r.animalGender, dto.animalGender),
      animalBreed := PatchNullable(r.animalBreed, dto.animalBreed),
      lastSeenDate := PatchNullable(r.lastSeenDate, dto.lastSeenDate),
      animalTypeKey := PatchNullable(r.animalTypeKey, dto.animalTypeKey),
      animalSizeKey := PatchNullable(r.animalSizeKey, dto.animalSizeKey),
      reportIsVerified := Patch(r.reportIsVerified, dto.reportIsVerified),
      reportUpdateDate := now)
  }

  /** An update request that supplies nothing. */
  const NoReportChanges: ReportUpdateDto := ReportUpdateDto(
    None, None, None, None, None, None, None, None, None, None, None, None, None, None, None,
    None, None, None, None)

  /** An empty update still refreshes the update date, and changes nothing else. */
  lemma MergeReportNoChanges(r: Report, now: DateTime)
    ensures MergeReport(r, NoReportChanges, now) == r.(reportUpdateDate := now)
  {
  }

  /** Sending the same update twice has the effect of sending it once. */
  lemma MergeReportIdempotent(r: Report, dto: ReportUpdateDto, first: DateTime, second: DateTime)
    ensures MergeReport(MergeReport(r, dto, first), dto, second) == MergeReport(r, dto, second)
  {
  }

  /** The fields an update may supply are each valid for the table when supplied. */
  predicate ValidReportUpdate(dto: ReportUpdateDto) {
    && (dto.reportTitle.Some? ==> Required(dto.reportTitle.value) && |dto.reportTitle.value| <= 100)
    && (dto.reportType.Some? ==> ValidReportType(dto.reportType.value))
    && (dto.reportDescription.Some? ==> Required(dto.reportDescription.value))
    && (dto.reportStatus.Some? ==> ValidReportStatus(dto.reportStatus.value))
    && MaxLengthOpt(dto.reportCity, 100)
    && MaxLengthOpt(dto.reportProvince, 100)
    && MaxLengthOpt(dto.reportPostalCode, 15)
    && MaxLengthOpt(dto.reportCountry, 100)
    && MaxLengthOpt(dto.animalName, 75)
    && MaxLengthOpt(dto.animalGender, 20) && MatchesOneOfOpt(dto.animalGender, ReportAnimalGenders)
    && MaxLengthOpt(dto.animalBreed, 75)
  }

  /** An update whose supplied fields are valid keeps a valid report valid. The service itself
      checks nothing, so with an invalid field (an empty status, say) the stored report becomes
      invalid: see `UpdateMayInvalidate`. */
  lemma MergeReportKeepsValid(r: Report, dto: ReportUpdateDto, now: DateTime)
    requires ValidReport(r) && ValidReportUpdate(dto)
    ensures ValidReport(MergeReport(r, dto, now))
  {
  }

  /** An update supplying an empty status stores it, although a create request with an empty
      status would have stored the default. */
  lemma UpdateMayInvalidate(r: Report, now: DateTime)
    ensures MergeReport(r, NoReportChanges.(reportStatus := Some("")), now).reportStatus == ""
    ensures !ValidReport(MergeReport(r, NoReportChanges.(reportStatus := Some("")), now))
  {
  }


  class ReportService {
    /** The `reports` table, in table order. */
    var reports: seq<Report>

    ghost predicate Valid()
      reads this
    {
      Table.KeysUnique(reports, ReportKey)
    }

    constructor (initial: seq<Report>)
      requires Table.KeysUnique(initial, ReportKey)
      ensures Valid() && reports == initial
    {
      reports := initial;
    }

    /** `GetAllReportsAsync`: one read DTO per stored report, in table order. */
    function GetAllReports(): (all: seq<ReportReadDto>)
      reads this
      ensures |all| == |reports|
      ensures forall i :: 0 <= i < |reports| ==> FromReadDto(all[i]) == reports[i]
    {
      Table.MapRows(reports, ToReadDto)
    }

    /** `GetReportByIdAsync`: null exactly when no report has the id, otherwise a
        field-for-field copy of that report. */
    function GetReportById(reportId: Uuid): (found: Option<ReportReadDto>)
      reads this
      ensures found.None? <==> !Table.HasKey(reports, ReportKey, reportId)
      ensures found.Some? ==> FromReadDto(found.value) in reports && found.value.reportId == reportId
    {
      match Table.Find(reports, ReportKey, reportId)
      case None => None
      case Some(r) => Some(ToReadDto(r))
    }

    /** `CreateReportAsync`: appends the new report under the fresh key `newId` and returns
        its projection, which a read by that key then returns. */
    method CreateReport(dto: ReportCreateDto, newId: Uuid, now: DateTime) returns (created: ReportReadDto)
      requires Valid()
      requires !Table.HasKey(reports, ReportKey, newId)
      modifies this
      ensures Valid()
      ensures reports == old(reports) + [NewReport(newId, dto, now)]
      ensures created == ToReadDto(NewReport(newId, dto, now))
      ensures GetReportById(newId) == Some(created)
      ensures forall k :: k != newId ==> GetReportById(k) == old(GetReportById(k))
    {
      var report := NewReport(newId, dto, now);
      Table.AppendFresh(reports, ReportKey, report);
      reports := reports + [report];
      created := ToReadDto(report);
    }

    /** `UpdateReportAsync`: false, with nothing changed, when the id is absent; otherwise the
        report is overwritten field by field with what the DTO supplies, and its update date
        refreshed. */
    method UpdateReport(reportId: Uuid, dto: ReportUpdateDto, now: DateTime) returns (found: bool)
      requires Valid()
      modifies this
      ensures Valid()
      ensures found == Table.HasKey(old(reports), ReportKey, reportId)
      ensures !found ==> reports == old(reports)
      ensures found ==>
        var i := Table.IndexOf(old(reports), ReportKey, reportId).value;
        reports == old(reports)[i := MergeReport(old(reports)[i], dto, now)]
      ensures found ==>
        GetReportById(reportId) == Some(ToReadDto(MergeReport(old(Table.Find(reports, ReportKey, reportId)).value, dto, now)))
      ensures forall k :: k != reportId ==> GetReportById(k) == old(GetReportById(k))
    {
      var index := Table.IndexOf(reports, ReportKey, reportId);
      if index.None? {
        return false;
      }
      var i := index.value;
      var report := MergeReport(reports[i], dto, now);
      Table.ReplaceKeepingKey(reports, ReportKey, i, report);
      reports := reports[i := report];
      return true;
    }

    /** `DeleteReportAsync`: false, with nothing changed, when the id is absent; otherwise
        exactly that report is removed, a read by its id then finds nothing and every other
        report is untouched. */
    method DeleteReport(reportId: Uuid) returns (found: bool)
      requires Valid()
      modifies this
      ensures Valid()
      ensures found == Table.HasKey(old(reports), ReportKey, reportId)
      ensures !found ==> reports == old(reports)
      ensures found ==>
        var i := Table.IndexOf(old(reports), ReportKey, reportId).value;
        reports == old(reports)[..i] + old(reports)[i + 1..]
      ensures GetReportById(reportId).None?
      ensures forall k :: k != reportId ==> GetReportById(k) == old(GetReportById(k))
    {
      var index := Table.IndexOf(reports, ReportKey, reportId);
      if index.None? {
        return false;
      }
      var i := index.value;
      Table.RemoveAt(reports, ReportKey, i);
      reports := reports[..i] + reports[i + 1..];
      return true;
    }
  }
}
