/** A lost/found/abuse report (the `reports` table) and the constraints its data annotations
    place on it. */
module ReportModel {
  import opened Common

  datatype Report = Report(
    reportId: Uuid,
    reportTitle: string,
    reportType: string,
    reportDescription: string,
    reportDate: DateTime,
    reportUpdateDate: DateTime,
    reportImageUrl: Option<string>,
    reportStatus: string,
    reportAddress: Option<string>,
    reportCity: Option<string>,
    reportProvince: Option<string>,
    reportPostalCode: Option<string>,
    reportCountry: Option<string>,
    reportLatitude: Option<Coordinate>,
    reportLongitude: Option<Coordinate>,
    reportIsVerified: bool,
    animalName: Option<string>,
    animalGender: Option<string>,
    animalBreed: Option<string>,
    lastSeenDate: Option<DateTime>,
    userId: Option<Uuid>,
    animalTypeKey: Option<string>,
    animalSizeKey: Option<string>)

  /** The primary key. */
  function ReportKey(r: Report): Uuid {
    r.reportId
  }

  const ReportTypes: set<string> := {"lost", "found", "abuse", "other"}
  const ReportStatuses: set<string> := {"pending", "in_progress", "resolved", "closed"}
  const ReportAnimalGenders: set<string> := {"male", "female", "unknown"}

  /** The status a report gets when none is given. */
  const DefaultReportStatus: string := "pending"

  /** `ReportStatus`: required, at most 20 characters, one of the four statuses. */
  predicate ValidReportStatus(s: string) {
    Required(s) && |s| <= 20 && MatchesOneOfOpt(Some(s), ReportStatuses)
  }

  /** `ReportType`: required, at most 30 characters, one of the four types. */
  predicate ValidReportType(s: string) {
    Required(s) && |s| <= 30 && MatchesOneOfOpt(Some(s), ReportTypes)
  }

  /** Every data annotation of the `Report` class holds. */
  predicate ValidReport(r: Report) {
    && Required(r.reportTitle) && |r.reportTitle| <= 100
    && ValidReportType(r.reportType)
    && Required(r.reportDescription)
    && ValidReportStatus(r.reportStatus)
    && MaxLengthOpt(r.reportCity, 100)
    && MaxLengthOpt(r.reportProvince, 100)
    && MaxLengthOpt(r.reportPostalCode, 15)
    && MaxLengthOpt(r.reportCountry, 100)
    && MaxLengthOpt(r.animalName, 75)
    && MaxLengthOpt(r.animalGender, 20) && MatchesOneOfOpt(r.animalGender, ReportAnimalGenders)
    && MaxLengthOpt(r.animalBreed, 75)
  }

  /** The type and status of a valid report come from their fixed sets, its gender, when given,
      from the report's own gender set, and its title and postal code respect their bounds. */
  lemma ValidReportFields(r: Report)
    requires ValidReport(r)
    ensures r.reportType in ReportTypes
    ensures r.reportStatus in ReportStatuses
    ensures r.animalGender.Some? && r.animalGender.value != "" ==> r.animalGender.value in ReportAnimalGenders
    ensures 0 < |r.reportTitle| <= 100
    ensures r.reportPostalCode.Some? ==> |r.reportPostalCode.value| <= 15
  {
  }

  /** Taken together, the status attributes admit exactly the four statuses; in particular the
      default status is valid and the empty string is not. */
  lemma ValidReportStatusIff(s: string)
    ensures ValidReportStatus(s) <==> s in ReportStatuses
  {
    if s in ReportStatuses {
      assert !IsWhiteSpace(s[0]);
    }
  }

  /** Taken together, the type attributes admit exactly the four report types. */
  lemma ValidReportTypeIff(s: string)
    ensures ValidReportType(s) <==> s in ReportTypes
  {
    if s in ReportTypes {
      assert !IsWhiteSpace(s[0]);
    }
  }
}
