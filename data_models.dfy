/** The records the repository and the view models pass around besides the entities. */
module DataModels {
  import opened Wrappers
  import opened Entities

  /** A test event with its stored results (a Room relation). */
  datatype BloodTestWithResults = BloodTestWithResults(bloodTest: BloodTest, results: seq<BloodTestResult>)

  /** A stored result joined with the catalog fields of its blood value. */
  datatype BloodTestResultWithValue = BloodTestResultWithValue(
    id: Long,
    testId: Long,
    bloodValueId: Long,
    value: real,
    status: ValueStatus,
    notes: string,
    nameDe: string,
    nameEn: string,
    abbreviation: string,
    unit: string,
    category: string,
    minMale: Option<real>,
    maxMale: Option<real>,
    minFemale: Option<real>,
    maxFemale: Option<real>,
    minNormal: Option<real>,
    maxNormal: Option<real>,
    criticalLow: Option<real>,
    criticalHigh: Option<real>)

  /** The catalog entries of one category. */
  datatype BloodValueCategory = BloodValueCategory(name: string, values: seq<BloodValue>)

  /** How serious a constellation finding is. */
  datatype AnalysisSeverity = Info | Warning | Critical

  /** A finding derived from several results of one test. */
  datatype ConstellationAnalysis = ConstellationAnalysis(
    title: string,
    description: string,
    severity: AnalysisSeverity,
    affectedValues: seq<string>,
    recommendations: seq<string>)

  /** The sex whose reference range applies. */
  datatype Gender = Male | Female | Other
}
