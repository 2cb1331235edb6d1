/**
 * The three Room entities: a catalog entry (`BloodValue`), a test event (`BloodTest`) and
 * one stored measurement (`BloodTestResult`) with its classified status.
 */
module Entities {
  import opened Wrappers

  /** Kotlin `Long`: a 64-bit two's-complement integer. */
  newtype Long = x: int | -0x8000_0000_0000_0000 <= x < 0x8000_0000_0000_0000

  /** Kotlin `Int`: a 32-bit two's-complement integer. */
  newtype Int32 = x: int | -0x8000_0000 <= x < 0x8000_0000

  /** `java.util.Date`: a number of milliseconds since the epoch. */
  datatype Date = Date(time: Long)

  /** The classification of one measurement against its reference range. */
  datatype ValueStatus = Normal | High | Low | CriticalHigh | CriticalLow

  /**
   * A catalog entry. The `Double?` range fields are optional reals: a sex-specific normal
   * range, a sex-independent one, and critical thresholds.
   */
  datatype BloodValue = BloodValue(
    id: Long,
    nameDe: string,
    nameEn: string,
    abbreviation: string,
    unit: string,
    category: string,
    descriptionDe: string,
    descriptionEn: string,
    minMale: Option<real>,
    maxMale: Option<real>,
    minFemale: Option<real>,
    maxFemale: Option<real>,
    minNormal: Option<real>,
    maxNormal: Option<real>,
    criticalLow: Option<real>,
    criticalHigh: Option<real>,
    highMeaningDe: string,
    highMeaningEn: string,
    lowMeaningDe: string,
    lowMeaningEn: string,
    sortOrder: Int32)

  /** A test event. `id` 0 asks the store to generate one. */
  datatype BloodTest = BloodTest(
    id: Long,
    testDate: Date,
    labName: string,
    doctorName: string,
    notes: string,
    createdAt: Date)

  /**
   * One measurement of one test. The store keeps at most one per (`testId`, `bloodValueId`)
   * pair (a unique index).
   */
  datatype BloodTestResult = BloodTestResult(
    id: Long,
    testId: Long,
    bloodValueId: Long,
    value: real,
    status: ValueStatus,
    notes: string)
}
