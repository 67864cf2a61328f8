/** The `bmi_records` table and its payloads. */
module BmiSchema {
  import opened Common
  import opened UserModel

  /**
   * The measured and client-computed fields of a BMI record, all required.
   * `bmi` and `bmiCategory` are plain stored values: nothing derives them.
   */
  datatype BmiRecordBase = BmiRecordBase(height: real, weight: real, bmi: real, bmiCategory: string, mode: ModeType)

  /** The create payload: the base fields plus the owner's id. */
  datatype BmiRecordCreate = BmiRecordCreate(userId: int, height: real, weight: real, bmi: real, bmiCategory: string, mode: ModeType)

  /** The payload as parsed from a request body whose `mode` may be left out. */
  function ParseBmiRecordCreate(userId: int, height: real, weight: real, bmi: real, bmiCategory: string, mode: Option<ModeType>)
    : (c: BmiRecordCreate)
    ensures c.userId == userId && c.height == height && c.weight == weight
    ensures c.bmi == bmi && c.bmiCategory == bmiCategory
    ensures c.mode == if mode.Some? then mode.value else Swasthya
  {
    BmiRecordCreate(userId, height, weight, bmi, bmiCategory, ModeOrDefault(mode))
  }

  /** The base fields of a create payload, copied verbatim. */
  function BaseOf(c: BmiRecordCreate): (b: BmiRecordBase)
    ensures b.height == c.height && b.weight == c.weight && b.bmi == c.bmi
    ensures b.bmiCategory == c.bmiCategory && b.mode == c.mode
  {
    BmiRecordBase(c.height, c.weight, c.bmi, c.bmiCategory, c.mode)
  }
}
