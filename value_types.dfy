/** The .NET value types carried by an employee record, with their ranges. */
module ValueTypes {

  /** `int` (System.Int32). */
  newtype Int32 = x: int | -0x8000_0000 <= x < 0x8000_0000

  /** `short` (System.Int16). */
  newtype Int16 = x: int | -0x8000 <= x < 0x8000

  /** `DateOnly`, by its day number. */
  datatype DateOnly = DateOnly(dayNumber: int)

  /** `DateTime`, by its tick count (one tick is 100 ns). */
  datatype DateTime = DateTime(ticks: int)

  const TicksPerMinute: int := 600_000_000

  /** `DateTime.AddMinutes` for a whole number of minutes. */
  function AddMinutes(t: DateTime, minutes: int): DateTime {
    DateTime(t.ticks + minutes * TicksPerMinute)
  }

  /** `Guid`, as its 128 bits. */
  datatype Guid = Guid(bits: bv128)
}
