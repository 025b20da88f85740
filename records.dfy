/**
 * The data a day file holds once decoded: a JSON object from user name to
 * that user's record, each record itself a JSON object of fields.
 */
module Records {
  import opened Dicts

  /**
   * A JSON field value. `Null` is JSON `null` (Python `None`); `Int` and
   * `Str` are the kinds the core inspects or creates; `Opaque` stands for
   * every other value (floats, booleans, lists, nested objects), which the
   * core only carries along.
   */
  datatype Value = Null | Int(n: int) | Str(s: string) | Opaque(tag: nat)

  /** One participant's fields for one day (`username`, `rank`, `power`, `extra`, ...). */
  type Record = Dict<Value>

  /** One day's records, keyed by user name. */
  type DayData = Dict<Record>
}
