/** The bare string parameter: a string inserted into a query without quotes, for literals
    such as intervals. */
module Bare {
  import opened Wrappers
  import opened Values

  /** BareStringValue{Bare}: marked as a bare value, and a driver.Valuer of its string. */
  datatype BareStringValue = BareStringValue(Bare: string) {

    /** Value: the Bare field as a string driver value; it never fails. */
    function Value(): Result<string, Error> {
      Ok(Bare)
    }
  }
}
