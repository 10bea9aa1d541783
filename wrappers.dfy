/** Value wrappers shared by the whole model: Python's None, and the
    exceptions that escape from the captioning code. */
module Wrappers {

  datatype Option<+T> = None | Some(value: T)

  /** The Python exceptions this model lets escape from the captioning code.
      Three that the code can also raise are outside the model: OverflowError
      from int() of an infinite float, TypeError from Image.fromarray, and
      PIL's ValueError for a fill colour it cannot read. */
  datatype Exception =
    | ValueError   // float() of a malformed numeral
    | IndexError   // indexing past the end of a list
    | OSError      // Image.open of a path that is missing or not an image

  /** Either a value, or the exception a Python call raised instead. */
  datatype Result<+T> = Ok(value: T) | Raised(exc: Exception)
}
