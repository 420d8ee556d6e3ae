/** The exception classes of the pipeline, as one tagged value. */
module Errors {

  /**
   * InvalidDataException, its subclass MalformedXmlException, and any other
   * exception. The two data errors carry the offending payload.
   */
  datatype Err =
    | InvalidData(message: string, payload: string)
    | MalformedXml(message: string, payload: string)
    | Other(message: string)
  {
    /** `instanceof InvalidDataException`: MalformedXml extends InvalidData. */
    predicate IsInvalidData() {
      InvalidData? || MalformedXml?
    }
  }
}
