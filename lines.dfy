/**
 * The lines the consumer prints, as tagged events. Formatting is not
 * modelled; each event keeps what its line shows apart from the literal text.
 */
module Lines {
  import opened Wrappers
  import opened Ion

  datatype Event =
    /** "Field: <name>, <Type> Value: <value>" for a scalar that was read. */
    | FieldLine(name: Option<SymbolToken>, tag: IonType, value: Scalar)
    /** "Error reading field name: ..." */
    | NameError
    /** "Error: ..." after ion.Unmarshal of a record failed. */
    | UnmarshalError
    /** "Field: <name>, Unknown Type: <tag>" */
    | UnknownLine(name: Option<SymbolToken>, tag: IonType)
    /** "Error reading Ion data: ..." once the reader reports an error. */
    | ReaderError
    /** "GetRecords ERROR: ..." logged when an empty batch brings no new iterator. */
    | ExhaustedLine
    /** A one-second sleep after an empty batch. */
    | Wait

  /** The lines the per-record field walk can print. */
  predicate IsFieldWalkLine(e: Event) {
    e.FieldLine? || e.NameError? || e.UnmarshalError? || e.UnknownLine?
  }
}
