/**
 * The Ion data the consumer's reader walks, as an already-parsed tree.
 *
 * The consumer never looks at bytes itself: it drives an ion-go reader with
 * Next, Type, FieldName, StepIn, StepOut and the typed value getters. This
 * module records, for one Kinesis record, what that reader reports: the
 * sequence of top-level values it iterates, for every struct the fields it
 * iterates, whether each field name and each scalar value could be read, and
 * whether the reader ended in an error. Parsing itself is not modelled.
 */
module Ion {
  import opened Wrappers

  /** Go's `int64`, the result type of Reader.Int64Value and of MillisBehindLatest. */
  newtype Int64 = x: int | -0x8000_0000_0000_0000 <= x < 0x8000_0000_0000_0000

  /** A float64 read, kept as its IEEE 754 bit pattern: no arithmetic is done on it. */
  type FloatBits = bv64

  /** A timestamp read, kept as its text form: no calendar arithmetic is done on it. */
  type TimestampText = string

  /** The type tags the reader can report for a value it is positioned on. */
  datatype IonType =
    | NullType | BoolType | IntType | FloatType | DecimalType | TimestampType
    | SymbolType | StringType | ClobType | BlobType | ListType | SexpType | StructType

  /** The tags that the consumer's type switch has no case for. */
  datatype OtherType = Null | Decimal | Symbol | Clob | Blob | List | Sexp

  /** A field name as ion-go hands it out: a token whose text may be absent. */
  datatype SymbolToken = SymbolToken(text: Option<string>)

  /**
   * The outcome of Reader.FieldName(): an error, or a token pointer that may
   * itself be nil. The reader is deterministic, so asking again for the name of
   * the same field gives the same outcome.
   */
  datatype FieldName = NameUnreadable | NameRead(token: Option<SymbolToken>)

  /**
   * One value the reader is positioned on. A scalar carries the outcome of its
   * typed getter (None when the getter returned an error); a struct carries the
   * fields the reader would iterate after StepIn; any other type only its tag.
   */
  datatype Value =
    | Bool(boolRead: Option<bool>)
    | Int(intRead: Option<Int64>)
    | Float(floatRead: Option<FloatBits>)
    | String(stringRead: Option<string>)
    | Timestamp(timestampRead: Option<TimestampText>)
    | Struct(fields: seq<Field>)
    | Other(tag: OtherType)

  datatype Field = Field(name: FieldName, value: Value)

  /**
   * One Kinesis record as the consumer sees it. `values` are the top-level
   * values Reader.Next() iterates (it stops early at a parse error, and so do a
   * struct's `fields`); `readerFailed` is whether Reader.Err() is non-nil after
   * the walk; `unmarshals` is whether ion.Unmarshal of the record's bytes into
   * an ActionRecord succeeds, an oracle for code that is not part of this model.
   */
  datatype Record = Record(values: seq<Value>, readerFailed: bool, unmarshals: bool)

  /** A successfully read scalar, as a field line prints it. */
  datatype Scalar =
    | BoolScalar(b: bool)
    | IntScalar(i: Int64)
    | FloatScalar(f: FloatBits)
    | StringScalar(s: string)
    | TimestampScalar(t: TimestampText)

  function OtherTag(t: OtherType): (r: IonType)
    ensures r !in {BoolType, IntType, FloatType, StringType, TimestampType, StructType}
  {
    match t
    case Null => NullType
    case Decimal => DecimalType
    case Symbol => SymbolType
    case Clob => ClobType
    case Blob => BlobType
    case List => ListType
    case Sexp => SexpType
  }

  /** What Reader.Type() reports for a value. */
  function TypeOf(v: Value): IonType {
    match v
    case Bool(_) => BoolType
    case Int(_) => IntType
    case Float(_) => FloatType
    case String(_) => StringType
    case Timestamp(_) => TimestampType
    case Struct(_) => StructType
    case Other(t) => OtherTag(t)
  }

  function ScalarType(s: Scalar): IonType {
    match s
    case BoolScalar(_) => BoolType
    case IntScalar(_) => IntType
    case FloatScalar(_) => FloatType
    case StringScalar(_) => StringType
    case TimestampScalar(_) => TimestampType
  }

  /** The five types whose value the consumer reads and prints. */
  predicate IsScalar(v: Value) {
    v.Bool? || v.Int? || v.Float? || v.String? || v.Timestamp?
  }

  /** The scalar a value's typed getter returns, if it is a scalar and the read succeeds. */
  function ScalarRead(v: Value): (r: Option<Scalar>)
    ensures r.Some? ==> IsScalar(v) && ScalarType(r.value) == TypeOf(v)
  {
    match v
    case Bool(read) => if read.Some? then Some(BoolScalar(read.value)) else None
    case Int(read) => if read.Some? then Some(IntScalar(read.value)) else None
    case Float(read) => if read.Some? then Some(FloatScalar(read.value)) else None
    case String(read) => if read.Some? then Some(StringScalar(read.value)) else None
    case Timestamp(read) => if read.Some? then Some(TimestampScalar(read.value)) else None
    case Struct(_) => None
    case Other(_) => None
  }

  /** A non-nil token whose text is non-nil and exactly "payload". */
  predicate IsPayload(token: Option<SymbolToken>) {
    token.Some? && token.value.text.Some? && token.value.text.value == "payload"
  }
}
