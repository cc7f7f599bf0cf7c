/**
 * The per-record field walk of the consumer: for every top-level struct of
 * the record, every field is dispatched on its type tag, one level deep.
 *
 * The specification functions below describe the lines one field, one struct,
 * one sequence of top-level values, one record and one batch print; the method
 * DecodeRecord is the walk itself, with the reader's two nested Next() loops.
 * Each sequence function peels off its LAST element, so that a loop that has
 * handled the first i elements has printed exactly F(s[..i]).
 */
module Decoder {
  import opened Wrappers
  import opened Ion
  import opened Lines

  /**
   * The type switch for one field of a top-level struct. A nested struct is
   * not stepped into; its name is read a second time, which gives the result
   * of the first read (so the error branches after the second read print
   * nothing new here), and a payload-named one makes the whole record be
   * unmarshalled, printing only a failure.
   */
  function FieldEvents(f: Field, unmarshals: bool): (r: seq<Event>)
    ensures |r| <= 1
  {
    match f.name
    case NameUnreadable => [NameError]
    case NameRead(token) =>
      match f.value
      case Bool(read) => if read.Some? then [FieldLine(token, BoolType, BoolScalar(read.value))] else []
      case Int(read) => if read.Some? then [FieldLine(token, IntType, IntScalar(read.value))] else []
      case Float(read) => if read.Some? then [FieldLine(token, FloatType, FloatScalar(read.value))] else []
      case String(read) => if read.Some? then [FieldLine(token, StringType, StringScalar(read.value))] else []
      case Timestamp(read) =>
        if read.Some? then [FieldLine(token, TimestampType, TimestampScalar(read.value))] else []
      case Struct(_) => if IsPayload(token) && !unmarshals then [UnmarshalError] else []
      case Other(t) => [UnknownLine(token, OtherTag(t))]
  }

  /** The lines of the fields of one top-level struct, in field order. */
  function StructEvents(fields: seq<Field>, unmarshals: bool): seq<Event> {
    if fields == [] then []
    else StructEvents(fields[..|fields| - 1], unmarshals) + FieldEvents(fields[|fields| - 1], unmarshals)
  }

  /** The lines of the top-level values of a record: only structs are stepped into. */
  function ValuesEvents(values: seq<Value>, unmarshals: bool): seq<Event> {
    if values == [] then []
    else
      var v := values[|values| - 1];
      ValuesEvents(values[..|values| - 1], unmarshals) + (if v.Struct? then StructEvents(v.fields, unmarshals) else [])
  }

  /** The lines of one record: its values' lines, then one reader error if the reader failed. */
  function RecordEvents(r: Record): seq<Event> {
    ValuesEvents(r.values, r.unmarshals) + (if r.readerFailed then [ReaderError] else [])
  }

  /** The lines of a batch: each record decoded on its own, in batch order. */
  function BatchEvents(records: seq<Record>): seq<Event> {
    if records == [] then []
    else BatchEvents(records[..|records| - 1]) + RecordEvents(records[|records| - 1])
  }

  /** The walk between StepIn and StepOut: the inner `for reader.Next()` loop over a struct's fields. */
  method WalkStruct(fields: seq<Field>, unmarshals: bool) returns (out: seq<Event>)
    ensures out == StructEvents(fields, unmarshals)
  {
    out := [];
    var j := 0;
    while j < |fields|
      invariant 0 <= j <= |fields|
      invariant out == StructEvents(fields[..j], unmarshals)
    {
      assert fields[..j + 1][..j] == fields[..j] && fields[..j + 1][j] == fields[j];
      out := out + FieldEvents(fields[j], unmarshals);
      j := j + 1;
    }
    assert fields[..j] == fields;
  }

  /** The reader walk over one record: the outer `for reader.Next()` loop, then the Err() check. */
  method DecodeRecord(r: Record) returns (out: seq<Event>)
    ensures out == RecordEvents(r)
  {
    out := [];
    var i := 0;
    while i < |r.values|
      invariant 0 <= i <= |r.values|
      invariant out == ValuesEvents(r.values[..i], r.unmarshals)
    {
      var v := r.values[i];
      assert r.values[..i + 1][..i] == r.values[..i] && r.values[..i + 1][i] == v;
      if v.Struct? {
        var lines := WalkStruct(v.fields, r.unmarshals);
        out := out + lines;
      }
      i := i + 1;
    }
    assert r.values[..i] == r.values;
    if r.readerFailed {
      out := out + [ReaderError];
    }
  }

  /** The `for _, record := range recordsOutput.Records` loop: every record in turn. */
  method DecodeBatch(records: seq<Record>) returns (out: seq<Event>)
    ensures out == BatchEvents(records)
  {
    out := [];
    for n := 0 to |records|
      invariant out == BatchEvents(records[..n])
    {
      assert records[..n + 1][..n] == records[..n] && records[..n + 1][n] == records[n];
      var lines := DecodeRecord(records[n]);
      out := out + lines;
    }
    assert records[..|records|] == records;
  }

  // ---------------------------------------------------------------------------
  // Order and independence: each element contributes its own lines, in place.

  /** Element i of a sequence between the elements before and after it. */
  lemma SplitAt<T>(s: seq<T>, i: nat)
    requires i < |s|
    ensures s == s[..i] + [s[i]] + s[i + 1..]
  {
  }

  /** Stated once so that the proofs below need not rediscover it element by element. */
  lemma ConcatAssociative<T>(x: seq<T>, y: seq<T>, z: seq<T>)
    ensures (x + y) + z == x + (y + z)
  {
  }

  lemma {:induction false} StructEventsAppend(a: seq<Field>, b: seq<Field>, unmarshals: bool)
    ensures StructEvents(a + b, unmarshals) == StructEvents(a, unmarshals) + StructEvents(b, unmarshals)
    decreases |b|
  {
    if b == [] {
      assert a + b == a;
    } else {
      var ab, init, last := a + b, b[..|b| - 1], b[|b| - 1];
      assert ab[..|ab| - 1] == a + init && ab[|ab| - 1] == last;
      assert StructEvents(ab, unmarshals) == StructEvents(a + init, unmarshals) + FieldEvents(last, unmarshals);
      StructEventsAppend(a, init, unmarshals);
      ConcatAssociative(StructEvents(a, unmarshals), StructEvents(init, unmarshals), FieldEvents(last, unmarshals));
    }
  }

  /** Field i prints its own lines between those of the fields before and after it. */
  lemma StructEventsSplit(fields: seq<Field>, i: nat, unmarshals: bool)
    requires i < |fields|
    ensures StructEvents(fields, unmarshals)
         == StructEvents(fields[..i], unmarshals) + FieldEvents(fields[i], unmarshals) + StructEvents(fields[i + 1..], unmarshals)
  {
    var before, here, after := fields[..i], [fields[i]], fields[i + 1..];
    SplitAt(fields, i);
    assert here[..0] == [];
    StructEventsAppend(before + here, after, unmarshals);
    StructEventsAppend(before, here, unmarshals);
  }

  lemma {:induction false} ValuesEventsAppend(a: seq<Value>, b: seq<Value>, unmarshals: bool)
    ensures ValuesEvents(a + b, unmarshals) == ValuesEvents(a, unmarshals) + ValuesEvents(b, unmarshals)
    decreases |b|
  {
    if b == [] {
      assert a + b == a;
    } else {
      var ab, init, last := a + b, b[..|b| - 1], b[|b| - 1];
      assert ab[..|ab| - 1] == a + init && ab[|ab| - 1] == last;
      assert ValuesEvents(ab, unmarshals) == ValuesEvents(a + init, unmarshals) + (if last.Struct? then StructEvents(last.fields, unmarshals) else []);
      ValuesEventsAppend(a, init, unmarshals);
      ConcatAssociative(ValuesEvents(a, unmarshals), ValuesEvents(init, unmarshals), (if last.Struct? then StructEvents(last.fields, unmarshals) else []));
    }
  }

  /**
   * Every top-level value is visited in order: value i prints the lines of its
   * fields if it is a struct and nothing otherwise, between the lines of the
   * values before and after it.
   */
  lemma TopLevelValuesInOrder(values: seq<Value>, i: nat, unmarshals: bool)
    requires i < |values|
    ensures ValuesEvents(values, unmarshals)
         == ValuesEvents(values[..i], unmarshals)
          + (if values[i].Struct? then StructEvents(values[i].fields, unmarshals) else [])
          + ValuesEvents(values[i + 1..], unmarshals)
  {
    var before, here, after := values[..i], [values[i]], values[i + 1..];
    SplitAt(values, i);
    assert here[..0] == [];
    ValuesEventsAppend(before + here, after, unmarshals);
    ValuesEventsAppend(before, here, unmarshals);
  }

  lemma {:induction false} BatchEventsAppend(a: seq<Record>, b: seq<Record>)
    ensures BatchEvents(a + b) == BatchEvents(a) + BatchEvents(b)
    decreases |b|
  {
    if b == [] {
      assert a + b == a;
    } else {
      var ab, init, last := a + b, b[..|b| - 1], b[|b| - 1];
      assert ab[..|ab| - 1] == a + init && ab[|ab| - 1] == last;
      assert BatchEvents(ab) == BatchEvents(a + init) + RecordEvents(last);
      BatchEventsAppend(a, init);
      ConcatAssociative(BatchEvents(a), BatchEvents(init), RecordEvents(last));
    }
  }

  /** Records are decoded in batch order and independently of each other. */
  lemma BatchInOrder(records: seq<Record>, i: nat)
    requires i < |records|
    ensures BatchEvents(records) == BatchEvents(records[..i]) + RecordEvents(records[i]) + BatchEvents(records[i + 1..])
  {
    var before, here, after := records[..i], [records[i]], records[i + 1..];
    SplitAt(records, i);
    assert here[..0] == [];
    BatchEventsAppend(before + here, after);
    BatchEventsAppend(before, here);
  }

  // ---------------------------------------------------------------------------
  // The type switch, one case at a time, inside the walk of its struct.

  /** An unreadable name prints one name error and nothing else, and the walk goes on. */
  lemma NameFailureIsolated(fields: seq<Field>, i: nat, unmarshals: bool)
    requires i < |fields| && fields[i].name.NameUnreadable?
    ensures StructEvents(fields, unmarshals)
         == StructEvents(fields[..i], unmarshals) + [NameError] + StructEvents(fields[i + 1..], unmarshals)
  {
    StructEventsSplit(fields, i, unmarshals);
  }

  /**
   * A readable Bool, Int, Float, String or Timestamp field prints one field
   * line with its name, tag and value when its value can be read, and nothing
   * at all (no error line either) when it cannot.
   */
  lemma ScalarFieldLine(fields: seq<Field>, i: nat, unmarshals: bool)
    requires i < |fields| && fields[i].name.NameRead? && IsScalar(fields[i].value)
    ensures var read := ScalarRead(fields[i].value);
      StructEvents(fields, unmarshals)
      == StructEvents(fields[..i], unmarshals)
       + (if read.Some? then [FieldLine(fields[i].name.token, TypeOf(fields[i].value), read.value)] else [])
       + StructEvents(fields[i + 1..], unmarshals)
  {
    StructEventsSplit(fields, i, unmarshals);
  }

  /**
   * A readable nested struct is not stepped into and prints no field line:
   * only a payload-named one whose record does not unmarshal prints one error
   * line, and the fields after it are still walked. Its own fields make no
   * difference to what is printed.
   */
  lemma NestedStructNotEntered(fields: seq<Field>, i: nat, unmarshals: bool, inner: seq<Field>)
    requires i < |fields| && fields[i].name.NameRead? && fields[i].value.Struct?
    ensures StructEvents(fields, unmarshals)
         == StructEvents(fields[..i], unmarshals)
          + (if IsPayload(fields[i].name.token) && !unmarshals then [UnmarshalError] else [])
          + StructEvents(fields[i + 1..], unmarshals)
    ensures StructEvents(fields[i := Field(fields[i].name, Struct(inner))], unmarshals) == StructEvents(fields, unmarshals)
  {
    var changed := fields[i := Field(fields[i].name, Struct(inner))];
    StructEventsSplit(fields, i, unmarshals);
    StructEventsSplit(changed, i, unmarshals);
    assert changed[..i] == fields[..i];
    assert changed[i + 1..] == fields[i + 1..];
  }

  /** A readable field of any other type prints one "Unknown Type" line with its name and tag. */
  lemma UnknownTypeLine(fields: seq<Field>, i: nat, unmarshals: bool)
    requires i < |fields| && fields[i].name.NameRead? && fields[i].value.Other?
    ensures StructEvents(fields, unmarshals)
         == StructEvents(fields[..i], unmarshals)
          + [UnknownLine(fields[i].name.token, OtherTag(fields[i].value.tag))]
          + StructEvents(fields[i + 1..], unmarshals)
  {
    StructEventsSplit(fields, i, unmarshals);
  }

  // ---------------------------------------------------------------------------
  // Which fields print, and how many lines a struct prints.

  /** The field lines among some lines, in order. */
  function FieldLines(es: seq<Event>): seq<Event> {
    if es == [] then []
    else FieldLines(es[..|es| - 1]) + (if es[|es| - 1].FieldLine? then [es[|es| - 1]] else [])
  }

  /** The field line one field should print: its name, its value's own type tag and the value read. */
  function ExpectedFieldLine(f: Field): seq<Event> {
    var read := ScalarRead(f.value);
    if f.name.NameRead? && read.Some? then [FieldLine(f.name.token, TypeOf(f.value), read.value)] else []
  }

  /**
   * Reference description of the field lines of a struct: one per field whose
   * name is readable and whose scalar value is read, in field order.
   */
  function ExpectedFieldLines(fields: seq<Field>): seq<Event> {
    if fields == [] then []
    else ExpectedFieldLines(fields[..|fields| - 1]) + ExpectedFieldLine(fields[|fields| - 1])
  }

  /** The number of fields whose name cannot be read. */
  function UnreadableNames(fields: seq<Field>): nat {
    if fields == [] then 0
    else UnreadableNames(fields[..|fields| - 1]) + (if fields[|fields| - 1].name.NameUnreadable? then 1 else 0)
  }

  lemma {:induction false} FieldLinesAppend(a: seq<Event>, b: seq<Event>)
    ensures FieldLines(a + b) == FieldLines(a) + FieldLines(b)
    decreases |b|
  {
    if b == [] {
      assert a + b == a;
    } else {
      var ab, init, last := a + b, b[..|b| - 1], b[|b| - 1];
      assert ab[..|ab| - 1] == a + init && ab[|ab| - 1] == last;
      assert FieldLines(ab) == FieldLines(a + init) + (if last.FieldLine? then [last] else []);
      FieldLinesAppend(a, init);
      ConcatAssociative(FieldLines(a), FieldLines(init), (if last.FieldLine? then [last] else []));
    }
  }

  lemma FieldLinesOfField(f: Field, unmarshals: bool)
    ensures FieldLines(FieldEvents(f, unmarshals)) == ExpectedFieldLine(f)
  {
  }

  /**
   * The field lines a struct prints are exactly the readable scalar fields,
   * each with its own name and type tag, in encoded field order.
   */
  lemma {:induction false} FieldLinesInOrder(fields: seq<Field>, unmarshals: bool)
    ensures FieldLines(StructEvents(fields, unmarshals)) == ExpectedFieldLines(fields)
  {
    if fields != [] {
      var init, f := fields[..|fields| - 1], fields[|fields| - 1];
      FieldLinesInOrder(init, unmarshals);
      FieldLinesAppend(StructEvents(init, unmarshals), FieldEvents(f, unmarshals));
      FieldLinesOfField(f, unmarshals);
    }
  }

  /**
   * A struct prints at most one line per field, and exactly one name error
   * per field whose name cannot be read.
   */
  lemma {:induction false} FieldWalkCounts(fields: seq<Field>, unmarshals: bool)
    ensures |StructEvents(fields, unmarshals)| <= |fields|
    ensures multiset(StructEvents(fields, unmarshals))[NameError] == UnreadableNames(fields)
  {
    if fields != [] {
      var f := fields[|fields| - 1];
      FieldWalkCounts(fields[..|fields| - 1], unmarshals);
      NameErrorOfField(f, unmarshals);
    }
  }

  lemma NameErrorOfField(f: Field, unmarshals: bool)
    ensures multiset(FieldEvents(f, unmarshals))[NameError] == (if f.name.NameUnreadable? then 1 else 0)
  {
  }

  // ---------------------------------------------------------------------------
  // Reader errors.

  lemma {:induction false} StructPrintsFieldWalkLines(fields: seq<Field>, unmarshals: bool)
    ensures forall e <- StructEvents(fields, unmarshals) :: IsFieldWalkLine(e)
  {
    if fields != [] {
      StructPrintsFieldWalkLines(fields[..|fields| - 1], unmarshals);
    }
  }

  /** The walk over the top-level values prints only field-walk lines. */
  lemma {:induction false} ValuesPrintFieldWalkLines(values: seq<Value>, unmarshals: bool)
    ensures forall e <- ValuesEvents(values, unmarshals) :: IsFieldWalkLine(e)
  {
    if values != [] {
      ValuesPrintFieldWalkLines(values[..|values| - 1], unmarshals);
      var v := values[|values| - 1];
      if v.Struct? {
        StructPrintsFieldWalkLines(v.fields, unmarshals);
      }
    }
  }

  /**
   * A record prints a reader error if and only if its reader failed, then
   * exactly once and as its last line, after the lines of all its values.
   */
  lemma ReaderErrorLast(r: Record)
    ensures ReaderError in RecordEvents(r) <==> r.readerFailed
    ensures multiset(RecordEvents(r))[ReaderError] == (if r.readerFailed then 1 else 0)
    ensures r.readerFailed ==>
      var es := RecordEvents(r);
      es[|es| - 1] == ReaderError && es[..|es| - 1] == ValuesEvents(r.values, r.unmarshals)
  {
    ValuesPrintFieldWalkLines(r.values, r.unmarshals);
    var es := ValuesEvents(r.values, r.unmarshals);
    assert ReaderError !in es;
    assert multiset(es)[ReaderError] == 0;
  }

  /** The number of records in a batch whose reader fails. */
  function FailedReaders(records: seq<Record>): nat {
    if records == [] then 0
    else FailedReaders(records[..|records| - 1]) + (if records[|records| - 1].readerFailed then 1 else 0)
  }

  /**
   * A batch prints one reader error per record whose reader failed, and a
   * failing record does not stop the records after it (see BatchInOrder).
   */
  lemma {:induction false} ReaderErrorsPerRecord(records: seq<Record>)
    ensures multiset(BatchEvents(records))[ReaderError] == FailedReaders(records)
  {
    if records != [] {
      ReaderErrorsPerRecord(records[..|records| - 1]);
      ReaderErrorLast(records[|records| - 1]);
    }
  }

  /** Decoding a batch prints neither a wait nor the exhausted-iterator line. */
  lemma {:induction false} BatchPrintsNoLoopLines(records: seq<Record>)
    ensures forall e <- BatchEvents(records) :: e != Wait && e != ExhaustedLine
  {
    if records != [] {
      var r := records[|records| - 1];
      BatchPrintsNoLoopLines(records[..|records| - 1]);
      ValuesPrintFieldWalkLines(r.values, r.unmarshals);
    }
  }
}
