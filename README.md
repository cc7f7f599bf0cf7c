# Kinesis shard consumer: field walk and poll loop

This project models the consumer program of a Kinesis sandbox (`consumer/consumer.go`).
The program reads one shard of a Kinesis stream from its oldest record. It prints the
fields of each Ion-encoded record and stops when the shard yields no new iterator or
when the service reports that it has caught up. Two pieces of its `main` are modelled.
Both are imperative, as in the Go code, and each loop is proved equal to a
specification function whose properties are proved as lemmas.

- **The record field walk** (module `Decoder`, lines 82-158). An ion-go reader steps
  through the top-level values of one record. It steps into each top-level struct and
  dispatches every field on its type tag. The method `DecodeRecord` has the outer
  `Next()` loop and the final `Err()` check. `WalkStruct` is the loop between `StepIn`
  and `StepOut`. `DecodeBatch` is the loop over the records of one response.
  `FieldEvents` is the type switch.
- **The poll loop** (module `PollLoop`, lines 57-174). It calls `GetShardIterator`
  once, then `GetRecords` repeatedly. It decodes each non-empty batch, applies the
  "no new iterator" stop only to an empty batch, stops on zero lag, replaces the
  iterator, and sleeps after an empty batch. `Consume` is that loop.

The reader is modelled as an already-parsed tree (module `Ion`). A record is the
sequence of top-level values that `Next()` iterates. A struct is the sequence of fields
it iterates. A field name is either unreadable or a possibly-nil token with
possibly-nil text. A scalar carries the outcome of its typed getter. Every other tag
is `Other(tag)`. A record also says whether `Err()` is non-nil at the end, and whether
`ion.Unmarshal` of its bytes succeeds. A parse error mid-record is modelled by cutting
the sequences at the point where the reader stopped. Printed lines are tagged events
(module `Lines`). Each `GetRecords` call is recorded as an `Iteration`: the iterator
the call was passed, and the lines printed before the next call.

Modelling decisions:
- Shard iterators are `*string`, and line 159 compares the pointers. A `Token` is
  therefore the identity of a pointer, not the text of the iterator.
- The `err != nil` disjunct of line 159 is always false there, because line 77 has
  already aborted on an error. The model leaves it out.
- The reader is deterministic. So the second `FieldName()` read of a nested-struct
  field or an other-type field (lines 124 and 138) repeats the first read, which
  succeeded. The error branches at lines 125-128 and 139-142 therefore print nothing
  in the model.
- The `if` at lines 143-145 has an empty body and changes nothing.
- The real loop ends only when the service makes it end. The model is given a finite
  sequence of responses. When the responses run out first, the outcome is
  `Pending(cursor)`, naming the iterator that the next call would use.

The code and a design description of this consumer disagree in several places; the
model follows the code.
- The description says a nested struct is walked recursively. The code never steps
  into a nested struct.
- The description says a field named `payload` yields a typed `ActionRecord`. The code
  unmarshals the whole record, discards the result, and prints only a failure.
- The description applies the "no next iterator or same iterator" stop to every
  response. The code applies it only when the batch is empty.
- The description calls the same-iterator test byte equality. The code compares
  pointers.

## Model

| member | source | states |
|---|---|---|
| `Ion.OtherTag` | consumer/consumer.go:137-147 | a tag that falls to the default case is none of the six tags the switch handles |
| `Ion.ScalarRead` | consumer/consumer.go:97-122 | a successful scalar read belongs to one of the five scalar types and carries the value's own type tag |
| `Decoder.FieldEvents` | consumer/consumer.go:91-148 | one field of a top-level struct prints at most one line |
| `Decoder.WalkStruct` | consumer/consumer.go:88-151 | the loop over a struct's fields prints exactly the struct's specified lines, field by field |
| `Decoder.DecodeRecord` | consumer/consumer.go:83-157 | the reader walk over one record prints exactly the record's specified lines |
| `Decoder.DecodeBatch` | consumer/consumer.go:82-158 | the loop over a batch prints exactly the batch's specified lines |
| `Decoder.StructEventsAppend` | consumer/consumer.go:90-149 | the lines of two runs of fields are the first run's lines followed by the second's |
| `Decoder.StructEventsSplit` | consumer/consumer.go:90-149 | field i prints its own lines after those of every earlier field and before those of every later field |
| `Decoder.ValuesEventsAppend` | consumer/consumer.go:86-153 | the lines of two runs of top-level values are the first run's lines followed by the second's |
| `Decoder.TopLevelValuesInOrder` | consumer/consumer.go:86-153 | every top-level value is visited in order; a struct prints its fields' lines and any other value prints nothing |
| `Decoder.BatchEventsAppend` | consumer/consumer.go:82-158 | the lines of two runs of records are the first run's lines followed by the second's |
| `Decoder.BatchInOrder` | consumer/consumer.go:82-158 | each record prints its own lines, independent of the other records, in batch order |
| `Decoder.NameFailureIsolated` | consumer/consumer.go:91-95 | a field whose name cannot be read prints exactly one name-error line and no field line, and the walk goes on with the next field |
| `Decoder.ScalarFieldLine` | consumer/consumer.go:97-122 | a readable Bool, Int, Float, String or Timestamp field prints one field line with its name, tag and value when the value reads, and nothing at all when it does not |
| `Decoder.NestedStructNotEntered` | consumer/consumer.go:123-136 | a nested struct prints no field line and its contents make no difference; only a payload-named one in a record that fails to unmarshal prints one error line, and later fields are still walked |
| `Decoder.UnknownTypeLine` | consumer/consumer.go:137-147 | a readable field of any other type prints exactly one "Unknown Type" line with its name and tag |
| `Decoder.FieldLinesAppend` | consumer/consumer.go:97-122 | picking out the field lines commutes with putting line sequences one after the other |
| `Decoder.FieldLinesInOrder` | consumer/consumer.go:97-122 | the field lines of a struct are exactly its readable scalar fields, with their names and type tags, in encoded field order |
| `Decoder.FieldWalkCounts` | consumer/consumer.go:90-149 | a struct prints at most one line per field, and exactly one name error per field with an unreadable name |
| `Decoder.StructPrintsFieldWalkLines` | consumer/consumer.go:90-149 | a struct's walk prints only field, name-error, unmarshal-error and unknown-type lines |
| `Decoder.ValuesPrintFieldWalkLines` | consumer/consumer.go:86-153 | the walk over the top-level values prints only field-walk lines |
| `Decoder.ReaderErrorLast` | consumer/consumer.go:155-157 | a record prints a reader-error line if and only if its reader failed; it then prints exactly one, as its last line, after all its values' lines |
| `Decoder.ReaderErrorsPerRecord` | consumer/consumer.go:82-157 | a batch prints exactly one reader-error line per record whose reader failed |
| `Decoder.BatchPrintsNoLoopLines` | consumer/consumer.go:81-158 | decoding a batch never prints a wait or the exhausted-iterator line |
| `PollLoop.Consume` | consumer/consumer.go:57-174 | the loop's calls and printed lines are exactly the specified trace; a failed GetShardIterator is fatal before any GetRecords call; there is at most one call per response |
| `PollLoop.CursorChain` | consumer/consumer.go:68-174 | the first GetRecords call uses the initial iterator and every later one the previous response's next iterator; there is at most one call per response; when the responses run out, all were answered and the pending iterator is the last one returned |
| `PollLoop.ContinuingIterations` | consumer/consumer.go:70-174 | every call but the last, and every call when the responses ran out, got a response that neither failed, stalled nor reported zero lag, and printed its batch's lines followed by a wait exactly when the batch was empty |
| `PollLoop.StopsAtLastIteration` | consumer/consumer.go:76-166 | a stopped loop stops at its last call: a GetRecords failure is fatal and prints nothing; otherwise an empty batch with a nil or identical next iterator prints the exhausted line; otherwise zero lag stops after the batch's lines; each outcome occurs if and only if its condition holds |
| `PollLoop.StalledBatchStops` | consumer/consumer.go:159-162 | an empty batch whose next iterator is nil or the very pointer just used ends the loop at that call, printing only the exhausted line |
| `PollLoop.NonEmptyBatchDecoded` | consumer/consumer.go:81-166 | a non-empty batch is always decoded in full and never ends the loop at the line-159 check; it prints no wait |
| `PollLoop.ZeroLagStops` | consumer/consumer.go:164-166 | a present zero lag stops the loop at that call, after the batch has been decoded, and without a wait even for an empty batch |
| `PollLoop.WaitIffEmptyBatch` | consumer/consumer.go:170-173 | a call after which the loop goes on is followed by exactly one wait if its batch was empty, and by none otherwise |

## Left out

- Loading `.env` and building the AWS session and credentials (lines 29-53): configuration with no logic.
- The `GetShardIterator` and `GetRecords` network calls, and the constants in their requests (shard id, `TRIM_HORIZON`, stream name, the limit of 1000 records). Their responses are inputs to the model.
- Ion parsing inside `ion.NewReader`, `Next`, `StepIn` and `StepOut`: library code. The reader is modelled by the tree it walks.
- How `ion.Unmarshal` maps fields into `ActionRecord` (lines 18-27, 132): foreign code. It is modelled as one success-or-failure oracle per record.
- The values of floats and timestamps. They are kept as opaque bit patterns and text.
- Exact `Printf` and `log` formats, and the `%v` rendering of a symbol token. Lines are tagged events.
- The one-second duration of `time.Sleep`. It is a `Wait` event.
- The process exit of `log.Fatalf`. It is a terminal outcome (`StartFatal`, `GetRecordsFatal`).
- Running forever. The loop is bounded by the supplied responses, and stops as `Pending` when they run out.
