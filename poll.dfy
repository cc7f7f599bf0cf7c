/**
 * The shard-iterator poll loop of the consumer.
 *
 * GetShardIterator and GetRecords are not called: their responses are given
 * as inputs, the first as a StartResult and the others as the sequence of
 * PollResults the service would answer, one per GetRecords call. The loop
 * stops when the program breaks out of `for {}` or calls log.Fatalf, and
 * otherwise when the supplied responses run out (the outcome Pending, naming
 * the iterator the next call would use).
 */
module PollLoop {
  import opened Wrappers
  import opened Ion
  import opened Lines
  import opened Decoder

  /**
   * A shard iterator is a `*string`, and line 159 compares those pointers,
   * not the strings: a token here is the identity of one such pointer, so two
   * tokens are equal exactly when the SDK handed out the same pointer.
   */
  type Token = nat

  /** The GetShardIterator response: an error, or a (possibly nil) iterator. */
  datatype StartResult = StartFailed | Started(first: Option<Token>)

  /**
   * One GetRecords response: the batch, NextShardIterator, MillisBehindLatest
   * and whether the call returned an error.
   */
  datatype PollResult = PollResult(records: seq<Record>, next: Option<Token>, millisBehind: Option<Int64>, failed: bool)

  datatype Outcome =
    | StartFatal        // log.Fatalf after GetShardIterator failed
    | GetRecordsFatal   // log.Fatalf after GetRecords failed
    | NoNewIterator     // break at line 161
    | CaughtUp          // break at line 165
    | Pending(cursor: Option<Token>)  // the responses ran out

  /** One GetRecords call: the iterator it was passed and the lines printed before the next call. */
  datatype Iteration = Iteration(cursor: Option<Token>, output: seq<Event>)

  datatype Trace = Trace(iterations: seq<Iteration>, outcome: Outcome)

  /**
   * The stop condition of line 159, which is only reached with an empty batch:
   * no next iterator, or the very pointer just used. Its third disjunct,
   * `err != nil`, is always false there, because line 77 already aborted.
   */
  predicate Stalled(cursor: Option<Token>, p: PollResult) {
    |p.records| == 0 && (p.next.None? || p.next == cursor)
  }

  /** The stop condition of line 164: a lag that is present and zero. */
  predicate ZeroLag(p: PollResult) {
    p.millisBehind == Some(0)
  }

  /** A response after which the loop goes round again. */
  predicate Continues(cursor: Option<Token>, p: PollResult) {
    !p.failed && !Stalled(cursor, p) && !ZeroLag(p)
  }

  /** The lines a continuing iteration prints: its batch, then a wait if the batch was empty. */
  function ContinuingOutput(p: PollResult): seq<Event> {
    BatchEvents(p.records) + (if |p.records| == 0 then [Wait] else [])
  }

  /** The loop from iterator `cursor` on, answered by `results`. */
  function PollFrom(cursor: Option<Token>, results: seq<PollResult>): Trace
    decreases |results|
  {
    if results == [] then Trace([], Pending(cursor))
    else
      var p := results[0];
      if p.failed then Trace([Iteration(cursor, [])], GetRecordsFatal)
      else if Stalled(cursor, p) then Trace([Iteration(cursor, [ExhaustedLine])], NoNewIterator)
      else
        var decoded := BatchEvents(p.records);
        if ZeroLag(p) then Trace([Iteration(cursor, decoded)], CaughtUp)
        else
          var rest := PollFrom(p.next, results[1..]);
          Trace([Iteration(cursor, decoded + (if |p.records| == 0 then [Wait] else []))] + rest.iterations, rest.outcome)
  }

  /** The whole of main after the session is built. */
  function Run(start: StartResult, results: seq<PollResult>): Trace {
    match start
    case StartFailed => Trace([], StartFatal)
    case Started(first) => PollFrom(first, results)
  }

  /** The consumer's main loop, with the record decoding of each batch inside it. */
  method Consume(start: StartResult, results: seq<PollResult>) returns (iterations: seq<Iteration>, outcome: Outcome)
    ensures Trace(iterations, outcome) == Run(start, results)
    ensures start.StartFailed? ==> iterations == [] && outcome == StartFatal
    ensures |iterations| <= |results|
  {
    if start.StartFailed? {
      return [], StartFatal;
    }
    var shardIterator := start.first;
    iterations := [];
    var k := 0;
    while k < |results|
      invariant 0 <= k <= |results| && |iterations| == k
      invariant PollFrom(start.first, results)
             == Trace(iterations + PollFrom(shardIterator, results[k..]).iterations, PollFrom(shardIterator, results[k..]).outcome)
    {
      var response := results[k];
      assert results[k..][0] == response && results[k..][1..] == results[k + 1..];
      k := k + 1;
      if response.failed {
        iterations := iterations + [Iteration(shardIterator, [])];
        outcome := GetRecordsFatal;
        return;
      }
      var lines: seq<Event> := [];
      if |response.records| > 0 {
        lines := DecodeBatch(response.records);
      } else if response.next == None || response.next == shardIterator {
        iterations := iterations + [Iteration(shardIterator, [ExhaustedLine])];
        outcome := NoNewIterator;
        return;
      }
      if response.millisBehind == Some(0) {
        iterations := iterations + [Iteration(shardIterator, lines)];
        outcome := CaughtUp;
        return;
      }
      var used := shardIterator;
      shardIterator := response.next;
      if |response.records| == 0 {
        lines := lines + [Wait];
      }
      assert lines == ContinuingOutput(response);
      ConcatAssociative(iterations, [Iteration(used, lines)], PollFrom(shardIterator, results[k..]).iterations);
      iterations := iterations + [Iteration(used, lines)];
    }
    assert results[k..] == [];
    outcome := Pending(shardIterator);
  }

  // ---------------------------------------------------------------------------
  // Properties of the loop.

  /**
   * Cursor replacement: the first call uses the starting iterator and every
   * later call the NextShardIterator of the response before it. There is at
   * most one call per supplied response, and the loop only runs out of
   * responses after answering every one of them without stopping.
   */
  lemma {:induction false} CursorChain(cursor: Option<Token>, results: seq<PollResult>)
    ensures var t := PollFrom(cursor, results);
      && |t.iterations| <= |results|
      && (t.iterations != [] ==> t.iterations[0].cursor == cursor)
      && (forall i :: 0 < i < |t.iterations| ==> t.iterations[i].cursor == results[i - 1].next)
      && (t.outcome.Pending? ==>
            |t.iterations| == |results| && t.outcome.cursor == (if results == [] then cursor else results[|results| - 1].next))
    decreases |results|
  {
    if results != [] {
      var p := results[0];
      if Continues(cursor, p) {
        var rest := PollFrom(p.next, results[1..]);
        CursorChain(p.next, results[1..]);
        var t := PollFrom(cursor, results);
        assert t.iterations == [Iteration(cursor, ContinuingOutput(p))] + rest.iterations;
        forall i | 0 < i < |t.iterations|
          ensures t.iterations[i].cursor == results[i - 1].next
        {
          assert t.iterations[i] == rest.iterations[i - 1];
          if i > 1 {
            assert results[1..][i - 2] == results[i - 1];
          }
        }
        if rest.outcome.Pending? && results[1..] != [] {
          assert results[1..][|results[1..]| - 1] == results[|results| - 1];
        }
      }
    }
  }

  /**
   * Call i of trace t is one after which the loop goes on: it got a response
   * that does not stop the loop, and printed its batch's lines followed by a
   * wait exactly when the batch was empty.
   */
  predicate ContinuedAt(t: Trace, results: seq<PollResult>, i: nat)
    requires i < |t.iterations|
  {
    i < |results| && Continues(t.iterations[i].cursor, results[i]) && t.iterations[i].output == ContinuingOutput(results[i])
  }

  /** Every call but the last one, and every call when the responses ran out, continued the loop. */
  lemma {:induction false} ContinuingIterations(cursor: Option<Token>, results: seq<PollResult>, i: nat)
    requires i < |PollFrom(cursor, results).iterations|
    requires i < |PollFrom(cursor, results).iterations| - 1 || PollFrom(cursor, results).outcome.Pending?
    ensures ContinuedAt(PollFrom(cursor, results), results, i)
    decreases |results|
  {
    var p := results[0];
    var t := PollFrom(cursor, results);
    if Continues(cursor, p) {
      var rest := PollFrom(p.next, results[1..]);
      assert t.iterations == [Iteration(cursor, ContinuingOutput(p))] + rest.iterations;
      if i > 0 {
        ContinuingIterations(p.next, results[1..], i - 1);
        assert t.iterations[i] == rest.iterations[i - 1];
        assert results[1..][i - 1] == results[i];
      }
    }
  }

  /**
   * How the loop stops: when it does, it stops at its last call, whose
   * response and iterator decide the outcome and what that call printed. A
   * failed call is fatal and prints nothing; otherwise an empty batch without
   * a new iterator prints the exhausted line; otherwise a zero lag stops the
   * loop after the batch's lines, without waiting.
   */
  lemma {:induction false} StopsAtLastIteration(cursor: Option<Token>, results: seq<PollResult>)
    ensures var t := PollFrom(cursor, results);
      !t.outcome.Pending? ==>
        && t.outcome != StartFatal
        && 0 < |t.iterations| <= |results|
        && var n := |t.iterations| - 1;
           var p, c := results[n], t.iterations[n].cursor;
           && !Continues(c, p)
           && (t.outcome == GetRecordsFatal <==> p.failed)
           && (t.outcome == NoNewIterator <==> !p.failed && Stalled(c, p))
           && (t.outcome == CaughtUp <==> !p.failed && !Stalled(c, p) && ZeroLag(p))
           && t.iterations[n].output
              == (if p.failed then [] else if Stalled(c, p) then [ExhaustedLine] else BatchEvents(p.records))
    decreases |results|
  {
    if results != [] {
      var p := results[0];
      if Continues(cursor, p) {
        var rest := PollFrom(p.next, results[1..]);
        StopsAtLastIteration(p.next, results[1..]);
        var t := PollFrom(cursor, results);
        assert t.iterations == [Iteration(cursor, ContinuingOutput(p))] + rest.iterations;
        if !t.outcome.Pending? {
          var n := |t.iterations| - 1;
          assert t.iterations[n] == rest.iterations[n - 1];
          assert results[1..][n - 1] == results[n];
        }
      }
    }
  }

  /**
   * An empty batch whose next iterator is nil or the very pointer just used
   * ends the loop at that call, printing only the exhausted line.
   */
  lemma StalledBatchStops(cursor: Option<Token>, results: seq<PollResult>, i: nat)
    requires i < |results| && i < |PollFrom(cursor, results).iterations|
    requires !results[i].failed && Stalled(PollFrom(cursor, results).iterations[i].cursor, results[i])
    ensures var t := PollFrom(cursor, results);
      t.outcome == NoNewIterator && |t.iterations| == i + 1 && t.iterations[i].output == [ExhaustedLine]
  {
    var t := PollFrom(cursor, results);
    CursorChain(cursor, results);
    StopsAtLastIteration(cursor, results);
    if i < |t.iterations| - 1 || t.outcome.Pending? {
      ContinuingIterations(cursor, results, i);
    }
  }

  /**
   * A non-empty batch always gets past the check of line 159: its records are
   * all decoded, and unless this call was fatal it does not end with the
   * exhausted line; it prints no wait.
   */
  lemma NonEmptyBatchDecoded(cursor: Option<Token>, results: seq<PollResult>, i: nat)
    requires i < |results| && i < |PollFrom(cursor, results).iterations|
    requires !results[i].failed && |results[i].records| > 0
    ensures var t := PollFrom(cursor, results);
      && t.iterations[i].output == BatchEvents(results[i].records)
      && (i == |t.iterations| - 1 ==> t.outcome == CaughtUp || t.outcome.Pending?)
  {
    var t := PollFrom(cursor, results);
    CursorChain(cursor, results);
    StopsAtLastIteration(cursor, results);
    if i < |t.iterations| - 1 || t.outcome.Pending? {
      ContinuingIterations(cursor, results, i);
    }
    assert BatchEvents(results[i].records) + [] == BatchEvents(results[i].records);
  }

  /**
   * A zero lag stops the loop at that call, after the batch's records have
   * been decoded, and without waiting even when the batch was empty.
   */
  lemma ZeroLagStops(cursor: Option<Token>, results: seq<PollResult>, i: nat)
    requires i < |results| && i < |PollFrom(cursor, results).iterations|
    requires !results[i].failed && !Stalled(PollFrom(cursor, results).iterations[i].cursor, results[i]) && ZeroLag(results[i])
    ensures var t := PollFrom(cursor, results);
      t.outcome == CaughtUp && |t.iterations| == i + 1 && t.iterations[i].output == BatchEvents(results[i].records)
  {
    var t := PollFrom(cursor, results);
    CursorChain(cursor, results);
    StopsAtLastIteration(cursor, results);
    if i < |t.iterations| - 1 || t.outcome.Pending? {
      ContinuingIterations(cursor, results, i);
    }
  }

  /** A call after which the loop goes on waits if and only if its batch was empty. */
  lemma WaitIffEmptyBatch(cursor: Option<Token>, results: seq<PollResult>, i: nat)
    requires i < |results| && i < |PollFrom(cursor, results).iterations|
    requires i < |PollFrom(cursor, results).iterations| - 1 || PollFrom(cursor, results).outcome.Pending?
    ensures var t := PollFrom(cursor, results);
      (Wait in t.iterations[i].output <==> |results[i].records| == 0)
      && multiset(t.iterations[i].output)[Wait] == (if |results[i].records| == 0 then 1 else 0)
  {
    ContinuingIterations(cursor, results, i);
    BatchPrintsNoLoopLines(results[i].records);
    var decoded := BatchEvents(results[i].records);
    assert Wait !in decoded;
    assert multiset(decoded)[Wait] == 0;
  }
}
