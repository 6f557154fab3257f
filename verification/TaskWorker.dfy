/**
 What one executor task yields: the chunk stream of an executor, the accumulation the worker and
 the batch collector make of it, and the messages the worker publishes while it does so.
 */
module TaskWorker {
  import opened Prelude

  datatype Chunk = Chunk(delta: string, done: bool, error: Option<string>)

  /** How an executor's stream stops when no chunk says `done`. */
  datatype Ending = Exhausted | Raised(message: string)

  datatype Script = Script(chunks: seq<Chunk>, ending: Ending)

  /** What the worker posts to the gateway. */
  datatype Report = Report(success: bool, output: string, error: Option<string>)

  function Join(chunks: seq<Chunk>): string {
    if chunks == [] then "" else Join(chunks[..|chunks| - 1]) + chunks[|chunks| - 1].delta
  }

  /** The last error that counts: an empty error string does not. */
  function LastError(chunks: seq<Chunk>): Option<string> {
    if chunks == [] then None
    else if Truthy(chunks[|chunks| - 1].error) then chunks[|chunks| - 1].error
    else LastError(chunks[..|chunks| - 1])
  }

  predicate HasDone(chunks: seq<Chunk>) {
    exists i :: 0 <= i < |chunks| && chunks[i].done
  }

  /** The chunks a consumer takes: up to and including the first one that is done. */
  function Consumed(chunks: seq<Chunk>): seq<Chunk> {
    if chunks == [] then []
    else if chunks[0].done then [chunks[0]]
    else [chunks[0]] + Consumed(chunks[1..])
  }

  function ReportOf(script: Script): Report {
    var taken := Consumed(script.chunks);
    var error := LastError(taken);
    if HasDone(script.chunks) || script.ending.Exhausted? then Report(error.None?, Join(taken), error)
    else Report(false, Join(taken), Some(script.ending.message))
  }

  /** Everything the worker tries to publish on the stream channel, in order. */
  function Messages(script: Script): seq<Chunk> {
    Consumed(script.chunks) +
    if HasDone(script.chunks) || script.ending.Exhausted? then []
    else [Chunk("", true, Some(script.ending.message))]
  }

  // ---------------------------------------------------------------------------
  // Facts about accumulation
  // ---------------------------------------------------------------------------

  lemma {:induction false} ConsumedShape(chunks: seq<Chunk>)
    ensures Consumed(chunks) <= chunks
    ensures forall i :: 0 <= i < |Consumed(chunks)| - 1 ==> !chunks[i].done
    ensures HasDone(chunks) <==> Consumed(chunks) != [] && Consumed(chunks)[|Consumed(chunks)| - 1].done
    ensures !HasDone(chunks) ==> Consumed(chunks) == chunks
  {
    if chunks != [] && !chunks[0].done {
      var rest := chunks[1..];
      ConsumedShape(rest);
      if HasDone(rest) {
        var k :| 0 <= k < |rest| && rest[k].done;
        assert chunks[k + 1].done;
      }
      if HasDone(chunks) {
        var k :| 0 <= k < |chunks| && chunks[k].done;
        assert rest[k - 1].done;
      }
      assert chunks == [chunks[0]] + rest;
      assert Consumed(chunks) == [chunks[0]] + Consumed(rest);
      forall i | 0 <= i < |Consumed(chunks)| - 1 ensures !chunks[i].done {
        assert i > 0 ==> chunks[i] == rest[i - 1];
      }
    }
  }

  lemma JoinLast(chunks: seq<Chunk>, last: Chunk)
    ensures Join(chunks + [last]) == Join(chunks) + last.delta
    ensures LastError(chunks + [last]) == if Truthy(last.error) then last.error else LastError(chunks)
  {
    assert (chunks + [last])[..|chunks|] == chunks;
  }

  lemma {:induction false} JoinPrefix(chunks: seq<Chunk>, n: nat)
    requires n <= |chunks|
    ensures Join(chunks[..n]) <= Join(chunks)
  {
    if n == |chunks| {
      assert chunks[..n] == chunks;
    } else {
      JoinPrefix(chunks[..|chunks| - 1], n);
      assert chunks[..|chunks| - 1][..n] == chunks[..n];
    }
  }

  lemma {:induction false} JoinConcat(a: seq<Chunk>, b: seq<Chunk>)
    ensures Join(a + b) == Join(a) + Join(b)
  {
    if b == [] {
      assert a + b == a;
    } else {
      var n := |b| - 1;
      JoinConcat(a, b[..n]);
      assert (a + b)[..|a + b| - 1] == a + b[..n];
    }
  }

  /** The published messages carry exactly the text that is posted, whichever way the executor ends. */
  lemma MessagesCarryOutput(script: Script)
    ensures Join(Messages(script)) == ReportOf(script).output
  {
    if !(HasDone(script.chunks) || script.ending.Exhausted?) {
      JoinLast(Consumed(script.chunks), Chunk("", true, Some(script.ending.message)));
    } else {
      assert Messages(script) == Consumed(script.chunks);
    }
  }

  /** The terminal message is unique, and last; it is missing only when the executor just stops. */
  lemma DoneIsLast(script: Script)
    ensures forall i :: 0 <= i < |Messages(script)| - 1 ==> !Messages(script)[i].done
    ensures HasDone(Messages(script)) <==> HasDone(script.chunks) || script.ending.Raised?
    ensures HasDone(Messages(script)) <==> Messages(script) != [] && Messages(script)[|Messages(script)| - 1].done
  {
    ConsumedShape(script.chunks);
    var taken, all := Consumed(script.chunks), Messages(script);
    if HasDone(script.chunks) || script.ending.Exhausted? {
      assert all == taken;
      if HasDone(all) {
        var k :| 0 <= k < |all| && all[k].done;
        assert script.chunks[k].done;
      }
    } else {
      assert all[|taken|].done;
      forall i | 0 <= i < |all| - 1 ensures !all[i].done {
        assert all[i] == script.chunks[i];
      }
    }
  }

  /**
   What a stream reader takes for an error and what the posted report calls a failure are the same,
   except when the executor raises an exception whose text is empty and no earlier chunk carried an error.
   */
  lemma OutcomesAgreeExactly(script: Script)
    ensures LastError(Messages(script)).Some? == !ReportOf(script).success <==>
            !(script.ending == Raised("") && !HasDone(script.chunks) && LastError(script.chunks).None?)
    ensures Truthy(ReportOf(script).error) ==> LastError(Messages(script)) == ReportOf(script).error
  {
    ConsumedShape(script.chunks);
    var taken := Consumed(script.chunks);
    if HasDone(script.chunks) || script.ending.Exhausted? {
      assert Messages(script) == taken;
    } else {
      JoinLast(taken, Chunk("", true, Some(script.ending.message)));
    }
  }

  // ---------------------------------------------------------------------------
  // The loops
  // ---------------------------------------------------------------------------

  /** The worker's task handler, with a store that accepts every publish or with none at all. */
  method HandleTask(script: Script, connected: bool) returns (stream: seq<Chunk>, report: Report, signals: nat)
    ensures report == ReportOf(script)
    ensures stream == if connected then Messages(script) else []
    ensures signals == if connected then 1 else 0
  {
    var parts, error: Option<string>, success, sawDone := "", None, true, false;
    ghost var taken: seq<Chunk> := [];
    stream := [];
    for i := 0 to |script.chunks|
      invariant taken == script.chunks[..i] && !sawDone
      invariant forall k :: 0 <= k < i ==> !script.chunks[k].done
      invariant parts == Join(taken) && error == LastError(taken) && success == error.None?
      invariant stream == if connected then taken else []
    {
      var chunk := script.chunks[i];
      JoinLast(taken, chunk);
      taken := taken + [chunk];
      if chunk.delta != "" {
        parts := parts + chunk.delta;
      }
      if Truthy(chunk.error) {
        error := chunk.error;
        success := false;
      }
      if connected {
        stream := stream + [chunk];
      }
      if chunk.done {
        sawDone := true;
        ConsumedIsPrefix(script.chunks, i + 1);
        break;
      }
    }
    if !sawDone {
      ConsumedIsPrefix(script.chunks, |script.chunks|);
    }
    assert taken == Consumed(script.chunks) && (sawDone <==> HasDone(script.chunks));
    if !sawDone && script.ending.Raised? {
      error := Some(script.ending.message);
      success := false;
      if connected {
        stream := stream + [Chunk("", true, error)];
      }
    }
    report := Report(success, parts, error);
    signals := if connected then 1 else 0;
  }

  lemma {:induction false} ConsumedIsPrefix(chunks: seq<Chunk>, i: nat)
    requires i <= |chunks|
    requires forall k :: 0 <= k < i - 1 ==> !chunks[k].done
    requires (i > 0 && chunks[i - 1].done) || i == |chunks|
    ensures Consumed(chunks) == chunks[..i]
    ensures HasDone(chunks) <==> i > 0 && chunks[i - 1].done
  {
    if i == 0 {
      assert chunks == [];
    } else if !chunks[0].done {
      var rest := chunks[1..];
      ConsumedIsPrefix(rest, i - 1);
      assert chunks[..i] == [chunks[0]] + rest[..i - 1];
      ConsumedShape(chunks);
      ConsumedShape(rest);
    } else {
      assert i == 1 && chunks[0].done;
      assert chunks[..1] == [chunks[0]];
    }
  }

  datatype Collected = Collected(success: bool, stdout: string, error: Option<string>, chunks: seq<Chunk>)

  /** What a batch caller makes of the chunks it took. */
  function Aggregate(taken: seq<Chunk>): Collected {
    Collected(LastError(taken).None?, Join(taken), LastError(taken), taken)
  }

  /** Draining a stream for a batch caller; an exception of the executor passes through, so there is no result. */
  method Collect(script: Script) returns (result: Option<Collected>)
    ensures result.None? <==> !HasDone(script.chunks) && script.ending.Raised?
    ensures result.Some? ==> result.value == Aggregate(Consumed(script.chunks))
  {
    var parts, error: Option<string>, success := "", None, true;
    var taken: seq<Chunk> := [];
    for i := 0 to |script.chunks|
      invariant taken == script.chunks[..i]
      invariant forall k :: 0 <= k < i ==> !script.chunks[k].done
      invariant Collected(success, parts, error, taken) == Aggregate(taken)
    {
      var chunk := script.chunks[i];
      JoinLast(taken, chunk);
      taken := taken + [chunk];
      if chunk.delta != "" {
        parts := parts + chunk.delta;
      }
      if Truthy(chunk.error) {
        error := chunk.error;
        success := false;
      }
      if chunk.done {
        ConsumedIsPrefix(script.chunks, i + 1);
        assert taken == Consumed(script.chunks);
        return Some(Collected(success, parts, error, taken));
      }
    }
    ConsumedIsPrefix(script.chunks, |script.chunks|);
    assert taken == Consumed(script.chunks);
    result := if script.ending.Raised? then None else Some(Collected(success, parts, error, taken));
  }

  /** Where there is a result, it says what the worker's report says. */
  lemma AggregateIsReport(script: Script)
    requires HasDone(script.chunks) || script.ending.Exhausted?
    ensures var result, report := Aggregate(Consumed(script.chunks)), ReportOf(script);
            result.success == report.success && result.stdout == report.output && result.error == report.error
  {
  }
}
