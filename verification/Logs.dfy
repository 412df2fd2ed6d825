/** What is kept of what a handler or a toolchain prints. */
module Logs {
  import opened Wrappers
  import opened Text
  import Worker = WorkerProtocol
  import Deploy = DeployProtocol

  const MARKER: string := "\n[logs truncated]"
  const BARE_MARKER: string := "[logs truncated]"

  function Head(text: string, maximum: nat): (r: string)
    ensures r <= text && |r| == (if |text| <= maximum then |text| else maximum)
  {
    if |text| > maximum then text[..maximum] else text
  }

  function Concat(chunks: seq<string>): string {
    if chunks == [] then "" else Concat(chunks[..|chunks| - 1]) + chunks[|chunks| - 1]
  }

  /** What String makes of a buffer and a count of bytes written. */
  function Shown(buffer: string, truncated: bool): string {
    TrimSpace(if truncated then TrimSpace(buffer) + MARKER else TrimSpace(buffer))
  }

  /** limitedBuffer. `mirrored` is what went to whoever follows the execution. */
  class LimitedBuffer {
    var buffer: string
    var written: nat
    var mirrored: string
    const maximum: nat

    constructor (maximum: nat)
      ensures this.maximum == maximum && Holds("")
    {
      this.maximum := maximum;
      buffer, written, mirrored := "", 0, "";
    }

    /** The state after `seen` has been written, however it was cut up. */
    ghost predicate Holds(seen: string)
      reads this
    {
      buffer == Head(seen, maximum) && written == |seen| && mirrored == seen
    }

    method Write(payload: string, ghost seen: string) returns (count: nat)
      requires Holds(seen)
      modifies this
      ensures Holds(seen + payload) && count == |payload|
    {
      written := written + |payload|;
      var remaining := maximum - |buffer|;
      if remaining > 0 {
        if |payload| > remaining {
          buffer := buffer + payload[..remaining];
        } else {
          buffer := buffer + payload;
        }
      }
      mirrored := mirrored + payload;
      assert buffer == Head(seen + payload, maximum);
      return |payload|;
    }

    /** Any number of writes: the first bytes of their concatenation, whatever the cuts. */
    method WriteAll(chunks: seq<string>)
      requires Holds("")
      modifies this
      ensures Holds(Concat(chunks))
    {
      for k := 0 to |chunks|
        invariant Holds(Concat(chunks[..k]))
      {
        assert chunks[..k + 1][..k] == chunks[..k];
        var _ := Write(chunks[k], Concat(chunks[..k]));
      }
      assert chunks[..|chunks|] == chunks;
    }

    method String(ghost seen: string) returns (value: string)
      requires Holds(seen)
      ensures value == Shown(Head(seen, maximum), |seen| > maximum)
    {
      HeadCuts(seen, maximum);
      return Shown(buffer, written > |buffer|);
    }
  }

  lemma HeadCuts(text: string, maximum: nat)
    ensures |text| > |Head(text, maximum)| <==> |text| > maximum
  {
  }

  lemma MarkerFacts()
    ensures |MARKER| == 17 && MARKER[16] == ']' && MARKER[0] == '\n' && MARKER[1..] == BARE_MARKER
    ensures |BARE_MARKER| == 16 && BARE_MARKER[0] == '[' && BARE_MARKER[15] == ']'
  {
  }

  lemma TrimMarked(v: string, marker: string)
    requires Trimmed(v) && |marker| >= 2 && IsSpace(marker[0]) && !IsSpace(marker[1]) && !IsSpace(marker[|marker| - 1])
    ensures TrimSpace(v + marker) == if v == "" then marker[1..] else v + marker
  {
    if v == "" {
      assert v + marker == marker;
      assert TrimLeft(marker) == TrimLeft(marker[1..]) == marker[1..];
      assert TrimRight(marker[1..]) == marker[1..];
    } else {
      TrimSpaceKeeps(v + marker);
    }
  }

  /** The marker is there exactly when something was cut off; only in front of it may
      the text be missing altogether, and then its newline goes too. */
  lemma ShownExactly(seen: string, maximum: nat)
    ensures var kept := TrimSpace(Head(seen, maximum));
            Shown(Head(seen, maximum), |seen| > maximum) ==
            if |seen| <= maximum then kept else if kept == "" then BARE_MARKER else kept + MARKER
  {
    var kept := TrimSpace(Head(seen, maximum));
    if |seen| <= maximum {
      TrimSpaceKeeps(kept);
    } else {
      MarkerFacts();
      TrimMarked(kept, MARKER);
    }
  }

  // ---- logs a row cannot carry -----------------------------------------------

  /** The handler printed more than the cap, and what was kept leaves no room for the
      marker within the bound of a row. */
  predicate Overflows(seen: string, maximum: nat) {
    |seen| > maximum && |TrimSpace(Head(seen, maximum))| + |MARKER| > Worker.MAX_LOG_BYTES
  }

  lemma ShownFits(seen: string, maximum: nat)
    requires maximum <= Worker.MAX_LOG_BYTES
    ensures |Shown(Head(seen, maximum), |seen| > maximum)| <= Worker.MAX_LOG_BYTES <==> !Overflows(seen, maximum)
  {
    ShownExactly(seen, maximum);
    MarkerFacts();
  }

  /** What a handler that exits cleanly leaves: no result, or one that is JSON or not. A
      compiled handler that leaves none counts as one that leaves "null". */
  datatype Exit = NoResult | Result(output: string, isJson: bool)

  function NoResultFailure(): (failure: Worker.Failure)
    ensures Worker.ValidFailure(failure)
  {
    Worker.NewFailureIsValid("failed", "worker: handler failed: the handler returned no result");
    Worker.NewFailure("failed", "worker: handler failed: the handler returned no result")
  }

  function TooLargeFailure(): (failure: Worker.Failure)
    ensures Worker.ValidFailure(failure)
  {
    Worker.NewFailureIsValid("result_too_large", "worker: handler result is too large");
    Worker.NewFailure("result_too_large", "worker: handler result is too large")
  }

  function NotJsonFailure(): (failure: Worker.Failure)
    ensures Worker.ValidFailure(failure)
  {
    Worker.NewFailureIsValid("failed", "worker: handler returned invalid JSON");
    Worker.NewFailure("failed", "worker: handler returned invalid JSON")
  }

  /** What the runner makes of it under the configured result limit. */
  function Concluded(exit: Exit, logs: string, maxResult: nat): Worker.Outcome {
    match exit
    case NoResult => Worker.Broke(NoResultFailure(), logs)
    case Result(output, isJson) =>
      if |output| > maxResult then Worker.Broke(TooLargeFailure(), logs)
      else if !isJson then Worker.Broke(NotJsonFailure(), logs)
      else Worker.Returned(output, logs)
  }

  /** A proper result within the configured limit that is still more than a row carries. */
  predicate Oversized(exit: Exit, maxResult: nat) {
    exit.Result? && exit.isJson && Worker.MAX_INLINE_OUTPUT_BYTES < |exit.output| <= maxResult
  }

  lemma AcceptedExactly(claimed: Worker.Row, outcome: Worker.Outcome)
    requires outcome.Broke? ==> Worker.ValidFailure(outcome.failure)
    ensures Worker.Valid(Worker.Finished(claimed, outcome)) <==>
            && |outcome.logs| <= Worker.MAX_LOG_BYTES
            && (outcome.Returned? ==> |outcome.output| <= Worker.MAX_INLINE_OUTPUT_BYTES)
  {
  }

  /** Whatever a run comes to, its record accepts it unless its logs overflow or its
      output is more than a row carries; otherwise it refuses to finish. */
  lemma OutcomeRefusedExactly(claimed: Worker.Row, outcome: Worker.Outcome, seen: string, maximum: nat)
    requires maximum <= Worker.MAX_LOG_BYTES && outcome.logs == Shown(Head(seen, maximum), |seen| > maximum)
    requires outcome.Broke? ==> Worker.ValidFailure(outcome.failure)
    ensures !Worker.Valid(Worker.Finished(claimed, outcome)) <==>
            || Overflows(seen, maximum)
            || (outcome.Returned? && |outcome.output| > Worker.MAX_INLINE_OUTPUT_BYTES)
  {
    AcceptedExactly(claimed, outcome);
    ShownFits(seen, maximum);
  }

  /** A handler that exits cleanly has its run refused by the record exactly when what it
      printed overflows, or when its result is more than a row carries and a larger
      configured limit lets it through. */
  lemma FinishRefusedExactly(claimed: Worker.Row, exit: Exit, maxResult: nat, seen: string, maximum: nat)
    requires maximum <= Worker.MAX_LOG_BYTES
    ensures var outcome := Concluded(exit, Shown(Head(seen, maximum), |seen| > maximum), maxResult);
            !Worker.Valid(Worker.Finished(claimed, outcome)) <==>
            Overflows(seen, maximum) || Oversized(exit, maxResult)
  {
    var outcome := Concluded(exit, Shown(Head(seen, maximum), |seen| > maximum), maxResult);
    ConcludedIsValid(exit, Shown(Head(seen, maximum), |seen| > maximum), maxResult);
    OutcomeRefusedExactly(claimed, outcome, seen, maximum);
  }

  lemma ConcludedIsValid(exit: Exit, logs: string, maxResult: nat)
    ensures var outcome := Concluded(exit, logs, maxResult);
            && outcome.logs == logs && (outcome.Broke? ==> Worker.ValidFailure(outcome.failure))
            && (outcome.Returned? <==> exit.Result? && exit.isJson && |exit.output| <= maxResult)
            && (outcome.Returned? ==> outcome.output == exit.output)
  {
    var none, large, broken := NoResultFailure(), TooLargeFailure(), NotJsonFailure();
  }

  lemma SaysSo(code: string, text: string)
    requires text != "" && |text| <= 4_096 && Trimmed(text)
    ensures Worker.NewFailure(code, text) == Worker.Failure(code, text)
  {
    TrimSpaceKeeps(text);
  }

  lemma NoResultSays()
    ensures NoResultFailure() == Worker.Failure("failed", "worker: handler failed: the handler returned no result")
  {
    var failed, why := "worker: handler failed: ", "the handler returned no result";
    assert failed[0] == 'w';
    assert |why| == 30 && why[29] == 't';
    assert failed + why == "worker: handler failed: the handler returned no result";
    SaysSo("failed", failed + why);
  }

  lemma TooLargeSays()
    ensures TooLargeFailure() == Worker.Failure("result_too_large", "worker: handler result is too large")
  {
    var message := "worker: handler result is too large";
    assert |message| == 35 && message[34] == 'e';
    SaysSo("result_too_large", message);
  }

  lemma NotJsonSays()
    ensures NotJsonFailure() == Worker.Failure("failed", "worker: handler returned invalid JSON")
  {
    var message := "worker: handler returned invalid JSON";
    assert |message| == 37 && message[36] == 'N';
    SaysSo("failed", message);
  }

  /** A clean exit with JSON within the limit returns it, and any other is a failure that
      says which of the three it is; either way with the logs. */
  lemma ConcludedExactly(exit: Exit, logs: string, maxResult: nat)
    ensures var outcome := Concluded(exit, logs, maxResult);
            match exit
            case NoResult =>
              outcome ==
              Worker.Broke(Worker.Failure("failed", "worker: handler failed: the handler returned no result"), logs)
            case Result(output, isJson) =>
              if |output| > maxResult then
                outcome == Worker.Broke(Worker.Failure("result_too_large", "worker: handler result is too large"), logs)
              else if isJson then outcome == Worker.Returned(output, logs)
              else outcome == Worker.Broke(Worker.Failure("failed", "worker: handler returned invalid JSON"), logs)
  {
    NoResultSays();
    TooLargeSays();
    NotJsonSays();
  }

  /** With the default cap, one byte of dense output too many is enough. */
  lemma DefaultCapOverflows(seen: string)
    requires |seen| > Worker.MAX_LOG_BYTES && forall i :: 0 <= i < |seen| ==> !IsSpace(seen[i])
    ensures Overflows(seen, Worker.MAX_LOG_BYTES)
  {
  }

  // ---- log streams -----------------------------------------------------------

  /** The worker's logStream. What its methods do under the mutex is what the steps of
      the protocol do to the stream of its job. */
  class HandlerStream {
    var buffer: string
    var written: bool

    constructor ()
      ensures Value() == Worker.Stream("", false)
    {
      buffer, written := "", false;
    }

    function Value(): Worker.Stream
      reads this
    {
      Worker.Stream(buffer, written)
    }

    /** This is the stream of worker w. */
    ghost predicate Serves(s: Worker.State, w: Worker.WorkerId)
      reads this
    {
      Worker.Busy(s, w) && Worker.HasStream(s.jobs[w].stage) && s.jobs[w].stage.stream == Value()
    }

    method Write(payload: string, ghost s: Worker.State, ghost w: Worker.WorkerId) returns (count: nat)
      requires Serves(s, w)
      modifies this
      ensures count == |payload| && Worker.Enabled(s, Worker.Write(w, payload))
      ensures Serves(Worker.Step(s, Worker.Write(w, payload)), w)
    {
      buffer := buffer + payload;
      written := true;
      return |payload|;
    }

    /** Flush hands SaveLogs a value exactly when the protocol takes one, and the same. */
    method Flush(ghost s: Worker.State, ghost w: Worker.WorkerId) returns (logs: Option<string>)
      requires Serves(s, w) && s.jobs[w].stage.flusher.Waiting?
      modifies this
      ensures logs.Some? <==> Worker.Enabled(s, Worker.Take(w))
      ensures logs.None? ==> Serves(s, w)
      ensures logs.Some? ==> Serves(Worker.Step(s, Worker.Take(w)), w) && logs.value == TrimSpace(Taken(s, w))
    {
      if !written {
        return None;
      }
      TakeStep(s, w);
      written := false;
      return Some(TrimSpace(buffer));
    }
  }

  /** What the flusher of a worker holds once it has taken it. */
  ghost function Taken(s: Worker.State, w: Worker.WorkerId): string
    requires Worker.Enabled(s, Worker.Take(w))
  {
    Worker.Step(s, Worker.Take(w)).jobs[w].stage.flusher.prefix
  }

  lemma TakeStep(s: Worker.State, w: Worker.WorkerId)
    requires Worker.Enabled(s, Worker.Take(w))
    ensures var t := Worker.Step(s, Worker.Take(w));
            var buffer := s.jobs[w].stage.stream.buffer;
            && Worker.Busy(t, w) && Worker.HasStream(t.jobs[w].stage)
            && t.jobs[w].stage.stream == Worker.Stream(buffer, false) && Taken(s, w) == buffer
  {
  }

  /** The deployer's logStream, which appends to the record it follows. */
  class ToolchainStream {
    var record: Deploy.Row
    var written: bool

    constructor (record: Deploy.Row)
      ensures this.record == record && !written
    {
      this.record, written := record, false;
    }

    /** This is the stream of the job. */
    ghost predicate Serves(job: Deploy.Job)
      reads this
    {
      Deploy.HasStream(job.stage) && record == job.record && written == job.stage.written
    }

    method Write(output: string, ghost d: Deploy.Deployment, ghost job: Deploy.Job, ghost b: Deploy.BuilderId,
                 ghost limit: nat)
      returns (count: nat)
      requires Serves(job) && job.stage.Streaming?
      modifies this
      ensures count == |output| && Serves(Deploy.TurnOf(d, job, Deploy.Write(b, output), limit).job)
    {
      record := Deploy.Log(record, output);
      written := true;
      return |output|;
    }

    /** Flush hands Save a snapshot exactly when the protocol takes one, and the same. */
    method Flush(ghost d: Deploy.Deployment, ghost job: Deploy.Job, ghost last: bool)
      returns (snapshot: Option<Deploy.Row>)
      requires Serves(job) && job.stage.flusher.Waiting?
      modifies this`written
      ensures var turn := Deploy.Flush(d, job, last);
              && Serves(turn.job)
              && (snapshot.Some? <==> turn.job.stage.flusher.Holding?)
              && (snapshot.Some? ==> snapshot.value == turn.job.stage.flusher.snapshot)
    {
      if !written {
        return None;
      }
      written := false;
      return Some(record);
    }
  }
}
