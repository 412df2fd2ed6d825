/** What the rows of executions say, field by field, over every run. */
module Executions {
  import opened Wrappers
  import opened WorkerProtocol
  import Orphans
  import Runs
  import Text

  // ---- how a row ends --------------------------------------------------------

  /** The row records this outcome. */
  predicate Records(row: Row, outcome: Outcome) {
    match outcome
    case Returned(output, logs) =>
      row.status == Succeeded && row.output == Some(output) && row.failure == None && row.logs == logs
    case Broke(failure, logs) =>
      row.status == Failed && row.output == None && row.failure == Some(failure) && row.logs == logs
  }

  /** The row records an interruption over these logs. */
  predicate RecordsInterruption(row: Row, logs: string) {
    row.status == Failed && row.output == None && row.failure == Some(WorkerRestarted) && row.logs == logs
  }

  lemma EndedForm(row: Row, past: History)
    requires Terminal(row.status) && Ended(row, past)
    ensures || (RecordsInterruption(row, row.logs) && (row.logs == "" || WasSaved(row.logs, past.saves)))
            || (past.outcome.Some? && Records(row, past.outcome.value))
  {
  }

  /** In every run a terminal row records what its handler came to, output, failure and
      logs, or an interruption over logs that had been saved. */
  lemma TerminalForm(states: seq<State>, events: seq<Event>, n: nat, id: Id)
    requires IsRun(states, events) && n < |states| && id in states[n].executions
    requires Terminal(states[n].executions[id].row.status)
    ensures var e := states[n].executions[id];
            || (RecordsInterruption(e.row, e.row.logs) && (e.row.logs == "" || WasSaved(e.row.logs, e.past.saves)))
            || (e.past.outcome.Some? && Records(e.row, e.past.outcome.value))
  {
    TerminalRowIsTrue(states, events, n, id);
    EndedForm(states[n].executions[id].row, states[n].executions[id].past);
  }

  /** In every run every failure on a row has a code and says something, within bounds, and
      output and logs keep to theirs. */
  lemma RowsAreBounded(states: seq<State>, events: seq<Event>, n: nat, id: Id)
    requires IsRun(states, events) && n < |states| && id in states[n].executions
    ensures var row := states[n].executions[id].row;
            && |row.logs| <= 262_144 && (row.output.Some? ==> |row.output.value| <= 4_194_304)
            && (row.status == Succeeded <==> row.output.Some?) && (row.status == Failed <==> row.failure.Some?)
            && (row.failure.Some? && row.failure.value.Failure? ==>
                  && 1 <= |row.failure.value.code| <= 128 && |row.failure.value.message| <= 4_096
                  && !Text.IsBlank(row.failure.value.message))
  {
    RunInvariant(states, events, n);
    var row := states[n].executions[id].row;
    assert Valid(row);
    if row.failure.Some? && row.failure.value.Failure? {
      BlankTrims(row.failure.value.message);
    }
  }

  lemma {:induction false} BlankTrimsLeft(s: string)
    requires Text.IsBlank(s)
    ensures Text.TrimLeft(s) == ""
  {
    if s == "" {
    } else {
      BlankTrimsLeft(s[1..]);
    }
  }

  lemma BlankTrims(s: string)
    ensures Text.IsBlank(s) ==> Text.TrimSpace(s) == ""
  {
    if Text.IsBlank(s) {
      BlankTrimsLeft(s);
    }
  }

  /** The steps that end a running execution: its worker's Finalize is carried out, then or
      late, or a recovery finds it. */
  predicate Concludes(s: State, event: Event, id: Id) {
    && id in s.executions && s.executions[id].row.status.Running?
    && match event {
      case Finish(w, fate) => Busy(s, w) && s.jobs[w].id == id && fate.Lands?
      case Land(statement) => statement.Finalize? && statement.id == id
      case Recover => true
      case _ => false
    }
  }

  lemma AppliedRecords(e: Execution, statement: Statement)
    requires Honest(statement, e) && statement.Finalize? && e.row.status.Running?
    ensures Records(Applied(e, statement).row, statement.outcome)
  {
  }

  lemma FinishRecords(s: State, w: WorkerId, fate: Fate)
    requires Inv(s) && Enabled(s, Finish(w, fate)) && s.executions[s.jobs[w].id].row.status.Running?
    ensures var t := Step(s, Finish(w, fate));
            var id := s.jobs[w].id;
            if fate.Lands? then Records(t.executions[id].row, s.jobs[w].stage.final)
            else t.executions[id].row == s.executions[id].row
  {
    var job := s.jobs[w];
    var e := s.executions[job.id];
    assert Tracks(job, e);
    AppliedRecords(e.(past := e.past.(finalizing := true)), Finalize(job.id, job.stage.final, job.claimed));
  }

  lemma LandRecords(s: State, statement: Statement)
    requires Inv(s) && Enabled(s, Land(statement)) && s.executions[statement.id].row.status.Running?
    ensures var row := Step(s, Land(statement)).executions[statement.id].row;
            if statement.Finalize? then Records(row, statement.outcome)
            else row.status.Running? && row.logs == if |Text.TrimSpace(statement.prefix)| <= 262_144
                                                    then Text.TrimSpace(statement.prefix)
                                                    else s.executions[statement.id].row.logs
  {
    if statement.Finalize? {
      assert Honest(statement, s.executions[statement.id]);
      AppliedRecords(s.executions[statement.id], statement);
    }
  }

  lemma LogsShown(e: Execution, id: Id, prefix: string)
    requires e.row.status.Running?
    ensures var later := Applied(e, SaveLogs(id, prefix)).row;
            && later == e.row.(logs := later.logs, version := later.version)
            && later.logs == if |Text.TrimSpace(prefix)| <= 262_144 then Text.TrimSpace(prefix) else e.row.logs
  {
  }

  /** A flush that is carried out shows the trim of what the handler had written, and
      changes nothing else of the row. */
  lemma PersistShows(s: State, w: WorkerId, t: State, id: Id, prefix: string)
    requires Flushes(s, w, id, prefix) && Next(s, Persist(w, Lands), t) && s.executions[id].row.status.Running?
    ensures id in t.executions
    ensures var row, later := s.executions[id].row, t.executions[id].row;
            && later == row.(logs := later.logs, version := later.version)
            && later.logs == if |Text.TrimSpace(prefix)| <= 262_144 then Text.TrimSpace(prefix) else row.logs
  {
    PersistCarries(s, w, id, prefix);
    LogsShown(s.executions[id], id, prefix);
  }

  lemma PersistCarries(s: State, w: WorkerId, id: Id, prefix: string)
    requires Flushes(s, w, id, prefix) && Enabled(s, Persist(w, Lands))
    ensures id in Step(s, Persist(w, Lands)).executions
    ensures Step(s, Persist(w, Lands)).executions[id] == Applied(s.executions[id], SaveLogs(id, prefix))
  {
  }

  /** The flusher of this execution's worker is saving what the handler had written. */
  predicate Flushes(s: State, w: WorkerId, id: Id, prefix: string) {
    && w in s.jobs && id in s.executions && s.jobs[w].id == id
    && HasStream(s.jobs[w].stage) && s.jobs[w].stage.flusher == Holding(prefix)
  }

  /** A recovery interrupts the running executions, over the logs they have, and leaves the
      others alone. */
  lemma RecoverRecords(s: State, id: Id)
    requires Inv(s) && id in s.executions
    ensures id in Step(s, Recover).executions
    ensures var row, later := s.executions[id].row, Step(s, Recover).executions[id].row;
            if row.status == Running then RecordsInterruption(later, row.logs) else later == row
  {
  }

  lemma TableConcludes(s: State, event: Event, id: Id)
    requires Inv(s) && Enabled(s, event) && id in s.executions && !Terminal(s.executions[id].row.status)
    requires event.Create? || event.Rerun? || event.Claim?
    ensures id in Step(s, event).executions && !Terminal(Step(s, event).executions[id].row.status)
  {
  }

  lemma DropConcludes(s: State, event: Event, id: Id)
    requires Enabled(s, event) && id in s.executions && (event.Drop? || event.Conclude? || event.Crash?)
    ensures Step(s, event).executions == s.executions
  {
  }

  lemma LandConcludes(s: State, statement: Statement, id: Id)
    requires Inv(s) && Enabled(s, Land(statement)) && id in s.executions && !Terminal(s.executions[id].row.status)
    ensures id in Step(s, Land(statement)).executions
    ensures Terminal(Step(s, Land(statement)).executions[id].row.status) <==> Concludes(s, Land(statement), id)
  {
    if statement.id == id {
      assert Honest(statement, s.executions[id]);
      LandRecords(s, statement);
    }
  }

  lemma FinishConcludes(s: State, w: WorkerId, fate: Fate, id: Id)
    requires Inv(s) && Enabled(s, Finish(w, fate)) && id in s.executions && !Terminal(s.executions[id].row.status)
    ensures id in Step(s, Finish(w, fate)).executions
    ensures Terminal(Step(s, Finish(w, fate)).executions[id].row.status) <==> Concludes(s, Finish(w, fate), id)
  {
    assert Tracks(s.jobs[w], s.executions[s.jobs[w].id]);
    if s.jobs[w].id == id {
      FinishRecords(s, w, fate);
    }
  }

  /** A step ends an execution exactly in those ways. */
  lemma ConcludesExactly(s: State, event: Event, t: State, id: Id)
    requires Inv(s) && Next(s, event, t) && id in s.executions && !Terminal(s.executions[id].row.status)
    ensures id in t.executions && (Terminal(t.executions[id].row.status) <==> Concludes(s, event, id))
  {
    if Orphans.IsWork(event) {
      Orphans.WorkKeepsStatus(s, event, id);
    } else {
      match event
      case Finish(w, fate) => FinishConcludes(s, w, fate, id);
      case Land(statement) => LandConcludes(s, statement, id);
      case Recover => RecoverRecords(s, id);
      case Drop(_) => DropConcludes(s, event, id);
      case Conclude(_) => DropConcludes(s, event, id);
      case Crash(_) => DropConcludes(s, event, id);
      case _ => TableConcludes(s, event, id);
    }
  }

  // ---- what is known of a run ------------------------------------------------

  predicate IsBy(s: State, w: WorkerId, id: Id) {
    w in s.jobs && s.jobs[w].id == id
  }

  /** What the worker of an execution comes to in this step, if it does: what its handler's
      run came to, or the failure that kept it from running. */
  function Arrives(s: State, event: Event, id: Id): Option<Outcome> {
    match event
    case Return(w, result) => if IsBy(s, w, id) then Some(result) else None
    case GiveUp(w, failure) => if IsBy(s, w, id) then Some(Broke(failure, "")) else None
    case _ => None
  }

  /** What the handler of an execution writes in this step. */
  function Prints(s: State, event: Event, id: Id): string {
    match event
    case Write(w, payload) => if IsBy(s, w, id) then payload else ""
    case _ => ""
  }

  /** What a flush of an execution takes in this step: all that was written. */
  function Takes(s: State, event: Event, id: Id): seq<string>
    requires id in s.executions
  {
    match event
    case Take(w) => if IsBy(s, w, id) then [s.executions[id].past.wrote] else []
    case _ => []
  }

  ghost predicate HistoryGrows(s: State, event: Event, t: State, id: Id)
    requires id in s.executions && id in t.executions
  {
    var past, later := s.executions[id].past, t.executions[id].past;
    && later.outcome == (if Arrives(s, event, id).Some? then Arrives(s, event, id) else past.outcome)
    && later.wrote == past.wrote + Prints(s, event, id)
    && later.saves == past.saves + Takes(s, event, id)
  }

  lemma ArrivalGrows(s: State, event: Event, id: Id)
    requires Enabled(s, event) && (event.GiveUp? || event.Return? || event.Write?) && id in s.executions
    ensures id in Step(s, event).executions && HistoryGrows(s, event, Step(s, event), id)
  {
  }

  lemma TakeGrows(s: State, w: WorkerId, id: Id)
    requires Enabled(s, Take(w)) && id in s.executions
    requires s.jobs[w].stage.stream.buffer == s.executions[s.jobs[w].id].past.wrote
    ensures id in Step(s, Take(w)).executions && HistoryGrows(s, Take(w), Step(s, Take(w)), id)
  {
  }

  lemma BufferHolds(s: State, w: WorkerId)
    requires Inv(s) && Enabled(s, Take(w))
    ensures s.jobs[w].stage.stream.buffer == s.executions[s.jobs[w].id].past.wrote
  {
    assert Tracks(s.jobs[w], s.executions[s.jobs[w].id]);
  }

  lemma QuietGrows(s: State, event: Event, id: Id)
    requires Enabled(s, event) && id in s.executions
    requires Orphans.IsWork(event) && !(event.GiveUp? || event.Return? || event.Write? || event.Take?)
    ensures id in Step(s, event).executions && HistoryGrows(s, event, Step(s, event), id)
  {
  }

  lemma TableGrows(s: State, event: Event, id: Id)
    requires Enabled(s, event) && !Orphans.IsWork(event) && id in s.executions
    ensures id in Step(s, event).executions && HistoryGrows(s, event, Step(s, event), id)
  {
  }

  /** The history of an execution is what its own worker did, and nothing else. */
  lemma HistoryExactly(s: State, event: Event, t: State, id: Id)
    requires Inv(s) && Next(s, event, t) && id in s.executions
    ensures id in t.executions && HistoryGrows(s, event, t, id)
  {
    if event.GiveUp? || event.Return? || event.Write? {
      ArrivalGrows(s, event, id);
    } else if event.Take? {
      BufferHolds(s, event.worker);
      TakeGrows(s, event.worker, id);
    } else if Orphans.IsWork(event) {
      QuietGrows(s, event, id);
    } else {
      TableGrows(s, event, id);
    }
  }

  // ---- how a row begins ------------------------------------------------------

  /** A queued execution of a build, with nothing to show yet. */
  predicate IsAsked(row: Row, build: BuildId, input: string, rerunOf: Option<Id>) {
    && row.build == build && row.input == input && row.rerunOf == rerunOf
    && row.status == Queued && row.output == None && row.failure == None && row.logs == ""
  }

  /** An execution is created as it was asked for, and nothing else changes. */
  lemma CreatedAsAsked(s: State, event: Event, t: State)
    requires Next(s, event, t) && (event.Create? || event.Rerun?)
    ensures event.id in t.executions && t.executions - {event.id} == s.executions - {event.id}
    ensures event.Create? ==> IsAsked(t.executions[event.id].row, event.build, event.input, None)
    ensures event.Rerun? ==>
              && event.of in s.executions
              && IsAsked(t.executions[event.id].row, s.executions[event.of].row.build, s.executions[event.of].row.input,
                         Some(event.of))
  {
  }

  /** A claim starts a row from a clean running record, and its worker has that record. */
  lemma ClaimedForm(s: State, w: WorkerId, id: Id, heard: bool, t: State)
    requires Inv(s) && Next(s, Claim(w, id, heard), t)
    ensures s.executions[id].row.status == Queued && id in t.executions
    ensures var row, later := s.executions[id].row, t.executions[id].row;
            && later == row.(status := Running, version := later.version)
            && later.output == None && later.failure == None && later.logs == ""
            && (if heard then w in t.jobs && t.jobs[w].id == id && t.jobs[w].claimed == later else t.jobs == s.jobs)
  {
    assert Consistent(s.executions[id]);
  }

  /** Every rerun repeats a finished execution: the same build and the same input. */
  ghost predicate Repeats(s: State) {
    forall id :: id in s.executions && s.executions[id].row.rerunOf.Some? ==> Repeated(s, id)
  }

  ghost predicate Repeated(s: State, id: Id)
    requires id in s.executions && s.executions[id].row.rerunOf.Some?
  {
    var of := s.executions[id].row.rerunOf.value;
    && of in s.executions && Terminal(s.executions[of].row.status)
    && s.executions[id].row.build == s.executions[of].row.build
    && s.executions[id].row.input == s.executions[of].row.input
  }

  ghost predicate Traced(s: State) {
    Inv(s) && Repeats(s)
  }

  lemma RepeatsStays(s: State, event: Event, t: State)
    requires Traced(s) && Next(s, event, t)
    ensures Traced(t)
  {
    StepKeeps(s, event, t);
    forall id | id in t.executions && t.executions[id].row.rerunOf.Some? ensures Repeated(t, id) {
      if id in s.executions {
        assert Future(s.executions[id], t.executions[id]);
        assert Repeated(s, id);
        var of := s.executions[id].row.rerunOf.value;
        assert Future(s.executions[of], t.executions[of]);
      } else {
        OnlyCreated(s, event, t, id);
      }
    }
  }

  lemma OnlyCreated(s: State, event: Event, t: State, id: Id)
    requires Inv(s) && Next(s, event, t) && id in t.executions && id !in s.executions
    ensures (event.Create? || event.Rerun?) && event.id == id
    ensures t.executions[id].row.rerunOf.Some? ==> Repeated(t, id)
  {
    if Orphans.IsWork(event) {
      Orphans.WorkKeepsStatus(s, event, id);
    } else if event.Create? || event.Rerun? {
      CreatedAsAsked(s, event, t);
      assert forall k :: k in s.executions && k != event.id ==>
                           k in s.executions - {event.id} && t.executions[k] == (t.executions - {event.id})[k];
    }
  }

  ghost predicate Anything(s: State, t: State) {
    true
  }

  /** In every run a rerun has the build and the input of the finished execution it names. */
  lemma RerunsRepeat(states: seq<State>, events: seq<Event>, n: nat, id: Id)
    requires IsRun(states, events) && n < |states| && id in states[n].executions
    requires states[n].executions[id].row.rerunOf.Some?
    ensures Repeated(states[n], id)
  {
    forall s, event, t | Traced(s) && Next(s, event, t) ensures Traced(t) && Anything(s, t) {
      RepeatsStays(s, event, t);
    }
    Runs.RunKeeps(states, events, Next, Traced, Anything, n);
  }
}
