/** How executions are claimed, run and finished by any number of workers that share
    one table, while handlers write, log flushers save, processes crash, statements
    land late and recovery races live workers. */
module WorkerProtocol {
  import opened Wrappers
  import Text
  import Runs

  type Id = nat
  type WorkerId = nat
  type BuildId = nat

  const MAX_LOG_BYTES: nat := 262_144
  const MAX_INLINE_OUTPUT_BYTES: nat := 4_194_304

  datatype Status = Queued | Running | Succeeded | Failed

  /** The failure recovery records, and any other. */
  datatype Failure = WorkerRestarted | Failure(code: string, message: string)

  datatype Row = Row(build: BuildId, input: string, rerunOf: Option<Id>, status: Status,
                     output: Option<string>, failure: Option<Failure>, logs: string, version: nat)

  predicate Terminal(status: Status) {
    status.Succeeded? || status.Failed?
  }

  predicate ValidFailure(failure: Failure) {
    failure.Failure? ==>
      && failure.code != "" && |failure.code| <= 128
      && Text.TrimSpace(failure.message) != "" && |failure.message| <= 4_096
  }

  const PLAIN_MESSAGE: string := "operation failed"

  function Cut(message: string): string {
    if |message| > 4_096 then message[..4_096] else message
  }

  /** newFailure, for the text of an error, if it has any. */
  function NewFailure(code: string, text: string): Failure {
    Failure(code, Cut(if Text.TrimSpace(text) == "" then PLAIN_MESSAGE else Text.TrimSpace(text)))
  }

  lemma CutIsSolid(message: string)
    requires message != "" && !Text.IsSpace(message[0])
    ensures Text.TrimSpace(Cut(message)) != "" && |Cut(message)| <= 4_096
  {
    Text.TrimSpaceSolid(Cut(message));
  }

  /** Whatever an error says, the failure made of it is one a record accepts. */
  lemma NewFailureIsValid(code: string, text: string)
    requires code != "" && |code| <= 128
    ensures ValidFailure(NewFailure(code, text))
  {
    if Text.TrimSpace(text) == "" {
      assert PLAIN_MESSAGE[0] == 'o';
      CutIsSolid(PLAIN_MESSAGE);
    } else {
      CutIsSolid(Text.TrimSpace(text));
    }
  }

  /** It keeps the code and says what the error says, as far as fits, or that something
      failed when the error says nothing. */
  lemma NewFailureSays(code: string, text: string)
    ensures var failure, said := NewFailure(code, text), Text.TrimSpace(text);
            && failure.Failure? && failure.code == code
            && (said == "" ==> failure.message == "operation failed")
            && (said != "" ==> failure.message <= said && |failure.message| == if |said| > 4_096 then 4_096 else |said|)
  {
  }

  /** Execution.Validate, times and identifiers aside. */
  predicate Valid(row: Row) {
    && |row.logs| <= MAX_LOG_BYTES
    && match row.status {
      case Queued => row.output.None? && row.failure.None? && row.logs == ""
      case Running => row.output.None? && row.failure.None?
      case Succeeded => row.output.Some? && |row.output.value| <= MAX_INLINE_OUTPUT_BYTES && row.failure.None?
      case Failed => row.output.None? && row.failure.Some? && ValidFailure(row.failure.value)
    }
  }

  /** What a handler's run came to. */
  datatype Outcome = Returned(output: string, logs: string) | Broke(failure: Failure, logs: string)

  /** Succeed or Fail, before validation. */
  function Finished(row: Row, outcome: Outcome): Row {
    match outcome
    case Returned(output, logs) => row.(status := Succeeded, output := Some(output), failure := None, logs := logs)
    case Broke(failure, logs) => row.(status := Failed, output := None, failure := Some(failure), logs := logs)
  }

  // ---- statements ------------------------------------------------------------

  /** What a process can have under way at the database. SaveLogs sends the trim of what
      the handler had written when the flusher took it. */
  datatype Statement = SaveLogs(id: Id, prefix: string) | Finalize(id: Id, outcome: Outcome, claimed: Row)

  /** An UPDATE of running rows only; the table refuses logs over the bound. */
  function Logged(row: Row, logs: string): Row {
    if row.status.Running? && |logs| <= MAX_LOG_BYTES then row.(logs := logs, version := row.version + 1) else row
  }

  /** ValidateTransitionTo, times aside. */
  predicate SameExecution(row: Row, next: Row) {
    row.build == next.build && row.input == next.input && row.rerunOf == next.rerunOf
  }

  /** Finalize: a compare-and-set on a running row. */
  function Finalized(row: Row, final: Row): Row {
    if row.status.Running? && SameExecution(row, final) && Terminal(final.status) && Valid(final) then
      final.(version := row.version + 1)
    else row
  }

  function Recovered(row: Row): Row {
    if row.status.Running? then
      row.(status := Failed, output := None, failure := Some(WorkerRestarted), version := row.version + 1)
    else row
  }

  function Claimed(row: Row): Row {
    row.(status := Running, output := None, failure := None, logs := "", version := row.version + 1)
  }

  // ---- the state -------------------------------------------------------------

  /** What has ever happened to an execution. `saves` has what was written by the time
      of each SaveLogs call. */
  datatype History = History(claims: nat, runs: seq<BuildId>, wrote: string, saves: seq<string>,
                             outcome: Option<Outcome>, finalizing: bool, finishes: nat)

  const UNTOUCHED: History := History(0, [], "", [], None, false, 0)

  datatype Execution = Execution(row: Row, past: History)

  /** logStream's flusher: in its select, inside SaveLogs, or returned. */
  datatype Flusher = Waiting | Holding(prefix: string) | Gone

  datatype Stream = Stream(buffer: string, written: bool)

  datatype Stage =
    | Preparing
    | Streaming(stream: Stream, flusher: Flusher)
    | Stopping(stream: Stream, flusher: Flusher, result: Outcome)
    | Finishing(final: Outcome)

  /** A ProcessOne under way; `claimed` is the record ClaimQueued handed over. */
  datatype Job = Job(id: Id, claimed: Row, stage: Stage)

  /** Workers without a job are idle. `loose` are statements whose caller is gone or
      has given up and that the database may still carry out, or drop. */
  datatype State = State(executions: map<Id, Execution>, jobs: map<WorkerId, Job>, loose: set<Statement>)

  /** How a database call ends: it is carried out, it is not, or it still may be. */
  datatype Fate = Lands | Lost | Late

  datatype Event =
    | Create(id: Id, build: BuildId, input: string)
    | Rerun(id: Id, of: Id)
    | Claim(worker: WorkerId, id: Id, heard: bool)
    | GiveUp(worker: WorkerId, failure: Failure)
    | Start(worker: WorkerId)
    | Write(worker: WorkerId, payload: string)
    | Take(worker: WorkerId)
    | Persist(worker: WorkerId, fate: Fate)
    | Return(worker: WorkerId, result: Outcome)
    | FlusherStops(worker: WorkerId)
    | Conclude(worker: WorkerId)
    | Finish(worker: WorkerId, fate: Fate)
    | Crash(worker: WorkerId)
    | Land(statement: Statement)
    | Drop(statement: Statement)
    | Recover

  function Fresh(build: BuildId, input: string, rerunOf: Option<Id>): Execution {
    Execution(Row(build, input, rerunOf, Queued, None, None, "", 1), UNTOUCHED)
  }

  function Update(e: Execution, row: Row): Execution {
    e.(row := row, past := e.past.(finishes :=
      e.past.finishes + if !Terminal(e.row.status) && Terminal(row.status) then 1 else 0))
  }

  /** The effect of a statement on its row. */
  function Applied(e: Execution, statement: Statement): Execution {
    match statement
    case SaveLogs(_, prefix) => Update(e, Logged(e.row, Text.TrimSpace(prefix)))
    case Finalize(_, outcome, claimed) => Update(e, Finalized(e.row, Finished(claimed, outcome)))
  }

  function Carried(s: State, statement: Statement): State
    requires statement.id in s.executions
  {
    s.(executions := s.executions[statement.id := Applied(s.executions[statement.id], statement)])
  }

  function Issued(s: State, statement: Statement, fate: Fate): State
    requires statement.id in s.executions
  {
    match fate
    case Lands => Carried(s, statement)
    case Lost => s
    case Late => s.(loose := s.loose + {statement})
  }

  predicate HasStream(stage: Stage) {
    stage.Streaming? || stage.Stopping?
  }

  function WithStream(stage: Stage, stream: Stream, flusher: Flusher): Stage
    requires HasStream(stage)
  {
    match stage
    case Streaming(_, _) => Streaming(stream, flusher)
    case Stopping(_, _, result) => Stopping(stream, flusher, result)
  }

  // ---- the steps -------------------------------------------------------------

  predicate Enabled(s: State, event: Event) {
    match event
    case Create(id, _, _) => id !in s.executions
    case Rerun(id, of) => id !in s.executions && of in s.executions && Terminal(s.executions[of].row.status)
    case Claim(w, id, _) => w !in s.jobs && id in s.executions && s.executions[id].row.status.Queued?
    case GiveUp(w, failure) => Busy(s, w) && s.jobs[w].stage.Preparing? && ValidFailure(failure)
    case Start(w) => Busy(s, w) && s.jobs[w].stage.Preparing?
    case Write(w, _) => Busy(s, w) && HasStream(s.jobs[w].stage)
    case Take(w) =>
      && Busy(s, w) && HasStream(s.jobs[w].stage) && s.jobs[w].stage.flusher.Waiting?
      && s.jobs[w].stage.stream.written
    case Persist(w, _) => Busy(s, w) && HasStream(s.jobs[w].stage) && s.jobs[w].stage.flusher.Holding?
    case Return(w, _) => Busy(s, w) && s.jobs[w].stage.Streaming?
    case FlusherStops(w) => Busy(s, w) && s.jobs[w].stage.Stopping? && s.jobs[w].stage.flusher.Waiting?
    case Conclude(w) => Busy(s, w) && s.jobs[w].stage.Stopping? && s.jobs[w].stage.flusher.Gone?
    case Finish(w, _) => Busy(s, w) && s.jobs[w].stage.Finishing?
    case Crash(w) => Busy(s, w)
    case Land(statement) => statement in s.loose && statement.id in s.executions
    case Drop(statement) => statement in s.loose
    case Recover => true
  }

  predicate Busy(s: State, w: WorkerId) {
    w in s.jobs && s.jobs[w].id in s.executions
  }

  function Staged(s: State, w: WorkerId, stage: Stage): State
    requires w in s.jobs
  {
    s.(jobs := s.jobs[w := s.jobs[w].(stage := stage)])
  }

  function Noted(s: State, id: Id, past: History): State
    requires id in s.executions
  {
    s.(executions := s.executions[id := s.executions[id].(past := past)])
  }

  function Idle(s: State, w: WorkerId): State {
    s.(jobs := s.jobs - {w})
  }

  /** The statement a worker is inside of, if any. */
  function UnderWay(job: Job): set<Statement> {
    if HasStream(job.stage) && job.stage.flusher.Holding? then {SaveLogs(job.id, job.stage.flusher.prefix)}
    else if job.stage.Finishing? then {Finalize(job.id, job.stage.final, job.claimed)}
    else {}
  }

  function Step(s: State, event: Event): State
    requires Enabled(s, event)
  {
    match event
    case Create(id, build, input) => s.(executions := s.executions[id := Fresh(build, input, None)])
    case Rerun(id, of) =>
      var original := s.executions[of].row;
      s.(executions := s.executions[id := Fresh(original.build, original.input, Some(of))])
    case Claim(w, id, heard) =>
      var e := s.executions[id];
      var claimed := Claimed(e.row);
      var taken := s.(executions := s.executions[id := Execution(claimed, e.past.(claims := e.past.claims + 1))]);
      if heard then taken.(jobs := s.jobs[w := Job(id, claimed, Preparing)]) else taken
    case GiveUp(w, failure) =>
      var job := s.jobs[w];
      var past := s.executions[job.id].past;
      Staged(Noted(s, job.id, past.(outcome := Some(Broke(failure, "")))), w, Finishing(Broke(failure, "")))
    case Start(w) =>
      var job := s.jobs[w];
      var past := s.executions[job.id].past;
      Staged(Noted(s, job.id, past.(runs := past.runs + [job.claimed.build])), w, Streaming(Stream("", false), Waiting))
    case Write(w, payload) =>
      var job := s.jobs[w];
      var past := s.executions[job.id].past;
      var stream := Stream(job.stage.stream.buffer + payload, true);
      Staged(Noted(s, job.id, past.(wrote := past.wrote + payload)), w,
             WithStream(job.stage, stream, job.stage.flusher))
    case Take(w) =>
      var job := s.jobs[w];
      var past := s.executions[job.id].past;
      var buffer := job.stage.stream.buffer;
      Staged(Noted(s, job.id, past.(saves := past.saves + [buffer])), w,
             WithStream(job.stage, Stream(buffer, false), Holding(buffer)))
    case Persist(w, fate) =>
      var job := s.jobs[w];
      Issued(Staged(s, w, WithStream(job.stage, job.stage.stream, Waiting)),
             SaveLogs(job.id, job.stage.flusher.prefix), fate)
    case Return(w, result) =>
      var job := s.jobs[w];
      var past := s.executions[job.id].past;
      Staged(Noted(s, job.id, past.(outcome := Some(result))), w, Stopping(job.stage.stream, job.stage.flusher, result))
    case FlusherStops(w) =>
      var job := s.jobs[w];
      Staged(s, w, WithStream(job.stage, job.stage.stream, Gone))
    case Conclude(w) =>
      var job := s.jobs[w];
      if Valid(Finished(job.claimed, job.stage.result)) then Staged(s, w, Finishing(job.stage.result)) else Idle(s, w)
    case Finish(w, fate) =>
      var job := s.jobs[w];
      var past := s.executions[job.id].past;
      Issued(Idle(Noted(s, job.id, past.(finalizing := true)), w), Finalize(job.id, job.stage.final, job.claimed), fate)
    case Crash(w) => Idle(s, w).(loose := s.loose + UnderWay(s.jobs[w]))
    case Land(statement) => Carried(s, statement).(loose := s.loose - {statement})
    case Drop(statement) => s.(loose := s.loose - {statement})
    case Recover =>
      s.(executions := map id | id in s.executions :: Update(s.executions[id], Recovered(s.executions[id].row)))
  }

  // ---- what every step keeps -------------------------------------------------

  /** The calls saw growing prefixes of what the handler wrote. */
  ghost predicate SavesFollow(saves: seq<string>, wrote: string) {
    && (forall i :: 0 <= i < |saves| ==> saves[i] <= wrote)
    && (forall i, j :: 0 <= i < j < |saves| ==> saves[i] <= saves[j])
  }

  ghost predicate WasSaved(logs: string, saves: seq<string>) {
    exists i :: 0 <= i < |saves| && logs == Text.TrimSpace(saves[i])
  }

  /** How a terminal row came about: recovery kept logs that had been saved, and
      otherwise the row is the handler's outcome. */
  ghost predicate Ended(row: Row, past: History) {
    || (row.status.Failed? && row.output.None? && row.failure == Some(WorkerRestarted)
        && (row.logs == "" || WasSaved(row.logs, past.saves)))
    || (past.outcome.Some? && row == Finished(row, past.outcome.value))
  }

  ghost predicate Consistent(e: Execution) {
    && Valid(e.row)
    && e.past.claims == (if e.row.status.Queued? then 0 else 1)
    && e.past.finishes == (if Terminal(e.row.status) then 1 else 0)
    && (e.past.runs == [] || e.past.runs == [e.row.build])
    && SavesFollow(e.past.saves, e.past.wrote)
    && (e.row.status.Queued? ==> e.past == UNTOUCHED)
    && (e.row.status.Running? ==> e.row.logs == "" || WasSaved(e.row.logs, e.past.saves))
    && (Terminal(e.row.status) ==> Ended(e.row, e.past))
  }

  /** What a worker knows of the execution it has claimed. */
  ghost predicate Tracks(job: Job, e: Execution) {
    && !e.row.status.Queued? && !e.past.finalizing
    && job.claimed.status.Running? && SameExecution(e.row, job.claimed)
    && match job.stage {
      case Preparing => e.past == UNTOUCHED.(claims := 1, finishes := e.past.finishes)
      case Streaming(stream, flusher) =>
        e.past.outcome.None? && Follows(stream, flusher, e.past)
      case Stopping(stream, flusher, result) =>
        e.past.outcome == Some(result) && Follows(stream, flusher, e.past)
      case Finishing(final) => e.past.outcome == Some(final) && Valid(Finished(job.claimed, final))
    }
  }

  ghost predicate Follows(stream: Stream, flusher: Flusher, past: History) {
    stream.buffer == past.wrote && (flusher.Holding? ==> flusher.prefix in past.saves)
  }

  /** A statement that may still land says what its execution's history says. */
  ghost predicate Honest(statement: Statement, e: Execution) {
    && !e.row.status.Queued?
    && match statement {
      case SaveLogs(_, prefix) => prefix in e.past.saves
      case Finalize(_, outcome, claimed) =>
        e.past.outcome == Some(outcome) && SameExecution(e.row, claimed) && Valid(Finished(claimed, outcome))
    }
  }

  ghost predicate AllConsistent(executions: map<Id, Execution>) {
    forall id :: id in executions ==> Consistent(executions[id])
  }

  ghost predicate AllTracked(jobs: map<WorkerId, Job>, executions: map<Id, Execution>) {
    forall w :: w in jobs ==> jobs[w].id in executions && Tracks(jobs[w], executions[jobs[w].id])
  }

  /** No two workers have the same execution. */
  ghost predicate Exclusive(jobs: map<WorkerId, Job>) {
    forall v, w :: v in jobs && w in jobs && v != w ==> jobs[v].id != jobs[w].id
  }

  ghost predicate AllHonest(loose: set<Statement>, executions: map<Id, Execution>) {
    forall t :: t in loose ==> t.id in executions && Honest(t, executions[t.id])
  }

  ghost predicate Inv(s: State) {
    && AllConsistent(s.executions)
    && AllTracked(s.jobs, s.executions)
    && Exclusive(s.jobs)
    && AllHonest(s.loose, s.executions)
  }

  // ---- what never changes ----------------------------------------------------

  function Rank(status: Status): nat {
    match status
    case Queued => 0
    case Running => 1
    case Succeeded => 2
    case Failed => 2
  }

  /** `later` is a possible future of `e`. */
  ghost predicate Future(e: Execution, later: Execution) {
    && SameExecution(e.row, later.row)
    && Rank(e.row.status) <= Rank(later.row.status)
    && (Terminal(e.row.status) ==> later.row == e.row)
    && e.past.wrote <= later.past.wrote
    && e.past.saves <= later.past.saves
    && (e.past.outcome.Some? ==> later.past.outcome == e.past.outcome)
    && (e.past.finalizing ==> later.past.finalizing && later.past.saves == e.past.saves)
  }

  ghost predicate Advances(s: State, t: State) {
    forall id :: id in s.executions ==> id in t.executions && Future(s.executions[id], t.executions[id])
  }

  lemma FutureReflexive(e: Execution)
    ensures Future(e, e)
  {
  }

  lemma SavedStays(logs: string, saves: seq<string>, more: seq<string>)
    requires WasSaved(logs, saves) && saves <= more
    ensures WasSaved(logs, more)
  {
    var i :| 0 <= i < |saves| && logs == Text.TrimSpace(saves[i]);
    assert more[i] == saves[i];
  }

  lemma LooseStay(before: map<Id, Execution>, id: Id, e: Execution, loose: set<Statement>, more: set<Statement>)
    requires AllHonest(loose, before) && (id in before ==> Future(before[id], e))
    requires forall x :: x in more ==> x.id == id && Honest(x, e)
    ensures AllHonest(loose + more, before[id := e])
  {
  }

  lemma OneAdvances(s: State, t: State, id: Id, e: Execution)
    requires t.executions == s.executions[id := e] && (id in s.executions ==> Future(s.executions[id], e))
    ensures Advances(s, t)
  {
  }

  /** One execution moves on and, with it, what the worker that has it knows. */
  lemma OneMoves(s: State, t: State, id: Id, e: Execution, more: set<Statement>)
    requires Inv(s) && Consistent(e) && Exclusive(t.jobs)
    requires t.executions == s.executions[id := e] && t.loose <= s.loose + more
    requires id in s.executions ==> Future(s.executions[id], e)
    requires forall w :: w in t.jobs ==>
                           if t.jobs[w].id == id then Tracks(t.jobs[w], e)
                           else w in s.jobs && t.jobs[w] == s.jobs[w]
    requires forall x :: x in more ==> x.id == id && Honest(x, e)
    ensures Inv(t) && Advances(s, t)
  {
    OneAdvances(s, t, id, e);
    LooseStay(s.executions, id, e, s.loose, more);
  }

  /** The worker with a job takes a step. */
  lemma JobMoves(s: State, t: State, w: WorkerId, e: Execution, job: Job, more: set<Statement>)
    requires Inv(s) && w in s.jobs && job.id == s.jobs[w].id
    requires t == State(s.executions[job.id := e], s.jobs[w := job], s.loose + more)
    requires Consistent(e) && Future(s.executions[job.id], e) && Tracks(job, e)
    requires forall x :: x in more ==> x.id == job.id && Honest(x, e)
    ensures Inv(t) && Advances(s, t)
  {
    OneMoves(s, t, job.id, e, more);
  }

  /** The worker with a job drops it. */
  lemma JobEnds(s: State, t: State, w: WorkerId, e: Execution, more: set<Statement>)
    requires Inv(s) && w in s.jobs
    requires t == State(s.executions[s.jobs[w].id := e], s.jobs - {w}, s.loose + more)
    requires Consistent(e) && Future(s.executions[s.jobs[w].id], e)
    requires forall x :: x in more ==> x.id == s.jobs[w].id && Honest(x, e)
    ensures Inv(t) && Advances(s, t)
  {
    OneMoves(s, t, s.jobs[w].id, e, more);
  }

  lemma TracksUpdate(job: Job, e: Execution, row: Row)
    requires Tracks(job, e) && SameExecution(e.row, row) && !row.status.Queued?
    ensures Tracks(job, Update(e, row))
  {
  }

  /** A row changes under the feet of whoever has it. */
  lemma RowMoves(s: State, t: State, id: Id, row: Row)
    requires Inv(s) && id in s.executions && !row.status.Queued?
    requires t.executions == s.executions[id := Update(s.executions[id], row)] && t.jobs == s.jobs && t.loose <= s.loose
    requires Consistent(Update(s.executions[id], row)) && Future(s.executions[id], Update(s.executions[id], row))
    ensures Inv(t) && Advances(s, t)
  {
    forall w | w in t.jobs && t.jobs[w].id == id ensures Tracks(t.jobs[w], t.executions[id]) {
      TracksUpdate(s.jobs[w], s.executions[id], row);
    }
    OneMoves(s, t, id, Update(s.executions[id], row), {});
  }

  // ---- the effect of a statement ---------------------------------------------

  lemma LogsApply(e: Execution, logs: string)
    requires Consistent(e) && WasSaved(logs, e.past.saves) && !e.row.status.Queued?
    ensures Consistent(Update(e, Logged(e.row, logs))) && Future(e, Update(e, Logged(e.row, logs)))
    ensures var later := Update(e, Logged(e.row, logs));
            if e.row.status.Running? && |logs| <= MAX_LOG_BYTES then
              later.past == e.past && later.row == e.row.(logs := logs, version := later.row.version)
            else later == e
  {
  }

  lemma FinalizeApplies(e: Execution, outcome: Outcome, claimed: Row)
    requires Consistent(e) && e.past.outcome == Some(outcome) && SameExecution(e.row, claimed) && !e.row.status.Queued?
    ensures var later := Update(e, Finalized(e.row, Finished(claimed, outcome)));
            && Consistent(later) && Future(e, later)
            && if e.row.status.Running? && Valid(Finished(claimed, outcome)) then
                 later.row == Finished(later.row, outcome) && later.past.finishes == e.past.finishes + 1
               else later == e
  {
  }

  lemma StatementApplies(e: Execution, statement: Statement)
    requires Consistent(e) && Honest(statement, e)
    ensures Consistent(Applied(e, statement)) && Future(e, Applied(e, statement))
    ensures exists row :: Applied(e, statement) == Update(e, row) && SameExecution(e.row, row) && !row.status.Queued?
  {
    match statement
    case SaveLogs(_, prefix) =>
      var logs := Text.TrimSpace(prefix);
      var i :| 0 <= i < |e.past.saves| && e.past.saves[i] == prefix;
      LogsApply(e, logs);
      assert Applied(e, statement) == Update(e, Logged(e.row, logs));
    case Finalize(_, outcome, claimed) =>
      FinalizeApplies(e, outcome, claimed);
      assert Applied(e, statement) == Update(e, Finalized(e.row, Finished(claimed, outcome)));
  }

  lemma RecoveryApplies(e: Execution)
    requires Consistent(e)
    ensures Consistent(Update(e, Recovered(e.row))) && Future(e, Update(e, Recovered(e.row)))
  {
  }

  /** A statement carried out, by its worker or after it is gone, keeps everything. */
  lemma StatementCarried(s: State, statement: Statement, t: State)
    requires Inv(s) && statement.id in s.executions && Honest(statement, s.executions[statement.id])
    requires t == Carried(s, statement).(loose := t.loose) && t.loose <= s.loose
    ensures Inv(t) && Advances(s, t)
  {
    var e := s.executions[statement.id];
    StatementApplies(e, statement);
    var row :| Applied(e, statement) == Update(e, row) && SameExecution(e.row, row) && !row.status.Queued?;
    RowMoves(s, t, statement.id, row);
  }

  // ---- the steps -------------------------------------------------------------

  lemma CreateKeeps(s: State, id: Id, build: BuildId, input: string, rerunOf: Option<Id>)
    requires Inv(s) && id !in s.executions
    ensures var t := s.(executions := s.executions[id := Fresh(build, input, rerunOf)]);
            Inv(t) && Advances(s, t)
  {
    var e := Fresh(build, input, rerunOf);
    OneMoves(s, s.(executions := s.executions[id := e]), id, e, {});
  }

  lemma ClaimKeeps(s: State, w: WorkerId, id: Id, heard: bool)
    requires Inv(s) && Enabled(s, Claim(w, id, heard))
    ensures forall v :: v in s.jobs ==> s.jobs[v].id != id
    ensures Inv(Step(s, Claim(w, id, heard))) && Advances(s, Step(s, Claim(w, id, heard)))
  {
    var t := Step(s, Claim(w, id, heard));
    forall v | v in s.jobs ensures s.jobs[v].id != id {
      assert Tracks(s.jobs[v], s.executions[s.jobs[v].id]);
    }
    OneMoves(s, t, id, t.executions[id], {});
  }

  lemma GiveUpKeeps(s: State, w: WorkerId, failure: Failure)
    requires Inv(s) && Enabled(s, GiveUp(w, failure))
    ensures Inv(Step(s, GiveUp(w, failure))) && Advances(s, Step(s, GiveUp(w, failure)))
  {
    var job := s.jobs[w];
    var e := s.executions[job.id];
    var outcome := Broke(failure, "");
    JobMoves(s, Step(s, GiveUp(w, failure)), w, e.(past := e.past.(outcome := Some(outcome))),
             job.(stage := Finishing(outcome)), {});
  }

  lemma StartKeeps(s: State, w: WorkerId)
    requires Inv(s) && Enabled(s, Start(w))
    ensures Inv(Step(s, Start(w))) && Advances(s, Step(s, Start(w)))
  {
    var job := s.jobs[w];
    var e := s.executions[job.id];
    assert e.past.runs + [job.claimed.build] == [e.row.build];
    JobMoves(s, Step(s, Start(w)), w, e.(past := e.past.(runs := e.past.runs + [job.claimed.build])),
             job.(stage := Streaming(Stream("", false), Waiting)), {});
  }

  lemma WriteKeeps(s: State, w: WorkerId, payload: string)
    requires Inv(s) && Enabled(s, Write(w, payload))
    ensures Inv(Step(s, Write(w, payload))) && Advances(s, Step(s, Write(w, payload)))
  {
    var t := Step(s, Write(w, payload));
    var job := s.jobs[w];
    var e := s.executions[job.id];
    var later := e.(past := e.past.(wrote := e.past.wrote + payload));
    assert e.past.wrote <= later.past.wrote;
    JobMoves(s, t, w, later, t.jobs[w], {});
  }

  lemma TakeAdvances(e: Execution)
    requires Consistent(e) && !e.row.status.Queued? && !e.past.finalizing
    ensures var later := e.(past := e.past.(saves := e.past.saves + [e.past.wrote]));
            Consistent(later) && Future(e, later)
  {
    if WasSaved(e.row.logs, e.past.saves) {
      SavedStays(e.row.logs, e.past.saves, e.past.saves + [e.past.wrote]);
    }
  }

  lemma TakeKeeps(s: State, w: WorkerId)
    requires Inv(s) && Enabled(s, Take(w))
    ensures Inv(Step(s, Take(w))) && Advances(s, Step(s, Take(w)))
  {
    var t := Step(s, Take(w));
    var job := s.jobs[w];
    TakeAdvances(s.executions[job.id]);
    JobMoves(s, t, w, t.executions[job.id], t.jobs[w], {});
  }

  /** A call the worker makes from a state that already accounts for it. */
  lemma IssueKeeps(s: State, t: State, statement: Statement, fate: Fate)
    requires Inv(t) && Advances(s, t)
    requires statement.id in t.executions && Honest(statement, t.executions[statement.id])
    ensures Inv(Issued(t, statement, fate)) && Advances(s, Issued(t, statement, fate))
  {
    if fate.Lands? {
      StatementCarried(t, statement, Carried(t, statement));
      AdvancesTransitive(s, t, Carried(t, statement));
    }
  }

  lemma FutureTransitive(a: Execution, b: Execution, c: Execution)
    requires Future(a, b) && Future(b, c)
    ensures Future(a, c)
  {
  }

  lemma AdvancesReflexive(s: State)
    ensures Advances(s, s)
  {
  }

  lemma AdvancesTransitive(a: State, b: State, c: State)
    requires Advances(a, b) && Advances(b, c)
    ensures Advances(a, c)
  {
  }

  /** Steps that leave the table alone. */
  lemma StageKeeps(s: State, w: WorkerId, stage: Stage)
    requires Inv(s) && Busy(s, w) && Tracks(s.jobs[w].(stage := stage), s.executions[s.jobs[w].id])
    ensures Inv(Staged(s, w, stage)) && Advances(s, Staged(s, w, stage))
  {
    var job := s.jobs[w];
    var e := s.executions[job.id];
    FutureReflexive(e);
    assert s.executions[job.id := e] == s.executions;
    JobMoves(s, Staged(s, w, stage), w, e, job.(stage := stage), {});
  }

  lemma PersistStage(job: Job, e: Execution)
    requires Tracks(job, e) && HasStream(job.stage) && job.stage.flusher.Holding?
    ensures Tracks(job.(stage := WithStream(job.stage, job.stage.stream, Waiting)), e)
    ensures job.stage.flusher.prefix in e.past.saves
  {
  }

  lemma PersistKeeps(s: State, w: WorkerId, fate: Fate)
    requires Inv(s) && Enabled(s, Persist(w, fate))
    ensures Inv(Step(s, Persist(w, fate))) && Advances(s, Step(s, Persist(w, fate)))
  {
    var job := s.jobs[w];
    var stage := WithStream(job.stage, job.stage.stream, Waiting);
    PersistStage(job, s.executions[job.id]);
    StageKeeps(s, w, stage);
    IssueKeeps(s, Staged(s, w, stage), SaveLogs(job.id, job.stage.flusher.prefix), fate);
  }

  lemma ReturnKeeps(s: State, w: WorkerId, result: Outcome)
    requires Inv(s) && Enabled(s, Return(w, result))
    ensures Inv(Step(s, Return(w, result))) && Advances(s, Step(s, Return(w, result)))
  {
    var t := Step(s, Return(w, result));
    var job := s.jobs[w];
    var e := s.executions[job.id];
    JobMoves(s, t, w, e.(past := e.past.(outcome := Some(result))), t.jobs[w], {});
  }

  lemma StopKeeps(s: State, w: WorkerId)
    requires Inv(s) && Enabled(s, FlusherStops(w))
    ensures Inv(Step(s, FlusherStops(w))) && Advances(s, Step(s, FlusherStops(w)))
  {
    var stage := s.jobs[w].stage;
    StageKeeps(s, w, WithStream(stage, stage.stream, Gone));
  }

  lemma UnderWayHonest(job: Job, e: Execution)
    requires Tracks(job, e)
    ensures forall x :: x in UnderWay(job) ==> x.id == job.id && Honest(x, e)
  {
  }

  lemma LetGoKeeps(s: State, w: WorkerId, more: set<Statement>)
    requires Inv(s) && Busy(s, w) && more <= UnderWay(s.jobs[w])
    ensures var t := Idle(s, w).(loose := s.loose + more);
            Inv(t) && Advances(s, t)
  {
    var job := s.jobs[w];
    var e := s.executions[job.id];
    FutureReflexive(e);
    assert s.executions[job.id := e] == s.executions;
    UnderWayHonest(job, e);
    JobEnds(s, Idle(s, w).(loose := s.loose + more), w, e, more);
  }

  lemma ConcludeKeeps(s: State, w: WorkerId)
    requires Inv(s) && Enabled(s, Conclude(w))
    ensures Inv(Step(s, Conclude(w))) && Advances(s, Step(s, Conclude(w)))
  {
    var job := s.jobs[w];
    if Valid(Finished(job.claimed, job.stage.result)) {
      StageKeeps(s, w, Finishing(job.stage.result));
    } else {
      LetGoKeeps(s, w, {});
      assert Idle(s, w) == Idle(s, w).(loose := s.loose + {});
    }
  }

  lemma FinishKeeps(s: State, w: WorkerId, fate: Fate)
    requires Inv(s) && Enabled(s, Finish(w, fate))
    ensures Inv(Step(s, Finish(w, fate))) && Advances(s, Step(s, Finish(w, fate)))
  {
    var job := s.jobs[w];
    var e := s.executions[job.id];
    var later := e.(past := e.past.(finalizing := true));
    var t := Idle(Noted(s, job.id, later.past), w);
    JobEnds(s, t, w, later, {});
    IssueKeeps(s, t, Finalize(job.id, job.stage.final, job.claimed), fate);
  }

  lemma RecoverAdvances(s: State)
    requires Inv(s)
    ensures AllConsistent(Step(s, Recover).executions) && Advances(s, Step(s, Recover))
  {
    forall id | id in s.executions
      ensures Consistent(Step(s, Recover).executions[id])
      ensures Future(s.executions[id], Step(s, Recover).executions[id])
    {
      RecoveryApplies(s.executions[id]);
    }
  }

  lemma RecoverKeeps(s: State)
    requires Inv(s)
    ensures Inv(Step(s, Recover)) && Advances(s, Step(s, Recover))
  {
    var t := Step(s, Recover);
    RecoverAdvances(s);
    assert AllTracked(t.jobs, t.executions) by {
      forall w | w in s.jobs ensures Tracks(t.jobs[w], t.executions[t.jobs[w].id]) {
        TracksUpdate(s.jobs[w], s.executions[s.jobs[w].id], Recovered(s.executions[s.jobs[w].id].row));
      }
    }
    AdvanceHonest(s, t);
  }

  lemma AdvanceHonest(s: State, t: State)
    requires Inv(s) && Advances(s, t) && t.loose == s.loose
    ensures AllHonest(t.loose, t.executions)
  {
  }

  lemma WorkKeeps(s: State, event: Event)
    requires Inv(s) && Enabled(s, event)
    requires event.Start? || event.Write? || event.Take? || event.Persist? || event.Return? || event.FlusherStops?
    ensures Inv(Step(s, event)) && Advances(s, Step(s, event))
  {
    match event
    case Start(w) => StartKeeps(s, w);
    case Write(w, payload) => WriteKeeps(s, w, payload);
    case Take(w) => TakeKeeps(s, w);
    case Persist(w, fate) => PersistKeeps(s, w, fate);
    case Return(w, result) => ReturnKeeps(s, w, result);
    case FlusherStops(w) => StopKeeps(s, w);
  }

  lemma EndKeeps(s: State, event: Event)
    requires Inv(s) && Enabled(s, event)
    requires event.GiveUp? || event.Conclude? || event.Finish? || event.Crash?
    ensures Inv(Step(s, event)) && Advances(s, Step(s, event))
  {
    match event
    case GiveUp(w, failure) => GiveUpKeeps(s, w, failure);
    case Conclude(w) => ConcludeKeeps(s, w);
    case Finish(w, fate) => FinishKeeps(s, w, fate);
    case Crash(w) => LetGoKeeps(s, w, UnderWay(s.jobs[w]));
  }

  lemma DropKeeps(s: State, statement: Statement)
    requires Inv(s)
    ensures Inv(s.(loose := s.loose - {statement})) && Advances(s, s.(loose := s.loose - {statement}))
  {
    AdvancesReflexive(s);
  }

  lemma TableKeeps(s: State, event: Event)
    requires Inv(s) && Enabled(s, event)
    requires event.Create? || event.Rerun? || event.Claim? || event.Land? || event.Drop? || event.Recover?
    ensures Inv(Step(s, event)) && Advances(s, Step(s, event))
  {
    match event
    case Create(id, build, input) => CreateKeeps(s, id, build, input, None);
    case Rerun(id, of) => CreateKeeps(s, id, s.executions[of].row.build, s.executions[of].row.input, Some(of));
    case Claim(w, id, heard) => ClaimKeeps(s, w, id, heard);
    case Land(statement) => StatementCarried(s, statement, Step(s, event));
    case Drop(statement) => DropKeeps(s, statement);
    case Recover => RecoverKeeps(s);
  }

  ghost predicate Next(s: State, event: Event, t: State) {
    Enabled(s, event) && t == Step(s, event)
  }

  /** Every step keeps the invariant and takes every execution to a future of it. */
  lemma StepKeeps(s: State, event: Event, t: State)
    requires Inv(s) && Next(s, event, t)
    ensures Inv(t) && Advances(s, t)
  {
    if event.GiveUp? || event.Conclude? || event.Finish? || event.Crash? {
      EndKeeps(s, event);
    } else if event.Create? || event.Rerun? || event.Claim? || event.Land? || event.Drop? || event.Recover? {
      TableKeeps(s, event);
    } else {
      WorkKeeps(s, event);
    }
  }

  // ---- whole runs ------------------------------------------------------------

  /** A run: an empty table and idle workers, then any enabled steps. */
  ghost predicate IsRun(states: seq<State>, events: seq<Event>) {
    Runs.IsRun(states, events, Next) && states[0] == State(map[], map[], {})
  }

  lemma NextKeeps()
    ensures Runs.Keeps(Next, Inv, Advances) && Runs.Preorder(Advances)
  {
    forall s, event, t | Inv(s) && Next(s, event, t) ensures Inv(t) && Advances(s, t) {
      StepKeeps(s, event, t);
    }
    forall s ensures Advances(s, s) {
      AdvancesReflexive(s);
    }
    forall s, t, u | Advances(s, t) && Advances(t, u) ensures Advances(s, u) {
      AdvancesTransitive(s, t, u);
    }
  }

  lemma RunInvariant(states: seq<State>, events: seq<Event>, n: nat)
    requires IsRun(states, events) && n < |states|
    ensures Inv(states[n])
  {
    NextKeeps();
    Runs.RunKeeps(states, events, Next, Inv, Advances, n);
  }

  lemma RunAdvances(states: seq<State>, events: seq<Event>, m: nat, n: nat)
    requires IsRun(states, events) && m <= n < |states|
    ensures Advances(states[m], states[n])
  {
    NextKeeps();
    Runs.RunAdvances(states, events, Next, Inv, Advances, m, n);
  }

  /** In every run each execution is claimed at most once, run at most once and only
      with its pinned build, and ends at most once. */
  lemma OncePerExecution(states: seq<State>, events: seq<Event>, n: nat, id: Id)
    requires IsRun(states, events) && n < |states| && id in states[n].executions
    ensures var e := states[n].executions[id];
            && e.past.claims <= 1
            && e.past.finishes <= 1
            && (e.past.runs == [] || e.past.runs == [e.row.build])
            && (e.past.claims == 0 <==> e.row.status.Queued?)
            && (e.past.finishes == 1 <==> Terminal(e.row.status))
  {
    RunInvariant(states, events, n);
  }

  /** No two workers ever have the same execution in hand. */
  lemma OneWorkerPerExecution(states: seq<State>, events: seq<Event>, n: nat, v: WorkerId, w: WorkerId)
    requires IsRun(states, events) && n < |states|
    requires v in states[n].jobs && w in states[n].jobs && v != w
    ensures states[n].jobs[v].id != states[n].jobs[w].id
  {
    RunInvariant(states, events, n);
  }

  /** Build, input and lineage never change, and a terminal row never changes at all:
      neither a late SaveLogs, nor a second Finalize, nor a recovery touches it. */
  lemma TerminalIsForever(states: seq<State>, events: seq<Event>, m: nat, n: nat, id: Id)
    requires IsRun(states, events) && m <= n < |states| && id in states[m].executions
    ensures id in states[n].executions
    ensures SameExecution(states[m].executions[id].row, states[n].executions[id].row)
    ensures Terminal(states[m].executions[id].row.status) ==>
              states[n].executions[id].row == states[m].executions[id].row
  {
    RunAdvances(states, events, m, n);
  }

  /** Once a worker has called Finalize for an execution, nobody calls SaveLogs for it. */
  lemma NoSaveAfterFinalize(states: seq<State>, events: seq<Event>, m: nat, n: nat, id: Id)
    requires IsRun(states, events) && m <= n < |states| && id in states[m].executions
    requires states[m].executions[id].past.finalizing
    ensures id in states[n].executions
    ensures states[n].executions[id].past.saves == states[m].executions[id].past.saves
    ensures forall w :: w in states[n].jobs ==> states[n].jobs[w].id != id
  {
    RunAdvances(states, events, m, n);
    RunInvariant(states, events, n);
  }

  /** The SaveLogs values are trims of growing prefixes of what the handler wrote. */
  lemma SavesAreGrowingTrims(states: seq<State>, events: seq<Event>, n: nat, id: Id)
    requires IsRun(states, events) && n < |states| && id in states[n].executions
    ensures SavesFollow(states[n].executions[id].past.saves, states[n].executions[id].past.wrote)
  {
    RunInvariant(states, events, n);
  }

  /** A terminal row is either the handler's outcome, its logs included, or recovery's
      failure over logs that were saved, or none. */
  lemma TerminalRowIsTrue(states: seq<State>, events: seq<Event>, n: nat, id: Id)
    requires IsRun(states, events) && n < |states| && id in states[n].executions
    requires Terminal(states[n].executions[id].row.status)
    ensures Valid(states[n].executions[id].row) && Ended(states[n].executions[id].row, states[n].executions[id].past)
  {
    RunInvariant(states, events, n);
  }
}
