/** Executions left running with nobody to finish them, and what becomes of them. */
module Orphans {
  import opened Wrappers
  import opened WorkerProtocol
  import Logs
  import Runs

  ghost predicate NoWorker(s: State, id: Id) {
    forall w :: w in s.jobs ==> s.jobs[w].id != id
  }

  ghost predicate NoFinalize(s: State, id: Id) {
    forall x :: x in s.loose && x.Finalize? ==> x.id != id
  }

  /** A running row that no worker has and no Finalize is on its way to. */
  ghost predicate Orphaned(s: State, id: Id) {
    id in s.executions && s.executions[id].row.status.Running? && NoWorker(s, id) && NoFinalize(s, id)
  }

  /** Whoever has an execution has not sent its Finalize yet, and it is sent only once. */
  ghost predicate Separate(s: State) {
    && (forall w :: w in s.jobs ==> NoFinalize(s, s.jobs[w].id))
    && (forall x, y :: x in s.loose && y in s.loose && x.Finalize? && y.Finalize? && x.id == y.id ==> x == y)
  }

  ghost predicate Sound(s: State) {
    Inv(s) && Separate(s)
  }

  // ---- the invariant ---------------------------------------------------------

  lemma ClaimSeparate(s: State, w: WorkerId, id: Id, heard: bool)
    requires Sound(s) && Enabled(s, Claim(w, id, heard))
    ensures Separate(Step(s, Claim(w, id, heard)))
  {
    forall x | x in s.loose && x.Finalize? ensures x.id != id {
      assert Honest(x, s.executions[x.id]);
    }
  }

  lemma SentSeparate(s: State, t: State, w: WorkerId, more: set<Statement>)
    requires Sound(s) && w in s.jobs && t.jobs == s.jobs - {w} && t.loose <= s.loose + more
    requires forall x :: x in more ==> x.id == s.jobs[w].id
    requires forall x, y :: x in more && y in more ==> x == y
    ensures Separate(t)
  {
  }

  /** The same jobs or fewer, at whatever stage, and no new Finalize. */
  ghost predicate NothingSent(s: State, t: State) {
    && (forall w :: w in t.jobs ==> w in s.jobs && t.jobs[w].id == s.jobs[w].id)
    && (forall x :: x in t.loose && x.Finalize? ==> x in s.loose)
  }

  lemma QuietSeparate(s: State, t: State)
    requires Separate(s) && NothingSent(s, t)
    ensures Separate(t)
  {
  }

  predicate IsWork(event: Event) {
    || event.GiveUp? || event.Start? || event.Write? || event.Take? || event.Persist? || event.Return?
    || event.FlusherStops?
  }

  lemma WorkSendsNothing(s: State, event: Event)
    requires Enabled(s, event) && IsWork(event)
    ensures NothingSent(s, Step(s, event)) && Step(s, event).jobs.Keys == s.jobs.Keys
  {
  }

  lemma TableSendsNothing(s: State, event: Event)
    requires Enabled(s, event) && !IsWork(event)
    requires !event.Claim? && !event.Finish? && !event.Crash?
    ensures NothingSent(s, Step(s, event))
  {
  }

  lemma CrashSeparate(s: State, w: WorkerId)
    requires Sound(s) && Enabled(s, Crash(w))
    ensures Separate(Step(s, Crash(w)))
  {
    SentSeparate(s, Step(s, Crash(w)), w, UnderWay(s.jobs[w]));
  }

  lemma FinishSeparate(s: State, w: WorkerId, fate: Fate)
    requires Sound(s) && Enabled(s, Finish(w, fate))
    ensures Separate(Step(s, Finish(w, fate)))
  {
    var job := s.jobs[w];
    SentSeparate(s, Step(s, Finish(w, fate)), w, {Finalize(job.id, job.stage.final, job.claimed)});
  }

  lemma StepSeparate(s: State, event: Event)
    requires Sound(s) && Enabled(s, event)
    ensures Separate(Step(s, event))
  {
    if event.Claim? {
      ClaimSeparate(s, event.worker, event.id, event.heard);
    } else if event.Finish? {
      FinishSeparate(s, event.worker, event.fate);
    } else if event.Crash? {
      CrashSeparate(s, event.worker);
    } else {
      if IsWork(event) {
        WorkSendsNothing(s, event);
      } else {
        TableSendsNothing(s, event);
      }
      QuietSeparate(s, Step(s, event));
    }
  }

  ghost predicate Anything(s: State, t: State) {
    true
  }

  lemma SoundKeeps()
    ensures Runs.Keeps(Next, Sound, Anything)
  {
    forall s, event, t | Sound(s) && Next(s, event, t) ensures Sound(t) && Anything(s, t) {
      StepKeeps(s, event, t);
      StepSeparate(s, event);
    }
  }

  lemma RunSound(states: seq<State>, events: seq<Event>, n: nat)
    requires IsRun(states, events) && n < |states|
    ensures Sound(states[n])
  {
    SoundKeeps();
    Runs.RunKeeps(states, events, Next, Sound, Anything, n);
  }

  // ---- what orphans an execution ---------------------------------------------

  /** A claim nobody hears of; a result the record refuses; a Finalize that is lost; a
      crash before Finalize is called; or a Finalize left behind that the database drops. */
  ghost predicate Orphans(s: State, event: Event, id: Id) {
    && id in s.executions
    && var running := s.executions[id].row.status.Running?;
    match event
    case Claim(_, claimed, heard) => claimed == id && !heard
    case Conclude(w) =>
      && Mine(s, w, id) && running && s.jobs[w].stage.Stopping?
      && !Valid(Finished(s.jobs[w].claimed, s.jobs[w].stage.result))
    case Finish(w, fate) => Mine(s, w, id) && running && fate.Lost?
    case Crash(w) => Mine(s, w, id) && running && !s.jobs[w].stage.Finishing?
    case Drop(x) => x in s.loose && x.Finalize? && x.id == id && running
    case _ => false
  }

  predicate Mine(s: State, w: WorkerId, id: Id) {
    Busy(s, w) && s.jobs[w].id == id
  }

  lemma WorkNeverOrphans(s: State, event: Event, id: Id)
    requires Enabled(s, event) && IsWork(event) && !Orphaned(s, id)
    ensures !Orphaned(Step(s, event), id)
  {
    WorkSendsNothing(s, event);
    WorkKeepsStatus(s, event, id);
    var t := Step(s, event);
    if NoWorker(t, id) {
      forall w | w in s.jobs ensures s.jobs[w].id != id {
        assert w in t.jobs;
      }
      WorkKeepsFinalizes(s, event);
    }
  }

  lemma WorkKeepsStatus(s: State, event: Event, id: Id)
    requires Enabled(s, event) && IsWork(event)
    ensures id in Step(s, event).executions <==> id in s.executions
    ensures id in s.executions ==> Step(s, event).executions[id].row.status == s.executions[id].row.status
  {
  }

  lemma WorkKeepsFinalizes(s: State, event: Event)
    requires Enabled(s, event) && IsWork(event)
    ensures s.loose <= Step(s, event).loose
  {
  }

  lemma DroppedAlone(s: State, t: State, w: WorkerId)
    requires Exclusive(s.jobs) && w in s.jobs && t.jobs == s.jobs - {w}
    ensures forall id :: NoWorker(t, id) <==> id == s.jobs[w].id || NoWorker(s, id)
  {
    forall id | NoWorker(t, id) && id != s.jobs[w].id ensures NoWorker(s, id) {
      forall v | v in s.jobs ensures s.jobs[v].id != id {
        assert v != w ==> v in t.jobs;
      }
    }
  }

  lemma ConcludeOrphans(s: State, w: WorkerId, id: Id)
    requires Sound(s) && Enabled(s, Conclude(w)) && !Orphaned(s, id)
    ensures Orphaned(Step(s, Conclude(w)), id) <==> Orphans(s, Conclude(w), id)
  {
    if Valid(Finished(s.jobs[w].claimed, s.jobs[w].stage.result)) {
      var t := Step(s, Conclude(w));
      if NoWorker(t, id) {
        forall v | v in s.jobs ensures s.jobs[v].id != id {
          assert v in t.jobs;
        }
      }
    } else {
      DroppedAlone(s, Step(s, Conclude(w)), w);
    }
  }

  lemma CrashOrphans(s: State, w: WorkerId, id: Id)
    requires Sound(s) && Enabled(s, Crash(w)) && !Orphaned(s, id)
    ensures Orphaned(Step(s, Crash(w)), id) <==> Orphans(s, Crash(w), id)
  {
    DroppedAlone(s, Step(s, Crash(w)), w);
    var job := s.jobs[w];
    if job.stage.Finishing? {
      assert Finalize(job.id, job.stage.final, job.claimed) in UnderWay(job);
    }
  }

  lemma FinishOrphans(s: State, w: WorkerId, fate: Fate, id: Id)
    requires Sound(s) && Enabled(s, Finish(w, fate)) && !Orphaned(s, id)
    ensures Orphaned(Step(s, Finish(w, fate)), id) <==> Orphans(s, Finish(w, fate), id)
  {
    var t := Step(s, Finish(w, fate));
    var job := s.jobs[w];
    DroppedAlone(s, t, w);
    assert Tracks(job, s.executions[job.id]);
    if fate.Late? {
      assert Finalize(job.id, job.stage.final, job.claimed) in t.loose;
    }
  }

  lemma LandNeverOrphans(s: State, statement: Statement, id: Id)
    requires Sound(s) && Enabled(s, Land(statement)) && !Orphaned(s, id)
    ensures !Orphaned(Step(s, Land(statement)), id)
  {
    if statement.id == id && statement.Finalize? {
      assert Honest(statement, s.executions[id]);
      FinalizeEnds(s.executions[id], statement);
    } else {
      LandSpares(s, statement, id);
    }
  }

  lemma LandSpares(s: State, statement: Statement, id: Id)
    requires Enabled(s, Land(statement)) && !Orphaned(s, id) && !(statement.id == id && statement.Finalize?)
    ensures !Orphaned(Step(s, Land(statement)), id)
  {
    assert forall x :: x in s.loose && x.Finalize? && x.id == id ==> x in Step(s, Land(statement)).loose;
    AppliedStays(s.executions[statement.id], statement);
  }

  lemma FinalizeEnds(e: Execution, statement: Statement)
    requires Honest(statement, e) && statement.Finalize?
    ensures !Applied(e, statement).row.status.Running?
  {
  }

  lemma AppliedStays(e: Execution, statement: Statement)
    ensures Applied(e, statement).row.status.Running? ==> e.row.status.Running?
  {
  }

  lemma ClaimOrphans(s: State, w: WorkerId, claimed: Id, heard: bool, id: Id)
    requires Sound(s) && Enabled(s, Claim(w, claimed, heard)) && !Orphaned(s, id)
    ensures Orphaned(Step(s, Claim(w, claimed, heard)), id) <==> Orphans(s, Claim(w, claimed, heard), id)
  {
    var t := Step(s, Claim(w, claimed, heard));
    ClaimedIsFree(s, claimed);
    if heard {
      assert w in t.jobs && t.jobs[w].id == claimed;
      assert forall v :: v in s.jobs ==> v in t.jobs && t.jobs[v] == s.jobs[v];
    }
  }

  lemma ClaimedIsFree(s: State, id: Id)
    requires Sound(s) && id in s.executions && s.executions[id].row.status.Queued?
    ensures NoWorker(s, id) && NoFinalize(s, id)
  {
    forall w | w in s.jobs ensures s.jobs[w].id != id {
      assert Tracks(s.jobs[w], s.executions[s.jobs[w].id]);
    }
    forall x | x in s.loose && x.Finalize? ensures x.id != id {
      assert Honest(x, s.executions[x.id]);
    }
  }

  lemma DropOrphans(s: State, statement: Statement, id: Id)
    requires Sound(s) && Enabled(s, Drop(statement)) && !Orphaned(s, id)
    ensures Orphaned(Step(s, Drop(statement)), id) <==> Orphans(s, Drop(statement), id)
  {
    var t := Step(s, Drop(statement));
    if statement.Finalize? && statement.id == id {
      assert NoWorker(s, id);
    } else {
      assert forall x :: x in s.loose && x.Finalize? && x.id == id ==> x in t.loose;
    }
  }

  /** A step leaves a running execution to nobody exactly in those five ways. */
  lemma OrphansExactly(s: State, event: Event, t: State, id: Id)
    requires Sound(s) && Next(s, event, t) && !Orphaned(s, id)
    ensures Orphaned(t, id) <==> Orphans(s, event, id)
  {
    if IsWork(event) {
      WorkNeverOrphans(s, event, id);
    } else {
      match event
      case Claim(w, claimed, heard) => ClaimOrphans(s, w, claimed, heard, id);
      case Conclude(w) => ConcludeOrphans(s, w, id);
      case Finish(w, fate) => FinishOrphans(s, w, fate, id);
      case Crash(w) => CrashOrphans(s, w, id);
      case Land(statement) => LandNeverOrphans(s, statement, id);
      case Drop(statement) => DropOrphans(s, statement, id);
      case _ =>
    }
  }

  // ---- only recovery ends it -------------------------------------------------

  /** Where an orphan is after any of these events: still running with nobody, until a
      recovery has failed it. */
  ghost predicate OrphanAfter(s: State, id: Id, recovered: bool) {
    if recovered then
      id in s.executions && s.executions[id].row.status.Failed? && s.executions[id].row.failure == Some(WorkerRestarted)
    else Orphaned(s, id)
  }

  lemma WorkLeaves(s: State, event: Event, id: Id)
    requires Enabled(s, event) && IsWork(event) && Orphaned(s, id)
    ensures Orphaned(Step(s, event), id)
  {
    WorkSendsNothing(s, event);
    WorkKeepsStatus(s, event, id);
  }

  lemma DropLeaves(s: State, event: Event, id: Id)
    requires Enabled(s, event) && (event.Conclude? || event.Crash?) && Orphaned(s, id)
    ensures Orphaned(Step(s, event), id)
  {
    assert s.jobs[event.worker].id != id;
  }

  lemma FinishLeaves(s: State, w: WorkerId, fate: Fate, id: Id)
    requires Enabled(s, Finish(w, fate)) && Orphaned(s, id)
    ensures Orphaned(Step(s, Finish(w, fate)), id)
  {
    assert s.jobs[w].id != id;
  }

  lemma TableLeaves(s: State, event: Event, id: Id)
    requires Enabled(s, event) && (event.Create? || event.Rerun? || event.Claim? || event.Drop?) && Orphaned(s, id)
    ensures Orphaned(Step(s, event), id)
  {
  }

  lemma LandLeaves(s: State, statement: Statement, id: Id)
    requires Enabled(s, Land(statement)) && Orphaned(s, id)
    ensures Orphaned(Step(s, Land(statement)), id)
  {
    var t := Step(s, Land(statement));
    assert NoWorker(t, id) && NoFinalize(t, id);
    if statement.id == id {
      LogsLeaveRunning(s.executions[id], statement);
    } else {
      assert t.executions[id] == s.executions[id];
    }
  }

  lemma LogsLeaveRunning(e: Execution, statement: Statement)
    requires statement.SaveLogs? && e.row.status.Running?
    ensures Applied(e, statement).row.status.Running?
  {
  }

  lemma OrphanSteps(s: State, event: Event, t: State, id: Id)
    requires Sound(s) && Orphaned(s, id) && Next(s, event, t)
    ensures OrphanAfter(t, id, event.Recover?)
  {
    if IsWork(event) {
      WorkLeaves(s, event, id);
    } else if event.Conclude? || event.Crash? {
      DropLeaves(s, event, id);
    } else if event.Finish? {
      FinishLeaves(s, event.worker, event.fate, id);
    } else if event.Land? {
      LandLeaves(s, event.statement, id);
    } else if !event.Recover? {
      TableLeaves(s, event, id);
    }
  }

  lemma OrphanOneMore(s: State, event: Event, t: State, id: Id, recovered: bool)
    requires Sound(s) && OrphanAfter(s, id, recovered) && Next(s, event, t)
    ensures OrphanAfter(t, id, recovered || event.Recover?)
  {
    if recovered {
      StepKeeps(s, event, t);
    } else {
      OrphanSteps(s, event, t, id);
    }
  }

  predicate IsRecover(event: Event) {
    event.Recover?
  }

  lemma OrphansStep(id: Id)
    ensures forall s, event, t, recovered ::
              Sound(s) && OrphanAfter(s, id, recovered) && Next(s, event, t) ==>
                OrphanAfter(t, id, recovered || IsRecover(event))
  {
    forall s, event, t, recovered | Sound(s) && OrphanAfter(s, id, recovered) && Next(s, event, t)
      ensures OrphanAfter(t, id, recovered || IsRecover(event))
    {
      OrphanOneMore(s, event, t, id, recovered);
    }
  }

  /** In every run an orphaned execution stays running, in nobody's hands, until the
      next recovery, and from then on is failed as interrupted. */
  lemma OrphanedUntilRecovery(states: seq<State>, events: seq<Event>, m: nat, n: nat, id: Id)
    requires IsRun(states, events) && m <= n < |states| && Orphaned(states[m], id)
    ensures OrphanAfter(states[n], id, Runs.Occurs(events, IsRecover, m, n))
  {
    OrphansStep(id);
    forall i | 0 <= i < |states| ensures Sound(states[i]) {
      RunSound(states, events, i);
    }
    Runs.RunUntil(states, events, Next, Sound, IsRecover, (s, recovered) => OrphanAfter(s, id, recovered), m, n);
  }

  /** A worker whose record refuses the result lets go of the execution, and it stays
      running until the next recovery fails it. */
  lemma RefusedUntilRecovery(states: seq<State>, events: seq<Event>, m: nat, n: nat, w: WorkerId)
    requires IsRun(states, events) && m < n < |states| && events[m] == Conclude(w)
    requires Busy(states[m], w) && states[m].executions[states[m].jobs[w].id].row.status.Running?
    requires states[m].jobs[w].stage.Stopping?
    requires !Valid(Finished(states[m].jobs[w].claimed, states[m].jobs[w].stage.result))
    ensures OrphanAfter(states[n], states[m].jobs[w].id, Runs.Occurs(events, IsRecover, m + 1, n))
  {
    var id := states[m].jobs[w].id;
    RunSound(states, events, m);
    Runs.StepOf(states, events, Next, m);
    OrphansExactly(states[m], events[m], states[m + 1], id);
    OrphanedUntilRecovery(states, events, m + 1, n, id);
  }

  // ---- such a run exists -----------------------------------------------------

  const NONE: State := State(map[], map[], {})
  const QUEUED: Execution := Fresh(0, "", None)
  const ROW: Row := Claimed(QUEUED.row)

  /** One running execution with one worker on it. */
  function OnJob(past: History, stage: Stage): State {
    State(map[0 := Execution(ROW, past)], map[0 := Job(0, ROW, stage)], {})
  }

  const CLAIMED: History := UNTOUCHED.(claims := 1)

  lemma ClaimSteps()
    ensures var queued := NONE.(executions := map[0 := QUEUED]);
            && Next(NONE, Create(0, 0, ""), queued)
            && Next(queued, Claim(0, 0, true), OnJob(CLAIMED, Preparing))
            && Next(OnJob(CLAIMED, Preparing), Start(0),
                    OnJob(CLAIMED.(runs := [0]), Streaming(Stream("", false), Waiting)))
  {
    assert CLAIMED.runs + [0] == [0];
  }

  lemma WriteStep(seen: string)
    ensures Next(OnJob(CLAIMED.(runs := [0]), Streaming(Stream("", false), Waiting)), Write(0, seen),
                 OnJob(CLAIMED.(runs := [0], wrote := seen), Streaming(Stream(seen, true), Waiting)))
  {
    assert "" + seen == seen;
  }

  lemma ReturnSteps(seen: string, result: Outcome)
    ensures var ran := CLAIMED.(runs := [0], wrote := seen);
            var ended := ran.(outcome := Some(result));
            && Next(OnJob(ran, Streaming(Stream(seen, true), Waiting)), Return(0, result),
                    OnJob(ended, Stopping(Stream(seen, true), Waiting, result)))
            && Next(OnJob(ended, Stopping(Stream(seen, true), Waiting, result)), FlusherStops(0),
                    OnJob(ended, Stopping(Stream(seen, true), Gone, result)))
  {
  }

  lemma Extend(states: seq<State>, events: seq<Event>, event: Event, t: State)
    returns (more: seq<State>, done: seq<Event>)
    requires IsRun(states, events) && Next(states[|states| - 1], event, t)
    ensures IsRun(more, done) && more[|more| - 1] == t
    ensures NoFinish(events) && !event.Finish? ==> NoFinish(done)
  {
    more, done := states + [t], events + [event];
    Runs.Extended(states, events, Next, event, t);
  }

  lemma UpToStopped(seen: string, result: Outcome) returns (states: seq<State>, events: seq<Event>)
    ensures IsRun(states, events) && NoFinish(events)
    ensures states[|states| - 1] ==
            OnJob(CLAIMED.(runs := [0], wrote := seen, outcome := Some(result)),
                  Stopping(Stream(seen, true), Gone, result))
  {
    var ran := CLAIMED.(runs := [0], wrote := seen);
    var ended := ran.(outcome := Some(result));
    ClaimSteps();
    WriteStep(seen);
    ReturnSteps(seen, result);
    states, events := [NONE], [];
    states, events := Extend(states, events, Create(0, 0, ""), NONE.(executions := map[0 := QUEUED]));
    states, events := Extend(states, events, Claim(0, 0, true), OnJob(CLAIMED, Preparing));
    states, events := Extend(states, events, Start(0),
                             OnJob(CLAIMED.(runs := [0]), Streaming(Stream("", false), Waiting)));
    states, events := Extend(states, events, Write(0, seen), OnJob(ran, Streaming(Stream(seen, true), Waiting)));
    states, events := Extend(states, events, Return(0, result),
                             OnJob(ended, Stopping(Stream(seen, true), Waiting, result)));
    states, events := Extend(states, events, FlusherStops(0), OnJob(ended, Stopping(Stream(seen, true), Gone, result)));
  }

  /** The worker dies while it finalizes a result its record accepts, and the database
      rolls the transaction back. */
  lemma RollbackOrphans(seen: string, result: Outcome) returns (states: seq<State>, events: seq<Event>)
    requires Valid(Finished(ROW, result))
    ensures IsRun(states, events) && Orphaned(states[|states| - 1], 0)
    ensures NoFinish(events)
  {
    states, events := UpToStopped(seen, result);
    var past := CLAIMED.(runs := [0], wrote := seen, outcome := Some(result));
    var left := OnJob(past, Finishing(result)).(jobs := map[], loose := {Finalize(0, result, ROW)});
    RollbackSteps(seen, result);
    states, events := Extend(states, events, Conclude(0), OnJob(past, Finishing(result)));
    states, events := Extend(states, events, Crash(0), left);
    states, events := Extend(states, events, Drop(Finalize(0, result, ROW)), left.(loose := {}));
  }

  ghost predicate NoFinish(events: seq<Event>) {
    forall i :: 0 <= i < |events| ==> !events[i].Finish?
  }

  lemma RollbackSteps(seen: string, result: Outcome)
    requires Valid(Finished(ROW, result))
    ensures var past := CLAIMED.(runs := [0], wrote := seen, outcome := Some(result));
            var left := OnJob(past, Finishing(result)).(jobs := map[], loose := {Finalize(0, result, ROW)});
            && Next(OnJob(past, Stopping(Stream(seen, true), Gone, result)), Conclude(0),
                    OnJob(past, Finishing(result)))
            && Next(OnJob(past, Finishing(result)), Crash(0), left)
            && Next(left, Drop(Finalize(0, result, ROW)), left.(loose := {}))
  {
  }

  /** Every clean exit that the record refuses, for its logs or for its result, has a run
      that ends with its execution orphaned. */
  lemma RefusalOrphans(exit: Logs.Exit, maxResult: nat, seen: string, maximum: nat)
    returns (states: seq<State>, events: seq<Event>)
    requires maximum <= MAX_LOG_BYTES && (Logs.Overflows(seen, maximum) || Logs.Oversized(exit, maxResult))
    ensures IsRun(states, events) && Orphaned(states[|states| - 1], 0)
    ensures var past := states[|states| - 1].executions[0].past;
            && past.wrote == seen && past.runs == [0]
            && past.outcome == Some(CleanExit(exit, maxResult, seen, maximum))
  {
    var result := CleanExit(exit, maxResult, seen, maximum);
    states, events := UpToStopped(seen, result);
    var s := states[|states| - 1];
    Logs.FinishRefusedExactly(ROW, exit, maxResult, seen, maximum);
    RefusedDrops(s, seen, result);
    states, events := Extend(states, events, Conclude(0), Idle(s, 0));
  }

  /** What a handler that printed `seen` and exits cleanly comes to. */
  function CleanExit(exit: Logs.Exit, maxResult: nat, seen: string, maximum: nat): Outcome {
    Logs.Concluded(exit, Logs.Shown(Logs.Head(seen, maximum), |seen| > maximum), maxResult)
  }

  lemma RefusedDrops(s: State, seen: string, result: Outcome)
    requires s == OnJob(CLAIMED.(runs := [0], wrote := seen, outcome := Some(result)),
                        Stopping(Stream(seen, true), Gone, result))
    requires !Valid(Finished(ROW, result))
    ensures Next(s, Conclude(0), Idle(s, 0)) && Orphaned(Idle(s, 0), 0)
    ensures Idle(s, 0).executions == s.executions
  {
  }

  /** Whatever a handler prints, if what is kept of it leaves no room for the marker. */
  lemma OverflowOrphans(seen: string, maximum: nat, output: string) returns (states: seq<State>, events: seq<Event>)
    requires maximum <= MAX_LOG_BYTES && |output| <= MAX_INLINE_OUTPUT_BYTES && Logs.Overflows(seen, maximum)
    ensures IsRun(states, events) && Orphaned(states[|states| - 1], 0)
    ensures states[|states| - 1].executions[0].past.outcome ==
            Some(Returned(output, Logs.Shown(Logs.Head(seen, maximum), |seen| > maximum)))
  {
    states, events := RefusalOrphans(Logs.Result(output, true), MAX_INLINE_OUTPUT_BYTES, seen, maximum);
  }

  /** Whatever a handler returns, if it is JSON and more than a row carries and the
      configured limit is no less, even when it has printed nothing. */
  lemma OversizeOrphans(output: string, maxResult: nat) returns (states: seq<State>, events: seq<Event>)
    requires Logs.Oversized(Logs.Result(output, true), maxResult)
    ensures IsRun(states, events) && Orphaned(states[|states| - 1], 0)
    ensures var past := states[|states| - 1].executions[0].past;
            && past.wrote == "" && past.outcome.Some?
            && past.outcome.value.Returned? && past.outcome.value.output == output
  {
    Logs.ConcludedIsValid(Logs.Result(output, true), Logs.Shown(Logs.Head("", MAX_LOG_BYTES), false), maxResult);
    states, events := RefusalOrphans(Logs.Result(output, true), maxResult, "", MAX_LOG_BYTES);
  }
}
