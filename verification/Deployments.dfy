/** What the rows of deployments say, field by field, over every run. */
module Deployments {
  import opened Wrappers
  import Copying
  import opened DeployProtocol
  import opened Loading
  import Runs

  // ---- failures --------------------------------------------------------------

  /** The failure a builder comes to in this step, if it does: the one that build reports. */
  ghost function Report(s: State, event: Event, id: Id): Option<string> {
    match event
    case GiveUp(b, failure) => if IsBy(s, b, id) then Some(failure) else None
    case Close(b) =>
      if IsBy(s, b, id) && s.jobs[b].stage.Stopping? then
        match s.jobs[b].stage.result
        case Err(failure) => Some(failure)
        case Ok(layers) => if layers == [] then Some("build_failed") else None
      else None
    case Advance(b, reply) => if IsBy(s, b, id) && !reply.Done? then Some("build_environment") else None
    case Put(b, _, reply) => if IsBy(s, b, id) && !reply.Done? then Some("artifact_store_failed") else None
    case Publish(b, reply) => if IsBy(s, b, id) && !reply.Done? then Some("artifact_store_failed") else None
    case _ => None
  }

  lemma TurnReports(d: Deployment, job: Job, event: Event, limit: nat)
    requires IsTurn(event) && CanTurn(d, job, event)
    ensures var later := TurnOf(d, job, event, limit).d;
            match event
            case GiveUp(_, failure) => later.report == Some(failure)
            case Close(_) =>
              (match job.stage.result
               case Err(failure) => later.report == Some(failure)
               case Ok(layers) => later.report == if layers == [] then Some("build_failed") else d.report)
            case Advance(_, reply) => later.report == if reply.Done? then d.report else Some("build_environment")
            case Put(_, _, reply) => later.report == if reply.Done? then d.report else Some("artifact_store_failed")
            case Publish(_, reply) => later.report == if reply.Done? then d.report else Some("artifact_store_failed")
            case _ => later.report == d.report
  {
  }

  lemma TurnReportsHere(s: State, event: Event, id: Id)
    requires Enabled(s, event) && IsTurn(event) && id in s.deployments
    ensures id in Step(s, event).deployments
    ensures Step(s, event).deployments[id].report ==
            if Report(s, event, id).Some? then Report(s, event, id) else s.deployments[id].report
  {
    var b := event.builder;
    assert Step(s, event).deployments == Moved(s, b, TurnOf(Mine(s, b), s.jobs[b], event, s.limit)).deployments;
    if s.jobs[b].id == id {
      TurnReports(Mine(s, b), s.jobs[b], event, s.limit);
    }
  }

  lemma TableReportsNone(s: State, event: Event, id: Id)
    requires Enabled(s, event) && !IsTurn(event) && id in s.deployments
    ensures id in Step(s, event).deployments && Step(s, event).deployments[id].report == s.deployments[id].report
  {
  }

  /** A step makes a builder's report exactly there, and it is that failure. */
  lemma ReportExactly(s: State, event: Event, t: State, id: Id)
    requires Next(s, event, t) && id in s.deployments
    ensures id in t.deployments
    ensures t.deployments[id].report ==
            if Report(s, event, id).Some? then Report(s, event, id) else s.deployments[id].report
  {
    if IsTurn(event) {
      TurnReportsHere(s, event, id);
    } else {
      TableReportsNone(s, event, id);
    }
  }

  /** In every run the failure of a failed row is the one its builder reported, or that of a
      recovery which met it unfinished. */
  lemma FailureIsReported(states: seq<State>, events: seq<Event>, n: nat, id: Id)
    requires IsRun(states, events) && n < |states| && id in states[n].deployments
    requires states[n].deployments[id].row.status == Failed
    ensures var d := states[n].deployments[id];
            || (d.report.Some? && d.row.failure == d.report)
            || (d.row.failure == Some("build_interrupted") && Recovered(states, events, n, id))
  {
    RunInvariant(states, events, n);
    assert Consistent(states[n].deployments[id], states[n].blobs, states[n].limit);
    if states[n].deployments[id].recovered {
      RecoveredByRecover(states, events, n, id);
    }
  }

  /** A recovery before n met the deployment unfinished and went through. */
  ghost predicate Recovered(states: seq<State>, events: seq<Event>, n: nat, id: Id)
    requires n <= |events| < |states|
  {
    exists k :: 0 <= k < n && RecoversAt(states[k], events[k], id)
  }

  ghost predicate RecoversAt(s: State, event: Event, id: Id) {
    && event == Recover && id in s.deployments && Unfinished(s.deployments[id].row.status)
    && forall other :: other in s.deployments && Unfinished(s.deployments[other].row.status) ==>
                         s.deployments[other].build == None
  }

  lemma RecoverRecovers(s: State, id: Id)
    requires id in s.deployments && Step(s, Recover).deployments[id].recovered && !s.deployments[id].recovered
    ensures RecoversAt(s, Recover, id)
  {
    forall other | other in s.deployments && Unfinished(s.deployments[other].row.status)
      ensures s.deployments[other].build == None
    {
      assert Loads(s.deployments[other]);
    }
  }

  lemma RecoveredStep(s: State, event: Event, t: State, id: Id)
    requires Inv(s) && Next(s, event, t) && id in t.deployments && t.deployments[id].recovered
    ensures id in s.deployments && (s.deployments[id].recovered || RecoversAt(s, event, id))
  {
    if IsTurn(event) {
      TurnNeverRecovers(s, event, id);
    } else if event.Recover? {
      if !s.deployments[id].recovered {
        RecoverRecovers(s, id);
      }
    } else {
      TableNeverRecovers(s, event, id);
    }
  }

  lemma TableNeverRecovers(s: State, event: Event, id: Id)
    requires Enabled(s, event) && !IsTurn(event) && !event.Recover? && id in Step(s, event).deployments
    requires Step(s, event).deployments[id].recovered
    ensures id in s.deployments && s.deployments[id].recovered
  {
  }

  lemma TurnNeverRecovers(s: State, event: Event, id: Id)
    requires Enabled(s, event) && IsTurn(event) && id in Step(s, event).deployments
    ensures id in s.deployments && Step(s, event).deployments[id].recovered == s.deployments[id].recovered
  {
    var b := event.builder;
    assert Step(s, event).deployments == Moved(s, b, TurnOf(Mine(s, b), s.jobs[b], event, s.limit)).deployments;
  }

  lemma {:induction false} RecoveredByRecover(states: seq<State>, events: seq<Event>, n: nat, id: Id)
    requires IsRun(states, events) && n < |states| && id in states[n].deployments && states[n].deployments[id].recovered
    ensures Recovered(states, events, n, id)
  {
    if n == 0 {
      assert false;
    } else {
      RunInvariant(states, events, n - 1);
      Runs.StepOf(states, events, Next, n - 1);
      RecoveredStep(states[n - 1], events[n - 1], states[n], id);
      if states[n - 1].deployments[id].recovered {
        RecoveredByRecover(states, events, n - 1, id);
        var k :| 0 <= k < n - 1 && RecoversAt(states[k], events[k], id);
      }
    }
  }

  // ---- what is known of a build ----------------------------------------------

  /** What the toolchain of a deployment prints in this step. */
  ghost function Prints(s: State, event: Event, id: Id): string {
    match event
    case Write(b, output) => if IsBy(s, b, id) then output else ""
    case _ => ""
  }

  /** The snapshot a flush of a deployment takes in this step: the tail of all that was
      printed. */
  ghost function Takes(s: State, event: Event, id: Id): seq<string>
    requires id in s.deployments
  {
    if event.Tick? || event.Stop? then
      var b := event.builder;
      if IsBy(s, b, id) && HasStream(s.jobs[b].stage) && s.jobs[b].stage.written then
        [Tail(s.deployments[id].past.wrote)]
      else []
    else []
  }

  ghost predicate HistoryGrows(s: State, event: Event, id: Id, later: History)
    requires id in s.deployments
  {
    var past := s.deployments[id].past;
    && later.wrote == past.wrote + Prints(s, event, id)
    && later.snapshots == past.snapshots + Takes(s, event, id)
    && later.layers ==
       (match event
        case Return(b, result) =>
          if !IsBy(s, b, id) then past.layers else if result.Ok? then Some(result.value) else None
        case _ => past.layers)
  }

  lemma TurnTakes(d: Deployment, job: Job, event: Event, limit: nat)
    requires IsTurn(event) && CanTurn(d, job, event) && (HasStream(job.stage) ==> job.record.logs == Tail(d.past.wrote))
    ensures var past, later := d.past, TurnOf(d, job, event, limit).d.past;
            && later.wrote == past.wrote + (if event.Write? then event.output else "")
            && later.snapshots ==
               past.snapshots + (if (event.Tick? || event.Stop?) && job.stage.written then [Tail(past.wrote)] else [])
            && later.layers ==
               if !event.Return? then past.layers else if event.result.Ok? then Some(event.result.value) else None
  {
  }

  lemma TurnGrows(s: State, event: Event, id: Id)
    requires Inv(s) && Enabled(s, event) && IsTurn(event) && id in s.deployments
    ensures id in Step(s, event).deployments
    ensures HistoryGrows(s, event, id, Step(s, event).deployments[id].past)
  {
    if s.jobs[event.builder].id == id {
      OwnTurnGrows(s, event, id);
    } else {
      OthersTurn(s, event, id);
      OthersGrow(s, event, id);
    }
  }

  lemma OwnTurnGrows(s: State, event: Event, id: Id)
    requires Inv(s) && Enabled(s, event) && IsTurn(event) && id == s.jobs[event.builder].id
    ensures id in Step(s, event).deployments && HistoryGrows(s, event, id, Step(s, event).deployments[id].past)
  {
    var b := event.builder;
    StreamTracks(s, b);
    TurnTakes(Mine(s, b), s.jobs[b], event, s.limit);
    OwnGrows(s, event, id, TurnOf(Mine(s, b), s.jobs[b], event, s.limit).d.past);
    OwnTurn(s, event, id);
  }

  lemma OwnTurn(s: State, event: Event, id: Id)
    requires Enabled(s, event) && IsTurn(event) && id == s.jobs[event.builder].id
    ensures id in Step(s, event).deployments
    ensures Step(s, event).deployments[id] ==
            TurnOf(Mine(s, event.builder), s.jobs[event.builder], event, s.limit).d
  {
  }

  lemma OthersTurn(s: State, event: Event, id: Id)
    requires Enabled(s, event) && IsTurn(event) && id != s.jobs[event.builder].id && id in s.deployments
    ensures id in Step(s, event).deployments && Step(s, event).deployments[id] == s.deployments[id]
  {
  }

  lemma OwnGrows(s: State, event: Event, id: Id, later: History)
    requires IsTurn(event) && Busy(s, event.builder) && id == s.jobs[event.builder].id
    requires event.Tick? || event.Stop? ==> HasStream(s.jobs[event.builder].stage)
    requires var past, stage := s.deployments[id].past, s.jobs[event.builder].stage;
             && later.wrote == past.wrote + (if event.Write? then event.output else "")
             && later.snapshots ==
                past.snapshots + (if (event.Tick? || event.Stop?) && stage.written then [Tail(past.wrote)] else [])
             && later.layers ==
                if !event.Return? then past.layers else if event.result.Ok? then Some(event.result.value) else None
    ensures HistoryGrows(s, event, id, later)
  {
  }

  lemma OthersGrow(s: State, event: Event, id: Id)
    requires IsTurn(event) && Busy(s, event.builder) && id != s.jobs[event.builder].id && id in s.deployments
    ensures HistoryGrows(s, event, id, s.deployments[id].past)
  {
  }

  lemma StreamTracks(s: State, b: BuilderId)
    requires Inv(s) && Busy(s, b)
    ensures HasStream(s.jobs[b].stage) ==> s.jobs[b].record.logs == Tail(Mine(s, b).past.wrote)
  {
    assert Tracks(s.jobs[b], Mine(s, b), s.blobs, s.limit);
  }

  lemma TableGrows(s: State, event: Event, id: Id)
    requires Enabled(s, event) && !IsTurn(event) && id in s.deployments
    ensures id in Step(s, event).deployments && HistoryGrows(s, event, id, Step(s, event).deployments[id].past)
  {
  }

  /** The history of a deployment is what its own builder did, and nothing else. */
  lemma HistoryExactly(s: State, event: Event, t: State, id: Id)
    requires Inv(s) && Next(s, event, t) && id in s.deployments
    ensures id in t.deployments && HistoryGrows(s, event, id, t.deployments[id].past)
  {
    if IsTurn(event) {
      TurnGrows(s, event, id);
    } else {
      TableGrows(s, event, id);
    }
  }

  // ---- rows ------------------------------------------------------------------

  /** A deployment is created queued and blank, and nothing else changes. */
  lemma CreatedForm(s: State, id: Id, t: State)
    requires Next(s, Create(id), t)
    ensures id in t.deployments && t.deployments - {id} == s.deployments - {id}
    ensures t.deployments[id].row == Row(Queued, None, "") && t.deployments[id].build == None
  {
  }

  /** A claim starts it building, still blank, and its builder has that record. */
  lemma ClaimedForm(s: State, b: BuilderId, id: Id, heard: bool, t: State)
    requires Inv(s) && Next(s, Claim(b, id, heard), t)
    ensures id in t.deployments && t.deployments[id].row == Row(Building, None, "")
    ensures if heard then b in t.jobs && t.jobs[b].id == id && t.jobs[b].record == Row(Building, None, "")
            else t.jobs == s.jobs
  {
    assert Consistent(s.deployments[id], s.blobs, s.limit);
  }

  /** A flush takes the tail of all that was printed. */
  lemma FlushTakes(s: State, b: BuilderId, event: Event, t: State)
    requires Inv(s) && Next(s, event, t) && (event == Tick(b) || event == Stop(b)) && s.jobs[b].stage.written
    ensures b in t.jobs && HasStream(t.jobs[b].stage) && t.jobs[b].stage.flusher.Holding?
    ensures t.jobs[b].stage.flusher.snapshot == Row(Building, None, Tail(s.deployments[s.jobs[b].id].past.wrote))
  {
    assert Tracks(s.jobs[b], Mine(s, b), s.blobs, s.limit);
  }

  lemma SaveForm(d: Deployment, next: Row, reply: Reply)
    ensures AfterSave(d, next, reply).row ==
            if Lands(reply) && (d.row.status == next.status || d.row.status !in {Ready, Failed}) then next else d.row
  {
  }

  /** A save of it that is carried out puts it on the row of a deployment still building. */
  lemma PersistForm(s: State, b: BuilderId, reply: Reply, t: State, id: Id)
    requires Inv(s) && Next(s, Persist(b, reply), t) && id == s.jobs[b].id
    ensures id in t.deployments
    ensures t.deployments[id].row ==
            if Lands(reply) && s.deployments[id].row.status == Building then s.jobs[b].stage.flusher.snapshot
            else s.deployments[id].row
  {
    assert Tracks(s.jobs[b], Mine(s, b), s.blobs, s.limit);
    SaveForm(Mine(s, b), s.jobs[b].stage.flusher.snapshot, reply);
    assert t.deployments[id] == AfterSave(Mine(s, b), s.jobs[b].stage.flusher.snapshot, reply);
  }

  /** So does the save of the publishing stage, with all that was printed. */
  lemma AdvanceForm(s: State, b: BuilderId, reply: Reply, t: State, id: Id)
    requires Inv(s) && Next(s, Advance(b, reply), t) && id == s.jobs[b].id
    ensures id in t.deployments
    ensures t.deployments[id].row ==
            if Lands(reply) && s.deployments[id].row.status == Building then
              Row(Publishing, None, Tail(s.deployments[id].past.wrote))
            else s.deployments[id].row
  {
    assert Tracks(s.jobs[b], Mine(s, b), s.blobs, s.limit);
    SaveForm(Mine(s, b), s.jobs[b].record, reply);
  }

  /** The last save of a builder that has published is the ready row, and of one that has
      come to a failure the failed row with that failure, which replaces an interruption:
      either way over the tail of all that was printed. */
  lemma FinishForm(s: State, b: BuilderId, reply: Reply, t: State, id: Id)
    requires Inv(s) && Next(s, Finish(b, reply), t) && id == s.jobs[b].id
    ensures id in t.deployments
    ensures var d, row := s.deployments[id], t.deployments[id].row;
            if !Lands(reply) then row == d.row
            else if d.report.Some? then row == Row(Failed, d.report, Tail(d.past.wrote))
            else if d.row.status == Failed then row == d.row
            else row == Row(Ready, None, Tail(d.past.wrote)) && d.build.Some?
  {
    var final := s.jobs[b].stage.final;
    assert Tracks(s.jobs[b], Mine(s, b), s.blobs, s.limit);
    assert Consistent(Mine(s, b), s.blobs, s.limit);
    SaveForm(Mine(s, b), final, reply);
    FinalForm(final, Mine(s, b));
  }

  lemma FinalForm(final: Row, d: Deployment)
    requires Ends(final, d)
    ensures final.logs == Tail(d.past.wrote)
    ensures final.status == Failed ==> d.report.Some? && final == Row(Failed, d.report, final.logs)
    ensures final.status == Ready ==> d.report.None? && final == Row(Ready, None, final.logs) && d.build.Some?
    ensures final.status == Failed || final.status == Ready
  {
  }
}
