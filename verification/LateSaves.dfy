/** A building snapshot that is written after its log stream was closed. */
module LateSaves {
  import opened Wrappers
  import Copying
  import opened DeployProtocol
  import Runs

  lemma TurnWritesNone(d: Deployment, job: Job, event: Event, blobs: map<Key, Copying.Bytes>, limit: nat)
    requires Consistent(d, blobs, limit) && Tracks(job, d, blobs, limit) && d.past.closed
    requires IsTurn(event) && CanTurn(d, job, event)
    ensures var later := TurnOf(d, job, event, limit).d;
            later.row.status.Building? ==> later.row == d.row
  {
  }

  ghost predicate WritesNone(s: State, t: State, id: Id) {
    && id in s.deployments && id in t.deployments
    && (t.deployments[id].row.status.Building? ==> t.deployments[id].row == s.deployments[id].row)
  }

  lemma TurnStepWritesNone(s: State, event: Event, id: Id)
    requires Inv(s) && Enabled(s, event) && IsTurn(event) && id in s.deployments && s.deployments[id].past.closed
    ensures WritesNone(s, Step(s, event), id)
  {
    var b := event.builder;
    var turn := TurnOf(Mine(s, b), s.jobs[b], event, s.limit);
    if s.jobs[b].id == id {
      TurnWritesNone(Mine(s, b), s.jobs[b], event, s.blobs, s.limit);
    }
    assert Step(s, event).deployments == Moved(s, b, turn).deployments;
  }

  lemma EndWritesNone(s: State, event: Event, id: Id)
    requires Inv(s) && Enabled(s, event) && (event.Finish? || event.Crash?) && id in s.deployments
    ensures WritesNone(s, Step(s, event), id)
  {
    assert Tracks(s.jobs[event.builder], Mine(s, event.builder), s.blobs, s.limit);
  }

  lemma ClaimWritesNone(s: State, event: Event, id: Id)
    requires Inv(s) && Enabled(s, event) && id in s.deployments && s.deployments[id].past.closed
    requires event.Create? || event.Claim?
    ensures WritesNone(s, Step(s, event), id)
  {
    ClosedIsClaimed(s, id);
  }

  lemma ClosedIsClaimed(s: State, id: Id)
    requires Inv(s) && id in s.deployments && s.deployments[id].past.closed
    ensures !s.deployments[id].row.status.Queued?
  {
    assert Consistent(s.deployments[id], s.blobs, s.limit);
  }

  lemma TableWritesNone(s: State, event: Event, id: Id)
    requires Enabled(s, event) && id in s.deployments && (event.Insert? || event.Recover?)
    ensures WritesNone(s, Step(s, event), id)
  {
  }

  lemma SettleWrites(s: State, settled: Id, lands: bool, id: Id)
    requires Inv(s) && Enabled(s, Settle(settled, lands)) && id in s.deployments && s.deployments[id].past.closed
    ensures var t := Step(s, Settle(settled, lands));
            if settled == id && lands && !Quiet(s.deployments[id]) && s.deployments[id].row.status.Building? then
              id in t.deployments && t.deployments[id].row == s.deployments[id].save.value
            else WritesNone(s, t, id)
  {
    assert Consistent(s.deployments[id], s.blobs, s.limit);
  }

  /** Once the log stream of a deployment is closed a step writes a building row exactly by
      settling a snapshot that was left to land late, on a row that is still building. */
  lemma WrittenAfterCloseExactly(s: State, event: Event, t: State, id: Id)
    requires Inv(s) && Next(s, event, t) && id in s.deployments && s.deployments[id].past.closed
    ensures if event == Settle(id, true) && !Quiet(s.deployments[id]) && s.deployments[id].row.status.Building? then
              id in t.deployments && t.deployments[id].row == s.deployments[id].save.value
            else WritesNone(s, t, id)
  {
    if IsTurn(event) {
      TurnStepWritesNone(s, event, id);
    } else if event.Finish? || event.Crash? {
      EndWritesNone(s, event, id);
    } else if event.Settle? {
      SettleWrites(s, event.id, event.lands, id);
    } else if event.Create? || event.Claim? {
      ClaimWritesNone(s, event, id);
    } else {
      TableWritesNone(s, event, id);
    }
  }

  // ---- such a run exists -----------------------------------------------------

  const EMPTY: State := State(map[], map[], map[], 0)
  const BLANK: Row := Row(Building, None, "")
  const PRINTED: Row := Row(Building, None, "x")

  /** One deployment, its row still blank, with one builder at work on it. */
  function AtWork(past: History, save: Option<Row>, record: Row, stage: Stage): State {
    State(map[0 := Deployment(BLANK, None, past, save, None, None, false)], map[0 := Job(0, record, stage)], map[], 0)
  }

  /** After Close, with the failure reported and the snapshot still on its way. */
  function AfterClose(): State {
    State(map[0 := Deployment(BLANK, None, SHOWN.(closed := true), Some(PRINTED), None, Some("e"), false)],
          map[0 := Job(0, PRINTED, Finishing(FailedWith(PRINTED, "e")))], map[], 0)
  }

  const CLAIMED: History := UNTOUCHED.(claims := 1)
  const WROTE: History := CLAIMED.(wrote := "x")
  const SHOWN: History := WROTE.(snapshots := ["x"])
  const FAILURE: Result<seq<Copying.Bytes>, string> := Err("e")

  lemma ClaimSteps()
    ensures var queued := EMPTY.(deployments := map[0 := NEW]);
            && Next(EMPTY, Create(0), queued)
            && Next(queued, Claim(0, 0, true), AtWork(CLAIMED, None, BLANK, Preparing))
            && Next(AtWork(CLAIMED, None, BLANK, Preparing), Follow(0),
                    AtWork(CLAIMED, None, BLANK, Streaming(false, Waiting)))
  {
  }

  lemma PrintSteps()
    ensures Next(AtWork(CLAIMED, None, BLANK, Streaming(false, Waiting)), Write(0, "x"),
                 AtWork(WROTE, None, PRINTED, Streaming(true, Waiting)))
    ensures Next(AtWork(WROTE, None, PRINTED, Streaming(true, Waiting)), Return(0, FAILURE),
                 AtWork(WROTE, None, PRINTED, Stopping(true, Waiting, FAILURE)))
  {
    assert "" + "x" == "x";
  }

  lemma StopSteps()
    ensures Next(AtWork(WROTE, None, PRINTED, Stopping(true, Waiting, FAILURE)), Stop(0),
                 AtWork(SHOWN, None, PRINTED, Stopping(false, Holding(PRINTED, true), FAILURE)))
    ensures Next(AtWork(SHOWN, None, PRINTED, Stopping(false, Holding(PRINTED, true), FAILURE)), Persist(0, Late),
                 AtWork(SHOWN, Some(PRINTED), PRINTED, Stopping(false, Gone, FAILURE)))
  {
    assert WROTE.snapshots + ["x"] == ["x"];
  }

  lemma CloseSteps()
    ensures var closed := AfterClose();
            && Next(AtWork(SHOWN, Some(PRINTED), PRINTED, Stopping(false, Gone, FAILURE)), Close(0), closed)
            && Next(closed, Settle(0, true), Step(closed, Settle(0, true)))
            && Step(closed, Settle(0, true)).deployments[0].row == PRINTED
  {
  }

  lemma Extend(states: seq<State>, events: seq<Event>, event: Event, t: State)
    returns (more: seq<State>, done: seq<Event>)
    requires IsRun(states, events) && Next(states[|states| - 1], event, t)
    ensures IsRun(more, done) && |more| >= 2 && more[|more| - 1] == t && more[|more| - 2] == states[|states| - 1]
  {
    more, done := states + [t], events + [event];
    Runs.Extended(states, events, Next, event, t);
  }

  /** A run in which Close has returned and a building row is written after it. */
  lemma LateSnapshotIsReachable() returns (states: seq<State>, events: seq<Event>)
    ensures IsRun(states, events) && |states| >= 2
    ensures var s, t := states[|states| - 2], states[|states| - 1];
            && 0 in s.deployments && 0 in t.deployments && s.deployments[0].past.closed
            && s.deployments[0].row == BLANK && t.deployments[0].row == PRINTED
  {
    ClaimSteps();
    PrintSteps();
    StopSteps();
    CloseSteps();
    var closed := AfterClose();
    states, events := [EMPTY], [];
    states, events := Extend(states, events, Create(0), EMPTY.(deployments := map[0 := NEW]));
    states, events := Extend(states, events, Claim(0, 0, true), AtWork(CLAIMED, None, BLANK, Preparing));
    states, events := Extend(states, events, Follow(0), AtWork(CLAIMED, None, BLANK, Streaming(false, Waiting)));
    states, events := Extend(states, events, Write(0, "x"), AtWork(WROTE, None, PRINTED, Streaming(true, Waiting)));
    states, events := Extend(states, events, Return(0, FAILURE),
                             AtWork(WROTE, None, PRINTED, Stopping(true, Waiting, FAILURE)));
    states, events := Extend(states, events, Stop(0),
                             AtWork(SHOWN, None, PRINTED, Stopping(false, Holding(PRINTED, true), FAILURE)));
    states, events := Extend(states, events, Persist(0, Late),
                             AtWork(SHOWN, Some(PRINTED), PRINTED, Stopping(false, Gone, FAILURE)));
    states, events := Extend(states, events, Close(0), closed);
    states, events := Extend(states, events, Settle(0, true), Step(closed, Settle(0, true)));
  }
}
