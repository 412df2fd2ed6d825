/** Which deployments cannot be loaded, and which a recovery fails. */
module Loading {
  import opened Wrappers
  import Copying
  import opened DeployProtocol
  import opened Stranding

  /** The builder of a deployment takes this step. */
  predicate IsBy(s: State, b: BuilderId, id: Id) {
    Busy(s, b) && s.jobs[b].id == id
  }

  // ---- what makes a deployment unloadable ------------------------------------

  /** The insert of a build takes effect, for its builder or after it gave up. */
  predicate Publishes(s: State, event: Event, id: Id) {
    match event
    case Publish(b, reply) => IsBy(s, b, id) && Lands(reply)
    case Insert(inserted, lands) => inserted == id && lands
    case _ => false
  }

  lemma TurnPublishes(d: Deployment, job: Job, event: Event, blobs: map<Key, Copying.Bytes>, limit: nat)
    requires Consistent(d, blobs, limit) && Tracks(job, d, blobs, limit) && IsTurn(event) && CanTurn(d, job, event)
    ensures var later := TurnOf(d, job, event, limit).d;
            && (later.build.Some? && d.build.None? <==> event.Publish? && Lands(event.reply))
            && (later.row.status.Failed? <==> d.row.status.Failed?) && !later.row.status.Ready?
            && (d.build.Some? ==> later.build == d.build)
  {
  }

  lemma TurnHides(s: State, event: Event, id: Id)
    requires Inv(s) && Enabled(s, event) && IsTurn(event) && id in s.deployments && Loads(s.deployments[id])
    ensures id in Step(s, event).deployments
    ensures !Loads(Step(s, event).deployments[id]) <==> Publishes(s, event, id)
  {
    var b := event.builder;
    assert Step(s, event).deployments == Moved(s, b, TurnOf(Mine(s, b), s.jobs[b], event, s.limit)).deployments;
    if s.jobs[b].id == id {
      TurnPublishes(Mine(s, b), s.jobs[b], event, s.blobs, s.limit);
    }
  }

  lemma EndHidesNone(s: State, event: Event, id: Id)
    requires Inv(s) && Enabled(s, event) && (event.Finish? || event.Crash?) && id in s.deployments
    requires Loads(s.deployments[id])
    ensures id in Step(s, event).deployments && Loads(Step(s, event).deployments[id])
  {
    assert Tracks(s.jobs[event.builder], Mine(s, event.builder), s.blobs, s.limit);
  }

  lemma TableHides(s: State, event: Event, id: Id)
    requires Inv(s) && Enabled(s, event) && !IsTurn(event) && !event.Finish? && !event.Crash?
    requires id in s.deployments && Loads(s.deployments[id])
    ensures id in Step(s, event).deployments
    ensures !Loads(Step(s, event).deployments[id]) <==> Publishes(s, event, id)
  {
    assert Consistent(s.deployments[id], s.blobs, s.limit);
  }

  /** A deployment becomes unloadable exactly when its build is inserted: from then until
      its row is saved as ready nobody can load it. */
  lemma UnloadableFromPublish(s: State, event: Event, t: State, id: Id)
    requires Inv(s) && Next(s, event, t) && id in s.deployments && Loads(s.deployments[id])
    ensures id in t.deployments && (!Loads(t.deployments[id]) <==> Publishes(s, event, id))
  {
    if IsTurn(event) {
      TurnHides(s, event, id);
    } else if event.Finish? || event.Crash? {
      EndHidesNone(s, event, id);
    } else {
      TableHides(s, event, id);
    }
  }

  // ---- failed deployments with a build ---------------------------------------

  /** Failed, and with a build all the same: never to be loaded again. */
  predicate IsSpoiled(d: Deployment) {
    d.build.Some? && d.row.status.Failed?
  }

  /** The insert of a build takes effect on a failed row, or the save of a failure does on
      a row whose build is inserted. */
  predicate Spoils(s: State, event: Event, id: Id) {
    && id in s.deployments
    && var d := s.deployments[id];
    match event
    case Publish(_, _) => Publishes(s, event, id) && d.row.status.Failed?
    case Insert(_, _) => Publishes(s, event, id) && d.row.status.Failed?
    case Finish(b, reply) =>
      && IsBy(s, b, id) && Lands(reply) && d.build.Some?
      && s.jobs[b].stage.Finishing? && s.jobs[b].stage.final.status.Failed?
    case Settle(settled, lands) =>
      settled == id && lands && d.save.Some? && d.save.value.status.Failed? && d.build.Some?
    case _ => false
  }

  lemma TurnSpoils(s: State, event: Event, id: Id)
    requires Inv(s) && Enabled(s, event) && IsTurn(event) && id in s.deployments && !IsSpoiled(s.deployments[id])
    ensures id in Step(s, event).deployments
    ensures IsSpoiled(Step(s, event).deployments[id]) <==> Spoils(s, event, id)
  {
    var b := event.builder;
    assert Step(s, event).deployments == Moved(s, b, TurnOf(Mine(s, b), s.jobs[b], event, s.limit)).deployments;
    if s.jobs[b].id == id {
      TurnPublishes(Mine(s, b), s.jobs[b], event, s.blobs, s.limit);
    }
  }

  lemma FinishSpoils(s: State, b: BuilderId, reply: Reply, id: Id)
    requires Inv(s) && Enabled(s, Finish(b, reply)) && id in s.deployments && !IsSpoiled(s.deployments[id])
    ensures id in Step(s, Finish(b, reply)).deployments
    ensures IsSpoiled(Step(s, Finish(b, reply)).deployments[id]) <==> Spoils(s, Finish(b, reply), id)
  {
    assert Tracks(s.jobs[b], Mine(s, b), s.blobs, s.limit);
    assert Consistent(s.deployments[id], s.blobs, s.limit);
  }

  lemma CrashSpoilsNone(s: State, b: BuilderId, sent: bool, id: Id)
    requires Enabled(s, Crash(b, sent)) && id in s.deployments && !IsSpoiled(s.deployments[id])
    ensures id in Step(s, Crash(b, sent)).deployments && !IsSpoiled(Step(s, Crash(b, sent)).deployments[id])
  {
  }

  lemma SettleSpoils(s: State, event: Event, id: Id)
    requires Inv(s) && Enabled(s, event) && (event.Settle? || event.Insert?)
    requires id in s.deployments && !IsSpoiled(s.deployments[id])
    ensures id in Step(s, event).deployments
    ensures IsSpoiled(Step(s, event).deployments[id]) <==> Spoils(s, event, id)
  {
    assert Consistent(s.deployments[id], s.blobs, s.limit);
  }

  lemma TableSpoilsNone(s: State, event: Event, id: Id)
    requires Inv(s) && Enabled(s, event) && (event.Create? || event.Claim? || event.Recover?)
    requires id in s.deployments && !IsSpoiled(s.deployments[id])
    ensures id in Step(s, event).deployments && !IsSpoiled(Step(s, event).deployments[id])
  {
    assert Consistent(s.deployments[id], s.blobs, s.limit);
  }

  /** A step leaves a failed deployment with a build in exactly those ways; a recovery is
      not one of them. */
  lemma SpoilsExactly(s: State, event: Event, t: State, id: Id)
    requires Inv(s) && Next(s, event, t) && id in s.deployments && !IsSpoiled(s.deployments[id])
    ensures id in t.deployments && (IsSpoiled(t.deployments[id]) <==> Spoils(s, event, id))
  {
    if IsTurn(event) {
      TurnSpoils(s, event, id);
    } else if event.Finish? {
      FinishSpoils(s, event.builder, event.reply, id);
    } else if event.Crash? {
      CrashSpoilsNone(s, event.builder, event.sent, id);
    } else if event.Settle? || event.Insert? {
      SettleSpoils(s, event, id);
    } else {
      TableSpoilsNone(s, event, id);
    }
  }

  /** It can never be loaded again. */
  lemma SpoiledForever(states: seq<State>, events: seq<Event>, m: nat, n: nat, id: Id)
    requires IsRun(states, events) && m <= n < |states| && id in states[m].deployments
    requires IsSpoiled(states[m].deployments[id])
    ensures id in states[n].deployments && IsSpoiled(states[n].deployments[id]) && !Loads(states[n].deployments[id])
  {
    NeverGoesBack(states, events, m, n, id);
  }

  /** The build is inserted behind an error, and the builder has come to a failure. */
  function AfterError(): State {
    var p := InStage(Publishing);
    var past := History(1, "", [], Some([LAYER]), true);
    State(map[0 := Deployment(p, Some([ARTIFACT]), past, None, None, Some("artifact_store_failed"), false)],
          map[0 := Job(0, p, Finishing(FailedWith(p, "artifact_store_failed")))], Stored(), 0)
  }

  lemma PublishSteps()
    ensures var p := InStage(Publishing);
            Next(AtWork(p, None, Some([LAYER]), true, p, Sealing([ARTIFACT]), Stored()), Publish(0, Failing(true)),
                 AfterError())
    ensures Enabled(AfterError(), Finish(0, Done)) && 0 in Step(AfterError(), Finish(0, Done)).deployments
    ensures IsSpoiled(Step(AfterError(), Finish(0, Done)).deployments[0])
  {
  }

  /** A builder whose insert of the build reports an error and takes effect all the same
      records a failure over it. */
  lemma SpoiledIsReachable() returns (states: seq<State>, events: seq<Event>)
    ensures IsRun(states, events) && 0 in states[|states| - 1].deployments
    ensures IsSpoiled(states[|states| - 1].deployments[0])
  {
    var p := InStage(Publishing);
    StoreSteps();
    PublishSteps();
    states, events := UpToStoring();
    states, events := Extend(states, events, Put(0, 0, Done),
                             AtWork(p, None, Some([LAYER]), true, p, Storing([], [ARTIFACT], 0), Stored()));
    states, events := Extend(states, events, Seal(0),
                             AtWork(p, None, Some([LAYER]), true, p, Sealing([ARTIFACT]), Stored()));
    states, events := Extend(states, events, Publish(0, Failing(true)), AfterError());
    states, events := Extend(states, events, Finish(0, Done), Step(AfterError(), Finish(0, Done)));
  }

  // ---- what a recovery changes -----------------------------------------------

  /** A recovery changes exactly the unfinished deployments, whether or not anyone ever
      claimed them, and those only while no unfinished one has a build. */
  lemma RecoverChangesExactly(s: State, id: Id)
    requires Inv(s) && id in s.deployments
    ensures id in Step(s, Recover).deployments
    ensures Step(s, Recover).deployments[id] != s.deployments[id] <==>
            && Unfinished(s.deployments[id].row.status)
            && forall other :: other in s.deployments ==> !IsHalfDone(s.deployments[other])
    ensures Step(s, Recover).deployments[id] != s.deployments[id] ==>
              var d, later := s.deployments[id], Step(s, Recover).deployments[id];
              later == d.(row := Row(Failed, Some("build_interrupted"), d.row.logs), recovered := true)
  {
  }

  /** One of them was never claimed: a deployment that is queued when the service starts. */
  lemma QueuedIsFailed() returns (states: seq<State>, events: seq<Event>)
    ensures IsRun(states, events) && 0 in states[|states| - 1].deployments
    ensures var d := states[|states| - 1].deployments[0];
            d.row.status.Failed? && d.row.failure == Some(INTERRUPTED) && d.past.claims == 0
  {
    var queued := EMPTY.(deployments := map[0 := NEW]);
    ClaimSteps();
    states, events := [EMPTY], [];
    states, events := Extend(states, events, Create(0), queued);
    assert RecoverWorks(queued);
    states, events := Extend(states, events, Recover, Step(queued, Recover));
  }
}
