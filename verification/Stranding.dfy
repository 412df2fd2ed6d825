/** The points from which recovery never works again. */
module Stranding {
  import opened Wrappers
  import opened Copying
  import opened Builds
  import opened DeployProtocol
  import Runs

  ghost predicate NoBuilder(s: State, id: Id) {
    forall b :: b in s.jobs ==> s.jobs[b].id != id
  }

  predicate IsHalfDone(d: Deployment) {
    d.build.Some? && Unfinished(d.row.status)
  }

  /** An unfinished deployment whose build is saved and that nobody will finish: it has
      no builder and no save on its way. */
  ghost predicate Stranded(s: State, id: Id) {
    id in s.deployments && IsHalfDone(s.deployments[id]) && s.deployments[id].save.None? && NoBuilder(s, id)
  }

  // ---- what strands a deployment ---------------------------------------------

  /** The builder dies, or its last save fails, and that save takes no effect; or the
      last save a builder left behind never lands; or the insert of a build it left
      behind does. */
  ghost predicate Strands(s: State, event: Event, id: Id) {
    && id in s.deployments
    && var d := s.deployments[id];
    match event
    case Crash(b, sent) => Busy(s, b) && s.jobs[b].id == id && IsHalfDone(d) && !sent
    case Finish(b, reply) => Busy(s, b) && s.jobs[b].id == id && IsHalfDone(d) && reply == Failing(false)
    case Settle(settled, lands) => settled == id && NoBuilder(s, id) && IsHalfDone(d) && !lands
    case Insert(inserted, lands) =>
      inserted == id && NoBuilder(s, id) && Unfinished(d.row.status) && d.save.None? && lands
    case _ => false
  }

  lemma HalfIsFinishing(s: State, b: BuilderId)
    requires Inv(s) && Busy(s, b) && IsHalfDone(Mine(s, b))
    ensures s.jobs[b].stage.Finishing? && Mine(s, b).save.None? && Mine(s, b).row.status.Publishing?
  {
    assert Tracks(s.jobs[b], Mine(s, b), s.blobs, s.limit);
    assert Consistent(Mine(s, b), s.blobs, s.limit);
  }

  lemma EndedAlone(s: State, b: BuilderId, d: Deployment)
    requires Inv(s) && Busy(s, b)
    ensures NoBuilder(Ended(s, b, d), s.jobs[b].id)
    ensures forall id :: id != s.jobs[b].id ==> (NoBuilder(Ended(s, b, d), id) <==> NoBuilder(s, id))
  {
    forall id | id != s.jobs[b].id && NoBuilder(Ended(s, b, d), id) ensures NoBuilder(s, id) {
      forall a | a in s.jobs ensures s.jobs[a].id != id {
        assert a != b ==> a in Ended(s, b, d).jobs;
      }
    }
  }

  lemma CrashStrands(s: State, b: BuilderId, sent: bool, id: Id)
    requires Inv(s) && Enabled(s, Crash(b, sent)) && !Stranded(s, id)
    ensures Stranded(Step(s, Crash(b, sent)), id) <==> Strands(s, Crash(b, sent), id)
  {
    EndedAlone(s, b, Remains(Mine(s, b), s.jobs[b], sent));
    if s.jobs[b].id == id {
      RemainsHalf(s, b, sent);
    }
  }

  lemma RemainsHalf(s: State, b: BuilderId, sent: bool)
    requires Inv(s) && Busy(s, b)
    ensures var left := Remains(Mine(s, b), s.jobs[b], sent);
            IsHalfDone(left) && left.save.None? <==> IsHalfDone(Mine(s, b)) && !sent
  {
    if IsHalfDone(Mine(s, b)) {
      HalfIsFinishing(s, b);
    }
  }

  lemma FinishStrands(s: State, b: BuilderId, reply: Reply, id: Id)
    requires Inv(s) && Enabled(s, Finish(b, reply)) && !Stranded(s, id)
    ensures Stranded(Step(s, Finish(b, reply)), id) <==> Strands(s, Finish(b, reply), id)
  {
    EndedAlone(s, b, AfterSave(Mine(s, b), s.jobs[b].stage.final, reply));
    assert Tracks(s.jobs[b], Mine(s, b), s.blobs, s.limit);
    if s.jobs[b].id == id && IsHalfDone(Mine(s, b)) {
      HalfIsFinishing(s, b);
    }
  }

  lemma SettleStrands(s: State, settled: Id, lands: bool, id: Id)
    requires Inv(s) && Enabled(s, Settle(settled, lands)) && !Stranded(s, id)
    ensures Stranded(Step(s, Settle(settled, lands)), id) <==> Strands(s, Settle(settled, lands), id)
  {
    assert Consistent(s.deployments[settled], s.blobs, s.limit);
  }

  lemma InsertStrands(s: State, inserted: Id, lands: bool, id: Id)
    requires Inv(s) && Enabled(s, Insert(inserted, lands)) && !Stranded(s, id)
    ensures Stranded(Step(s, Insert(inserted, lands)), id) <==> Strands(s, Insert(inserted, lands), id)
  {
    assert Consistent(s.deployments[inserted], s.blobs, s.limit);
  }

  lemma TurnNeverStrands(s: State, event: Event, id: Id)
    requires Inv(s) && Enabled(s, event) && IsTurn(event) && !Stranded(s, id)
    ensures !Stranded(Step(s, event), id)
  {
    var t := Step(s, event);
    var b := event.builder;
    if s.jobs[b].id == id {
      TurnStays(Mine(s, b), s.jobs[b], event, s.limit);
      assert b in t.jobs && t.jobs[b].id == id;
    } else if NoBuilder(t, id) {
      forall a | a in s.jobs ensures s.jobs[a].id != id {
        assert a in t.jobs;
        assert a != b ==> t.jobs[a] == s.jobs[a];
      }
    }
  }

  lemma TurnStays(d: Deployment, job: Job, event: Event, limit: nat)
    requires IsTurn(event) && CanTurn(d, job, event)
    ensures TurnOf(d, job, event, limit).job.id == job.id
  {
  }

  lemma BuilderStays(s: State, t: State, id: Id)
    requires forall a :: a in s.jobs ==> a in t.jobs && t.jobs[a] == s.jobs[a]
    ensures NoBuilder(t, id) ==> NoBuilder(s, id)
  {
  }

  lemma CreateNeverStrands(s: State, event: Event, id: Id)
    requires Inv(s) && Enabled(s, event) && (event.Create? || event.Claim?) && !Stranded(s, id)
    ensures !Stranded(Step(s, event), id)
  {
    BuilderStays(s, Step(s, event), id);
    if id in s.deployments {
      assert Consistent(s.deployments[id], s.blobs, s.limit);
    }
  }

  lemma RecoverNeverStrands(s: State, id: Id)
    requires !Stranded(s, id)
    ensures !Stranded(Step(s, Recover), id)
  {
    BuilderStays(s, Step(s, Recover), id);
  }

  /** A step strands a deployment exactly in those four ways. */
  lemma StrandsExactly(s: State, event: Event, t: State, id: Id)
    requires Inv(s) && Next(s, event, t) && !Stranded(s, id)
    ensures Stranded(t, id) <==> Strands(s, event, id)
  {
    if IsTurn(event) {
      TurnNeverStrands(s, event, id);
    } else {
      match event
      case Crash(b, sent) => CrashStrands(s, b, sent, id);
      case Finish(b, reply) => FinishStrands(s, b, reply, id);
      case Settle(settled, lands) => SettleStrands(s, settled, lands, id);
      case Insert(inserted, lands) => InsertStrands(s, inserted, lands, id);
      case Recover => RecoverNeverStrands(s, id);
      case _ => CreateNeverStrands(s, event, id);
    }
  }

  // ---- and what does not help it ---------------------------------------------

  lemma StrandedBlocks(s: State, id: Id)
    requires Stranded(s, id)
    ensures !RecoverWorks(s) && Step(s, Recover) == s
  {
  }

  lemma TurnLeaves(s: State, event: Event, id: Id)
    requires Enabled(s, event) && IsTurn(event) && Stranded(s, id)
    ensures Stranded(Step(s, event), id) && Step(s, event).deployments[id] == s.deployments[id]
  {
    TurnStays(Mine(s, event.builder), s.jobs[event.builder], event, s.limit);
  }

  lemma TableLeaves(s: State, event: Event, id: Id)
    requires Inv(s) && Enabled(s, event) && !IsTurn(event) && !event.Recover? && Stranded(s, id)
    ensures Stranded(Step(s, event), id) && Step(s, event).deployments[id] == s.deployments[id]
  {
    assert Consistent(s.deployments[id], s.blobs, s.limit);
  }

  /** Nothing any process does, recovery included, moves a stranded deployment. */
  lemma StrandedStays(s: State, event: Event, t: State, id: Id)
    requires Inv(s) && Stranded(s, id) && Next(s, event, t)
    ensures Stranded(t, id) && t.deployments[id] == s.deployments[id]
  {
    if event.Recover? {
      StrandedBlocks(s, id);
    } else if IsTurn(event) {
      TurnLeaves(s, event, id);
    } else {
      TableLeaves(s, event, id);
    }
  }

  ghost predicate StuckAs(s: State, id: Id, d: Deployment) {
    Inv(s) && Stranded(s, id) && s.deployments[id] == d
  }

  lemma StuckKeeps(id: Id, d: Deployment)
    ensures Runs.Keeps(Next, s => StuckAs(s, id, d), Advances)
  {
    forall s, event, t | StuckAs(s, id, d) && Next(s, event, t) ensures StuckAs(t, id, d) && Advances(s, t) {
      StepKeeps(s, event, t);
      StrandedStays(s, event, t, id);
    }
  }

  /** In every run, from the moment a deployment is stranded every recovery fails and
      changes nothing. */
  lemma StrandedForever(states: seq<State>, events: seq<Event>, m: nat, n: nat, id: Id)
    requires IsRun(states, events) && m <= n < |states| && Stranded(states[m], id)
    ensures Stranded(states[n], id) && states[n].deployments[id] == states[m].deployments[id]
    ensures !RecoverWorks(states[n]) && Step(states[n], Recover) == states[n]
  {
    var d := states[m].deployments[id];
    RunInvariant(states, events, m);
    StuckKeeps(id, d);
    Runs.Suffix(states, events, Next, m);
    Runs.RunKeeps(states[m..], events[m..], Next, s => StuckAs(s, id, d), Advances, n - m);
    StrandedBlocks(states[n], id);
  }

  /** At any point of a run a deployment cannot be loaded, by recovery or by a reader,
      exactly when its build is saved and its row is not ready. */
  lemma UnreadableExactly(states: seq<State>, events: seq<Event>, n: nat, id: Id)
    requires IsRun(states, events) && n < |states| && id in states[n].deployments
    ensures var d := states[n].deployments[id];
            !Loads(d) <==> d.build.Some? && (d.row.status.Publishing? || d.row.status.Failed?)
  {
    RunInvariant(states, events, n);
    assert Consistent(states[n].deployments[id], states[n].blobs, states[n].limit);
  }

  // ---- such runs exist -------------------------------------------------------

  const LAYER: Bytes := []
  const ARTIFACT: Layer := Artifact(0, 0, Sha256(LAYER))
  const EMPTY: State := State(map[], map[], map[], 0)

  /** One deployment with one builder at work on it. */
  function AtWork(row: Row, build: Option<seq<Layer>>, layers: Option<seq<Bytes>>, closed: bool, record: Row,
                  stage: Stage, blobs: map<Key, Bytes>)
    : State
  {
    State(map[0 := Deployment(row, build, History(1, "", [], layers, closed), None, None, None, false)],
          map[0 := Job(0, record, stage)], blobs, 0)
  }

  function Stored(): map<Key, Bytes> {
    map[0 := LAYER]
  }

  function InStage(status: Status): Row {
    Row(status, None, "")
  }

  lemma ClaimSteps()
    ensures var queued := EMPTY.(deployments := map[0 := NEW]);
            && Next(EMPTY, Create(0), queued)
            && Next(queued, Claim(0, 0, true),
                    AtWork(InStage(Building), None, None, false, InStage(Building), Preparing, map[]))
  {
  }

  lemma BuildSteps()
    ensures var b := InStage(Building);
            && Next(AtWork(b, None, None, false, b, Preparing, map[]), Follow(0),
                    AtWork(b, None, None, false, b, Streaming(false, Waiting), map[]))
            && Next(AtWork(b, None, None, false, b, Streaming(false, Waiting), map[]), Return(0, Ok([LAYER])),
                    AtWork(b, None, Some([LAYER]), false, b, Stopping(false, Waiting, Ok([LAYER])), map[]))
            && Next(AtWork(b, None, Some([LAYER]), false, b, Stopping(false, Waiting, Ok([LAYER])), map[]), Stop(0),
                    AtWork(b, None, Some([LAYER]), false, b, Stopping(false, Gone, Ok([LAYER])), map[]))
  {
  }

  lemma CloseSteps()
    ensures var b, p := InStage(Building), InStage(Publishing);
            && Next(AtWork(b, None, Some([LAYER]), false, b, Stopping(false, Gone, Ok([LAYER])), map[]), Close(0),
                    AtWork(b, None, Some([LAYER]), true, p, Advancing([LAYER]), map[]))
            && Next(AtWork(b, None, Some([LAYER]), true, p, Advancing([LAYER]), map[]), Advance(0, Done),
                    AtWork(p, None, Some([LAYER]), true, p, Storing([LAYER], [], 0), map[]))
  {
  }

  lemma StoreSteps()
    ensures var p, r := InStage(Publishing), InStage(Ready);
            && Next(AtWork(p, None, Some([LAYER]), true, p, Storing([LAYER], [], 0), map[]), Put(0, 0, Done),
                    AtWork(p, None, Some([LAYER]), true, p, Storing([], [ARTIFACT], 0), Stored()))
            && Next(AtWork(p, None, Some([LAYER]), true, p, Storing([], [ARTIFACT], 0), Stored()), Seal(0),
                    AtWork(p, None, Some([LAYER]), true, p, Sealing([ARTIFACT]), Stored()))
            && Next(AtWork(p, None, Some([LAYER]), true, p, Sealing([ARTIFACT]), Stored()), Publish(0, Done),
                    AtWork(p, Some([ARTIFACT]), Some([LAYER]), true, p, Finishing(r), Stored()))
  {
    assert [LAYER][1..] == [];
    assert [] + [ARTIFACT] == [ARTIFACT];
  }

  ghost predicate NoCrash(events: seq<Event>) {
    forall i :: 0 <= i < |events| ==> !events[i].Crash?
  }

  lemma Extend(states: seq<State>, events: seq<Event>, event: Event, t: State)
    returns (more: seq<State>, done: seq<Event>)
    requires IsRun(states, events) && Next(states[|states| - 1], event, t)
    ensures IsRun(more, done) && more[|more| - 1] == t
    ensures NoCrash(events) && !event.Crash? ==> NoCrash(done)
  {
    more, done := states + [t], events + [event];
    Runs.Extended(states, events, Next, event, t);
  }

  lemma UpToStoring() returns (states: seq<State>, events: seq<Event>)
    ensures IsRun(states, events) && NoCrash(events)
    ensures states[|states| - 1] ==
            AtWork(InStage(Publishing), None, Some([LAYER]), true, InStage(Publishing), Storing([LAYER], [], 0), map[])
  {
    var b, p := InStage(Building), InStage(Publishing);
    ClaimSteps();
    BuildSteps();
    CloseSteps();
    states, events := [EMPTY], [];
    states, events := Extend(states, events, Create(0), EMPTY.(deployments := map[0 := NEW]));
    states, events := Extend(states, events, Claim(0, 0, true), AtWork(b, None, None, false, b, Preparing, map[]));
    states, events := Extend(states, events, Follow(0),
                             AtWork(b, None, None, false, b, Streaming(false, Waiting), map[]));
    states, events := Extend(states, events, Return(0, Ok([LAYER])),
                             AtWork(b, None, Some([LAYER]), false, b, Stopping(false, Waiting, Ok([LAYER])), map[]));
    states, events := Extend(states, events, Stop(0),
                             AtWork(b, None, Some([LAYER]), false, b, Stopping(false, Gone, Ok([LAYER])), map[]));
    states, events := Extend(states, events, Close(0),
                             AtWork(b, None, Some([LAYER]), true, p, Advancing([LAYER]), map[]));
    states, events := Extend(states, events, Advance(0, Done),
                             AtWork(p, None, Some([LAYER]), true, p, Storing([LAYER], [], 0), map[]));
  }

  lemma UpToFinishing() returns (states: seq<State>, events: seq<Event>)
    ensures IsRun(states, events) && NoCrash(events)
    ensures states[|states| - 1] ==
            AtWork(InStage(Publishing), Some([ARTIFACT]), Some([LAYER]), true, InStage(Publishing),
                   Finishing(InStage(Ready)), Stored())
  {
    var p, r := InStage(Publishing), InStage(Ready);
    StoreSteps();
    states, events := UpToStoring();
    states, events := Extend(states, events, Put(0, 0, Done),
                             AtWork(p, None, Some([LAYER]), true, p, Storing([], [ARTIFACT], 0), Stored()));
    states, events := Extend(states, events, Seal(0),
                             AtWork(p, None, Some([LAYER]), true, p, Sealing([ARTIFACT]), Stored()));
    states, events := Extend(states, events, Publish(0, Done),
                             AtWork(p, Some([ARTIFACT]), Some([LAYER]), true, p, Finishing(r), Stored()));
  }

  /** A builder that dies between saving the build and saving the row as ready, or whose
      last save merely fails, leaves a deployment no later recovery gets past. */
  lemma StrandedIsReachable(crash: bool) returns (states: seq<State>, events: seq<Event>)
    ensures IsRun(states, events) && Stranded(states[|states| - 1], 0)
    ensures !crash ==> NoCrash(events)
  {
    states, events := UpToFinishing();
    var s := states[|states| - 1];
    var event := if crash then Crash(0, false) else Finish(0, Failing(false));
    assert Enabled(s, event);
    states, events := Extend(states, events, event, Step(s, event));
  }
}
