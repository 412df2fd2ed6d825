/** How deployments are claimed, built, published and finished by any number of
    builders, while toolchains print, log flushers save snapshots, processes crash,
    statements land after their caller has given up or died, and recovery races live
    builders. */
module DeployProtocol {
  import opened Wrappers
  import opened Copying
  import opened Builds
  import Runs

  type Id = nat
  type BuilderId = nat
  type Key = nat

  const MAX_LOG_BYTES: nat := 262_144

  datatype Status = Queued | Building | Publishing | Ready | Failed

  /** The columns of a deployment that change. */
  datatype Row = Row(status: Status, failure: Option<string>, logs: string)

  predicate Unfinished(status: Status) {
    status.Queued? || status.Building? || status.Publishing?
  }

  /** The end of a text that fits the bound. */
  function Tail(text: string): (r: string)
    ensures |r| <= MAX_LOG_BYTES
  {
    if |text| > MAX_LOG_BYTES then text[|text| - MAX_LOG_BYTES..] else text
  }

  /** It is the last bytes, and as many as fit. */
  lemma TailIsEnd(text: string)
    ensures Tail(text) == text[|text| - |Tail(text)|..]
    ensures |Tail(text)| == if |text| <= 262_144 then |text| else 262_144
  {
  }

  /** Deployment.Log */
  function Log(row: Row, output: string): Row {
    if output == "" then row else row.(logs := Tail(row.logs + output))
  }

  /** Whatever pieces the output comes in, the record has the tail of all of it. */
  lemma TailOfTail(a: string, b: string)
    ensures Tail(Tail(a) + b) == Tail(a + b)
  {
  }

  lemma LogTails(row: Row, wrote: string, output: string)
    requires row.logs == Tail(wrote)
    ensures Log(row, output).logs == Tail(wrote + output)
  {
    TailOfTail(wrote, output);
    if output == "" {
      assert wrote + output == wrote;
    }
  }

  /** SHA-256 kept symbolically: a digest is of some bytes. */
  datatype Digest = Sha256(of: Bytes)

  type Layer = Artifact<Key, Digest>

  // ---- the state -------------------------------------------------------------

  /** What has ever happened to a deployment: how often it was claimed, what the
      toolchain printed, the logs of every snapshot handed to Save, the layers it
      returned, and whether the log stream has been closed. */
  datatype History = History(claims: nat, wrote: string, snapshots: seq<string>, layers: Option<seq<Bytes>>,
                             closed: bool)

  const UNTOUCHED: History := History(0, "", [], None, false)

  /** A deployments row with the builds row that names it, and what the database may
      still do to them for a caller that has given up or died: commit a Save, which
      until then holds the lock every Save of this deployment takes, or insert a build.
      `report` is the failure its builder came to, and `recovered` whether a recovery has
      failed it. */
  datatype Deployment = Deployment(row: Row, build: Option<seq<Layer>>, past: History,
                                   save: Option<Row>, insert: Option<seq<Layer>>,
                                   report: Option<string>, recovered: bool)

  /** logStream's flusher: in its select, inside Save, the last time round or not, or
      returned. */
  datatype Flusher = Waiting | Holding(snapshot: Row, last: bool) | Gone

  datatype Stage =
    | Preparing
    | Streaming(written: bool, flusher: Flusher)
    | Stopping(written: bool, flusher: Flusher, result: Result<seq<Bytes>, string>)
    | Advancing(built: seq<Bytes>)
    | Storing(layers: seq<Bytes>, artifacts: seq<Layer>, remaining: nat)
    | Sealing(sealed: seq<Layer>)
    | Finishing(final: Row)

  /** A ProcessOne under way; `record` is its own copy of the deployment. */
  datatype Job = Job(id: Id, record: Row, stage: Stage)

  /** `limit` is MaxArtifactBytes. */
  datatype State = State(deployments: map<Id, Deployment>, jobs: map<BuilderId, Job>, blobs: map<Key, Bytes>,
                         limit: nat)

  /** How a call ends: carried out; an error that may hide that it was; or an error
      after which it still may be. */
  datatype Reply = Done | Failing(landed: bool) | Late

  predicate Lands(reply: Reply) {
    reply.Done? || (reply.Failing? && reply.landed)
  }

  datatype Event =
    | Create(id: Id)
    | Claim(builder: BuilderId, id: Id, heard: bool)
    | GiveUp(builder: BuilderId, failure: string)
    | Follow(builder: BuilderId)
    | Write(builder: BuilderId, output: string)
    | Tick(builder: BuilderId)
    | Stop(builder: BuilderId)
    | Persist(builder: BuilderId, reply: Reply)
    | Return(builder: BuilderId, result: Result<seq<Bytes>, string>)
    | Close(builder: BuilderId)
    | Advance(builder: BuilderId, reply: Reply)
    | Put(builder: BuilderId, key: Key, reply: Reply)
    | Seal(builder: BuilderId)
    | Publish(builder: BuilderId, reply: Reply)
    | Finish(builder: BuilderId, reply: Reply)
    | Crash(builder: BuilderId, sent: bool)
    | Settle(id: Id, lands: bool)
    | Insert(id: Id, lands: bool)
    | Recover

  // ---- the database ----------------------------------------------------------

  /** The WHERE of the upsert: an unfinished row may become anything, a finished one
      only what it already is. */
  predicate Accepts(row: Row, next: Row) {
    Unfinished(row.status) || row.status == next.status
  }

  function Saved(d: Deployment, next: Row, landed: bool): Deployment {
    if landed && Accepts(d.row, next) then d.(row := next) else d
  }

  /** A Save can end so: it takes effect, or may yet, only under the lock. */
  predicate CanSave(d: Deployment, next: Row, reply: Reply) {
    (reply.Done? ==> Accepts(d.row, next)) && (reply != Failing(false) ==> d.save.None?)
  }

  function AfterSave(d: Deployment, next: Row, reply: Reply): Deployment {
    if reply.Late? then d.(save := Some(next)) else Saved(d, next, Lands(reply))
  }

  /** INSERT into builds, where one deployment has at most one row. */
  function Built(d: Deployment, artifacts: seq<Layer>, landed: bool): Deployment {
    if landed && d.build.None? then d.(build := Some(artifacts)) else d
  }

  function AfterPublish(d: Deployment, artifacts: seq<Layer>, reply: Reply): Deployment {
    if reply.Late? then d.(insert := Some(artifacts)) else Built(d, artifacts, Lands(reply))
  }

  /** Deployment.Validate over the joined row: only a ready deployment has a build, and
      it must. */
  predicate Loads(d: Deployment) {
    d.row.status.Ready? <==> d.build.Some?
  }

  const INTERRUPTED: string := "build_interrupted"

  function Interrupted(d: Deployment): Deployment {
    if Unfinished(d.row.status) then
      d.(row := d.row.(status := Failed, failure := Some(INTERRUPTED)), recovered := true)
    else d
  }

  /** RecoverBuilding is one transaction: a row that does not load undoes it all. */
  predicate RecoverWorks(s: State) {
    forall id :: id in s.deployments && Unfinished(s.deployments[id].row.status) ==> Loads(s.deployments[id])
  }

  // ---- the turns of a builder ------------------------------------------------

  predicate HasStream(stage: Stage) {
    stage.Streaming? || stage.Stopping?
  }

  function WithStream(stage: Stage, written: bool, flusher: Flusher): Stage
    requires HasStream(stage)
  {
    match stage
    case Streaming(_, _) => Streaming(written, flusher)
    case Stopping(_, _, result) => Stopping(written, flusher, result)
  }

  function FailedWith(record: Row, failure: string): Row {
    record.(status := Failed, failure := Some(failure))
  }

  function Fail(job: Job, failure: string): Job {
    job.(stage := Finishing(FailedWith(job.record, failure)))
  }

  /** The steps with which a builder goes on with its job. */
  predicate IsTurn(event: Event) {
    || event.GiveUp? || event.Follow? || event.Write? || event.Tick? || event.Stop? || event.Persist? || event.Return?
    || event.Close? || event.Advance? || event.Put? || event.Seal? || event.Publish?
  }

  predicate CanTurn(d: Deployment, job: Job, event: Event)
    requires IsTurn(event)
  {
    match event
    case GiveUp(_, _) => job.stage.Preparing? || job.stage.Storing?
    case Follow(_) => job.stage.Preparing?
    case Write(_, _) => job.stage.Streaming?
    case Tick(_) => HasStream(job.stage) && job.stage.flusher.Waiting? && job.stage.written
    case Stop(_) => job.stage.Stopping? && job.stage.flusher.Waiting?
    case Persist(_, reply) =>
      HasStream(job.stage) && job.stage.flusher.Holding? && CanSave(d, job.stage.flusher.snapshot, reply)
    case Return(_, _) => job.stage.Streaming?
    case Close(_) => job.stage.Stopping? && job.stage.flusher.Gone?
    case Advance(_, reply) => job.stage.Advancing? && CanSave(d, job.record, reply)
    case Put(_, _, reply) =>
      && job.stage.Storing? && job.stage.layers != [] && !reply.Late?
      && (Lands(reply) ==> |job.stage.layers[0]| <= job.stage.remaining)
    case Seal(_) => job.stage.Storing? && job.stage.layers == []
    case Publish(_, reply) => job.stage.Sealing? && (reply.Done? ==> d.build.None?)
  }

  datatype Turn = Turn(d: Deployment, job: Job)

  /** The builder comes to a failure. */
  function Reported(d: Deployment, job: Job, failure: string): Turn {
    Turn(d.(report := Some(failure)), Fail(job, failure))
  }

  function Flush(d: Deployment, job: Job, last: bool): Turn
    requires HasStream(job.stage)
  {
    if !job.stage.written then Turn(d, job.(stage := WithStream(job.stage, false, if last then Gone else Waiting)))
    else
      Turn(d.(past := d.past.(snapshots := d.past.snapshots + [job.record.logs])),
           job.(stage := WithStream(job.stage, false, Holding(job.record, last))))
  }

  function TurnOf(d: Deployment, job: Job, event: Event, limit: nat): Turn
    requires IsTurn(event) && CanTurn(d, job, event)
  {
    match event
    case GiveUp(_, failure) => Reported(d, job, failure)
    case Follow(_) => Turn(d, job.(stage := Streaming(false, Waiting)))
    case Write(_, output) =>
      Turn(d.(past := d.past.(wrote := d.past.wrote + output)),
           job.(record := Log(job.record, output), stage := WithStream(job.stage, true, job.stage.flusher)))
    case Tick(_) => Flush(d, job, false)
    case Stop(_) => Flush(d, job, true)
    case Persist(_, reply) =>
      var flusher := job.stage.flusher;
      Turn(AfterSave(d, flusher.snapshot, reply),
           job.(stage := WithStream(job.stage, job.stage.written, if flusher.last then Gone else Waiting)))
    case Return(_, result) =>
      Turn(d.(past := d.past.(layers := match result case Ok(layers) => Some(layers) case Err(_) => None)),
           job.(stage := Stopping(job.stage.written, job.stage.flusher, result)))
    case Close(_) =>
      var closed := d.(past := d.past.(closed := true));
      match job.stage.result {
        case Err(failure) => Reported(closed, job, failure)
        case Ok(layers) =>
          if layers == [] then Reported(closed, job, "build_failed")
          else Turn(closed, job.(record := job.record.(status := Publishing), stage := Advancing(layers)))
      }
    case Advance(_, reply) =>
      var saved := AfterSave(d, job.record, reply);
      if reply.Done? then Turn(saved, job.(stage := Storing(job.stage.built, [], limit)))
      else Reported(saved, job, "build_environment")
    case Put(_, key, reply) =>
      var layer := job.stage.layers[0];
      if reply.Done? then
        Turn(d, job.(stage := Storing(job.stage.layers[1..],
                                      job.stage.artifacts + [Artifact(key, |layer|, Sha256(layer))],
                                      job.stage.remaining - |layer|)))
      else Reported(d, job, "artifact_store_failed")
    case Seal(_) => Turn(d, job.(stage := Sealing(job.stage.artifacts)))
    case Publish(_, reply) =>
      var published := AfterPublish(d, job.stage.sealed, reply);
      if reply.Done? then Turn(published, job.(stage := Finishing(job.record.(status := Ready))))
      else Reported(published, job, "artifact_store_failed")
  }

  // ---- the steps -------------------------------------------------------------

  predicate Busy(s: State, b: BuilderId) {
    b in s.jobs && s.jobs[b].id in s.deployments
  }

  function Mine(s: State, b: BuilderId): Deployment
    requires Busy(s, b)
  {
    s.deployments[s.jobs[b].id]
  }

  predicate Enabled(s: State, event: Event) {
    if IsTurn(event) then
      && Busy(s, event.builder) && CanTurn(Mine(s, event.builder), s.jobs[event.builder], event)
      && (event.Put? && Lands(event.reply) ==> event.key !in s.blobs)
    else match event
      case Create(id) => id !in s.deployments
      case Claim(b, id, _) => b !in s.jobs && id in s.deployments && s.deployments[id].row.status.Queued?
      case Finish(b, reply) =>
        Busy(s, b) && s.jobs[b].stage.Finishing? && CanSave(Mine(s, b), s.jobs[b].stage.final, reply)
      case Crash(b, _) => Busy(s, b)
      case Settle(id, _) => id in s.deployments && s.deployments[id].save.Some?
      case Insert(id, _) => id in s.deployments && s.deployments[id].insert.Some?
      case Recover => true
  }

  function Moved(s: State, b: BuilderId, turn: Turn): State
    requires Busy(s, b)
  {
    s.(deployments := s.deployments[s.jobs[b].id := turn.d], jobs := s.jobs[b := turn.job])
  }

  function Ended(s: State, b: BuilderId, d: Deployment): State
    requires Busy(s, b)
  {
    s.(deployments := s.deployments[s.jobs[b].id := d], jobs := s.jobs - {b})
  }

  /** A dying builder's Save, unless it was still waiting for the lock. */
  function LeftSaving(d: Deployment, next: Row): Deployment {
    if d.save.None? then d.(save := Some(next)) else d
  }

  /** What the call a builder dies in may still do. */
  function LeftBehind(d: Deployment, job: Job): Deployment {
    match job.stage
    case Streaming(_, Holding(snapshot, _)) => LeftSaving(d, snapshot)
    case Stopping(_, Holding(snapshot, _), _) => LeftSaving(d, snapshot)
    case Advancing(_) => LeftSaving(d, job.record)
    case Sealing(artifacts) => d.(insert := Some(artifacts))
    case Finishing(final) => LeftSaving(d, final)
    case _ => d
  }

  function Remains(d: Deployment, job: Job, sent: bool): Deployment {
    if sent then LeftBehind(d, job) else d
  }

  function Settled(d: Deployment, lands: bool): Deployment
    requires d.save.Some?
  {
    Saved(d.(save := None), d.save.value, lands)
  }

  function Inserted(d: Deployment, lands: bool): Deployment
    requires d.insert.Some?
  {
    Built(d.(insert := None), d.insert.value, lands)
  }

  function Step(s: State, event: Event): State
    requires Enabled(s, event)
  {
    if IsTurn(event) then
      var job := s.jobs[event.builder];
      var t := Moved(s, event.builder, TurnOf(Mine(s, event.builder), job, event, s.limit));
      if event.Put? && Lands(event.reply) then t.(blobs := s.blobs[event.key := job.stage.layers[0]]) else t
    else match event
      case Create(id) => s.(deployments := s.deployments[id := NEW])
      case Claim(b, id, heard) =>
        var taken := s.(deployments := s.deployments[id := Taken(s.deployments[id])]);
        if heard then taken.(jobs := s.jobs[b := Job(id, Taken(s.deployments[id]).row, Preparing)]) else taken
      case Finish(b, reply) => Ended(s, b, AfterSave(Mine(s, b), s.jobs[b].stage.final, reply))
      case Crash(b, sent) => Ended(s, b, Remains(Mine(s, b), s.jobs[b], sent))
      case Settle(id, lands) => s.(deployments := s.deployments[id := Settled(s.deployments[id], lands)])
      case Insert(id, lands) => s.(deployments := s.deployments[id := Inserted(s.deployments[id], lands)])
      case Recover =>
        if RecoverWorks(s) then s.(deployments := map id | id in s.deployments :: Interrupted(s.deployments[id])) else s
  }

  const NEW: Deployment := Deployment(Row(Queued, None, ""), None, UNTOUCHED, None, None, None, false)

  function Taken(d: Deployment): Deployment {
    d.(row := d.row.(status := Building), past := d.past.(claims := d.past.claims + 1))
  }

  // ---- what every step keeps -------------------------------------------------

  predicate IsStored(artifact: Layer, blobs: map<Key, Bytes>) {
    && artifact.key in blobs
    && artifact.size == |blobs[artifact.key]| && artifact.digest == Sha256(blobs[artifact.key])
  }

  ghost predicate AllStored(artifacts: seq<Layer>, blobs: map<Key, Bytes>) {
    forall i :: 0 <= i < |artifacts| ==> IsStored(artifacts[i], blobs)
  }

  /** The artifacts are of these layers, one each and in order. */
  ghost predicate MadeOf(artifacts: seq<Layer>, layers: seq<Bytes>) {
    && |artifacts| == |layers|
    && forall i :: 0 <= i < |artifacts| ==> artifacts[i].size == |layers[i]| && artifacts[i].digest == Sha256(layers[i])
  }

  /** A build of what the toolchain returned: every layer is in the blob store as
      recorded, and together they keep to the limit. */
  ghost predicate Sealed(artifacts: seq<Layer>, past: History, blobs: map<Key, Bytes>, limit: nat) {
    && past.layers.Some? && past.layers.value != [] && MadeOf(artifacts, past.layers.value)
    && AllStored(artifacts, blobs) && Volume(artifacts) <= limit && past.closed
  }

  predicate ValidRow(row: Row) {
    |row.logs| <= MAX_LOG_BYTES && (row.failure.Some? <==> row.status.Failed?)
  }

  /** A save that takes this deployment no further back. */
  predicate Fits(next: Row, d: Deployment) {
    && ValidRow(next) && !next.status.Queued?
    && d.past.claims == 1 && !d.row.status.Queued? && !d.row.status.Ready?
    && (next.status.Building? ==> !d.row.status.Publishing? && d.build.None?)
    && (next.status.Publishing? ==> !d.row.status.Publishing? && d.build.None? && d.past.closed)
    && (next.status.Ready? ==> d.build.Some? && d.past.closed && next.logs == Tail(d.past.wrote))
  }

  ghost predicate Consistent(d: Deployment, blobs: map<Key, Bytes>, limit: nat) {
    && ValidRow(d.row)
    && d.past.claims <= 1
    && (d.row.status.Queued? ==> d.past == UNTOUCHED && d.row.logs == "")
    && (d.past.claims == 0 ==> d.build.None? && (d.row.status.Queued? || d.row.status.Failed?))
    && (d.row.status.Ready? ==> d.build.Some? && d.past.closed && d.row.logs == Tail(d.past.wrote))
    && (d.past.closed ==> Covered(d.past, Tail(d.past.wrote)))
    && (d.build.Some? ==> Sealed(d.build.value, d.past, blobs, limit) && !d.row.status.Building?)
    && (d.save.Some? ==> Fits(d.save.value, d))
    && (d.insert.Some? ==>
          && Sealed(d.insert.value, d.past, blobs, limit) && d.build.None? && d.past.claims == 1
          && (d.row.status.Publishing? || d.row.status.Failed?)
          && (d.save.Some? ==> d.save.value.status.Failed?))
    && (d.row.status.Failed? ==> IsOwn(d.row, d) || (d.recovered && d.row.failure == Some(INTERRUPTED)))
    && (d.save.Some? && d.save.value.status.Failed? ==> IsOwn(d.save.value, d))
    && (d.recovered ==> d.row.status.Failed?)
    && (d.row.status.Queued? ==> d.report.None?)
  }

  /** The failure of the row is the one its builder reported. */
  predicate IsOwn(row: Row, d: Deployment) {
    d.report.Some? && row.failure == d.report
  }

  /** The last snapshot has the tail of all that was printed. */
  predicate Covered(past: History, logs: string) {
    past.wrote == "" || (past.snapshots != [] && past.snapshots[|past.snapshots| - 1] == logs)
  }

  /** The flusher is in its last round or past it. */
  predicate Last(flusher: Flusher) {
    flusher.Gone? || (flusher.Holding? && flusher.last)
  }

  /** A builder whose toolchain may still print: only building rows are saved. */
  predicate Early(job: Job, d: Deployment) {
    && job.record.status.Building? && !d.row.status.Publishing? && d.build.None? && d.insert.None?
    && (d.save.Some? ==> d.save.value.status.Building?)
  }

  predicate Streams(written: bool, flusher: Flusher, job: Job, d: Deployment) {
    && Early(job, d) && !d.past.closed
    && (flusher.Holding? ==> ValidRow(flusher.snapshot) && flusher.snapshot.status.Building?)
    && (Last(flusher) ==> !written)
    && (!written ==> Covered(d.past, job.record.logs))
  }

  /** A builder whose row is publishing, for all it knows. */
  predicate Uploads(job: Job, d: Deployment) {
    && job.record.status.Publishing? && !d.row.status.Building?
    && d.build.None? && d.insert.None? && d.save.None? && d.past.closed
  }

  /** What a builder knows of the deployment it has claimed. */
  ghost predicate Tracks(job: Job, d: Deployment, blobs: map<Key, Bytes>, limit: nat) {
    && d.past.claims == 1 && !d.row.status.Queued? && !d.row.status.Ready?
    && job.record.logs == Tail(d.past.wrote) && job.record.failure.None?
    && (!job.stage.Finishing? ==> d.report.None?)
    && match job.stage {
      case Preparing => Early(job, d) && d.save.None? && d.past.wrote == "" && !d.past.closed
      case Streaming(written, flusher) => Streams(written, flusher, job, d) && !Last(flusher)
      case Stopping(written, flusher, result) =>
        Streams(written, flusher, job, d) && (result.Ok? ==> d.past.layers == Some(result.value))
      case Advancing(built) =>
        && job.record.status.Publishing? && !d.row.status.Publishing? && d.build.None? && d.insert.None?
        && d.past.closed
        && (d.save.Some? ==> d.save.value.status.Building?)
        && d.past.layers == Some(built) && built != []
      case Storing(left, artifacts, remaining) =>
        Uploads(job, d) && Half(left, artifacts, d.past, blobs, remaining, limit)
      case Sealing(artifacts) => Uploads(job, d) && Sealed(artifacts, d.past, blobs, limit)
      case Finishing(final) => Ends(final, d)
    }
  }

  /** Some layers are stored and charged, the others still to come. */
  ghost predicate Half(left: seq<Bytes>, artifacts: seq<Layer>, past: History, blobs: map<Key, Bytes>, remaining: nat,
                       limit: nat)
  {
    && past.layers.Some? && past.layers.value != []
    && |artifacts| <= |past.layers.value| && left == past.layers.value[|artifacts|..]
    && MadeOf(artifacts, past.layers.value[..|artifacts|])
    && AllStored(artifacts, blobs) && Volume(artifacts) + remaining == limit
  }

  /** The last save of a ProcessOne. */
  predicate Ends(final: Row, d: Deployment) {
    && ValidRow(final) && !Unfinished(final.status)
    && final.logs == Tail(d.past.wrote) && (d.past.wrote != "" ==> d.past.closed)
    && (final.status.Ready? ==> d.build.Some? && d.past.closed && d.save.None?)
    && (d.build.Some? || d.insert.Some? ==> d.save.None?)
    && (d.insert.Some? ==> final.status.Failed?)
    && (if final.status.Failed? then IsOwn(final, d) else d.report.None?)
  }

  ghost predicate AllConsistent(s: State) {
    forall id :: id in s.deployments ==> Consistent(s.deployments[id], s.blobs, s.limit)
  }

  ghost predicate AllTracked(s: State) {
    forall b :: b in s.jobs ==> Busy(s, b) && Tracks(s.jobs[b], Mine(s, b), s.blobs, s.limit)
  }

  /** No deployment has two builders. */
  ghost predicate Exclusive(s: State) {
    forall a, b :: a in s.jobs && b in s.jobs && a != b ==> s.jobs[a].id != s.jobs[b].id
  }

  ghost predicate Inv(s: State) {
    AllConsistent(s) && AllTracked(s) && Exclusive(s)
  }

  // ---- what never changes ----------------------------------------------------

  function Rank(status: Status): nat {
    match status
    case Queued => 0
    case Building => 1
    case Publishing => 2
    case Ready => 3
    case Failed => 3
  }

  /** The log stream is closed and no building row is on its way to the table. */
  predicate Quiet(d: Deployment) {
    d.past.closed && (d.save.Some? ==> !d.save.value.status.Building?)
  }

  /** `later` is a possible future of `d`. */
  ghost predicate Future(d: Deployment, later: Deployment) {
    && Rank(d.row.status) <= Rank(later.row.status)
    && (!Unfinished(d.row.status) ==> later.row.status == d.row.status)
    && (d.row.status.Ready? ==> later == d)
    && (d.build.Some? ==> later.build == d.build)
    && d.past.claims <= later.past.claims
    && d.past.wrote <= later.past.wrote
    && d.past.snapshots <= later.past.snapshots
    && (d.past.closed ==> later.past == d.past)
    && (d.report.Some? ==> later.report == d.report) && (d.recovered ==> later.recovered)
    && (Quiet(d) ==> Quiet(later) && (later.row.status.Building? ==> later.row == d.row))
  }

  ghost predicate BlobsKept(before: map<Key, Bytes>, after: map<Key, Bytes>) {
    forall k :: k in before ==> k in after && after[k] == before[k]
  }

  ghost predicate Advances(s: State, t: State) {
    && BlobsKept(s.blobs, t.blobs) && t.limit == s.limit
    && forall id :: id in s.deployments ==> id in t.deployments && Future(s.deployments[id], t.deployments[id])
  }

  lemma FutureReflexive(d: Deployment)
    ensures Future(d, d)
  {
  }

  lemma FutureTransitive(a: Deployment, b: Deployment, c: Deployment)
    requires Future(a, b) && Future(b, c)
    ensures Future(a, c)
  {
  }

  lemma AdvancesReflexive(s: State)
    ensures Advances(s, s)
  {
  }

  lemma AdvancesTransitive(a: State, b: State, c: State)
    requires Advances(a, b) && Advances(b, c)
    ensures Advances(a, c)
  {
    forall id | id in a.deployments ensures id in c.deployments && Future(a.deployments[id], c.deployments[id]) {
      FutureTransitive(a.deployments[id], b.deployments[id], c.deployments[id]);
    }
  }

  // ---- saves -----------------------------------------------------------------

  /** A save that fits never takes the row back, whichever way it ends. */
  lemma SaveAdvances(d: Deployment, next: Row, reply: Reply, blobs: map<Key, Bytes>, limit: nat)
    requires Consistent(d, blobs, limit) && Fits(next, d) && CanSave(d, next, reply)
    requires next.status.Building? ==> !d.past.closed
    requires d.insert.Some? ==> next.status.Failed?
    requires next.status.Failed? ==> IsOwn(next, d)
    ensures Consistent(AfterSave(d, next, reply), blobs, limit) && Future(d, AfterSave(d, next, reply))
  {
  }

  /** So does one that lands after its caller is gone, or never does. */
  lemma SettleAdvances(d: Deployment, lands: bool, blobs: map<Key, Bytes>, limit: nat)
    requires Consistent(d, blobs, limit) && d.save.Some?
    ensures Consistent(Settled(d, lands), blobs, limit) && Future(d, Settled(d, lands))
  {
  }

  lemma InsertAdvances(d: Deployment, lands: bool, blobs: map<Key, Bytes>, limit: nat)
    requires Consistent(d, blobs, limit) && d.insert.Some?
    ensures Consistent(Inserted(d, lands), blobs, limit) && Future(d, Inserted(d, lands))
  {
  }

  /** What settles under a live builder's feet is what it allows for. */
  lemma SettleTracks(job: Job, d: Deployment, lands: bool, blobs: map<Key, Bytes>, limit: nat)
    requires Consistent(d, blobs, limit) && Tracks(job, d, blobs, limit) && d.save.Some?
    ensures Tracks(job, Settled(d, lands), blobs, limit)
  {
  }

  lemma InsertTracks(job: Job, d: Deployment, lands: bool, blobs: map<Key, Bytes>, limit: nat)
    requires Consistent(d, blobs, limit) && Tracks(job, d, blobs, limit) && d.insert.Some?
    ensures Tracks(job, Inserted(d, lands), blobs, limit)
  {
  }

  // ---- the turns of a builder keep it all ------------------------------------

  ghost predicate TurnKept(d: Deployment, job: Job, turn: Turn, blobs: map<Key, Bytes>, limit: nat) {
    && Consistent(turn.d, blobs, limit) && Future(d, turn.d)
    && turn.job.id == job.id && Tracks(turn.job, turn.d, blobs, limit)
  }

  lemma WriteKeeps(d: Deployment, job: Job, event: Event, blobs: map<Key, Bytes>, limit: nat)
    requires Consistent(d, blobs, limit) && Tracks(job, d, blobs, limit)
    requires event.Follow? || event.Write? || event.Return?
    requires CanTurn(d, job, event)
    ensures TurnKept(d, job, TurnOf(d, job, event, limit), blobs, limit)
  {
    if event.Write? {
      LogTails(job.record, d.past.wrote, event.output);
    }
  }

  lemma FlushKeeps(d: Deployment, job: Job, last: bool, blobs: map<Key, Bytes>, limit: nat)
    requires Consistent(d, blobs, limit) && Tracks(job, d, blobs, limit)
    requires HasStream(job.stage) && job.stage.flusher.Waiting? && (last ==> job.stage.Stopping?)
    ensures TurnKept(d, job, Flush(d, job, last), blobs, limit)
  {
  }

  lemma PersistKeeps(d: Deployment, job: Job, event: Event, blobs: map<Key, Bytes>, limit: nat)
    requires Consistent(d, blobs, limit) && Tracks(job, d, blobs, limit)
    requires event.Persist? && CanTurn(d, job, event)
    ensures TurnKept(d, job, TurnOf(d, job, event, limit), blobs, limit)
  {
    SaveAdvances(d, job.stage.flusher.snapshot, event.reply, blobs, limit);
  }

  lemma CloseFails(d: Deployment, job: Job, failure: string, blobs: map<Key, Bytes>, limit: nat)
    requires Consistent(d, blobs, limit) && Tracks(job, d, blobs, limit)
    requires job.stage.Stopping? && job.stage.flusher.Gone?
    ensures TurnKept(d, job, Reported(d.(past := d.past.(closed := true)), job, failure), blobs, limit)
  {
  }

  lemma CloseGoesOn(d: Deployment, job: Job, blobs: map<Key, Bytes>, limit: nat)
    requires Consistent(d, blobs, limit) && Tracks(job, d, blobs, limit)
    requires job.stage.Stopping? && job.stage.flusher.Gone? && job.stage.result.Ok? && job.stage.result.value != []
    ensures var on := job.(record := job.record.(status := Publishing), stage := Advancing(job.stage.result.value));
            TurnKept(d, job, Turn(d.(past := d.past.(closed := true)), on), blobs, limit)
  {
  }

  lemma CloseKeeps(d: Deployment, job: Job, event: Event, blobs: map<Key, Bytes>, limit: nat)
    requires Consistent(d, blobs, limit) && Tracks(job, d, blobs, limit)
    requires event.Close? && CanTurn(d, job, event)
    ensures TurnKept(d, job, TurnOf(d, job, event, limit), blobs, limit)
  {
    match job.stage.result
    case Err(failure) => CloseFails(d, job, failure, blobs, limit);
    case Ok(layers) =>
      if layers == [] {
        CloseFails(d, job, "build_failed", blobs, limit);
      } else {
        CloseGoesOn(d, job, blobs, limit);
      }
  }

  lemma AdvanceKeeps(d: Deployment, job: Job, event: Event, blobs: map<Key, Bytes>, limit: nat)
    requires Consistent(d, blobs, limit) && Tracks(job, d, blobs, limit)
    requires event.Advance? && CanTurn(d, job, event)
    ensures TurnKept(d, job, TurnOf(d, job, event, limit), blobs, limit)
  {
    SaveAdvances(d, job.record, event.reply, blobs, limit);
    if event.reply.Done? {
      assert job.stage.built[0..] == job.stage.built;
    }
  }

  lemma HalfStep(left: seq<Bytes>, artifacts: seq<Layer>, past: History, blobs: map<Key, Bytes>, remaining: nat,
                 limit: nat, key: Key)
    requires Half(left, artifacts, past, blobs, remaining, limit) && left != [] && |left[0]| <= remaining
    requires key in blobs && blobs[key] == left[0]
    ensures Half(left[1..], artifacts + [Artifact(key, |left[0]|, Sha256(left[0]))], past, blobs,
                 remaining - |left[0]|, limit)
  {
    VolumeAppend(artifacts, Artifact(key, |left[0]|, Sha256(left[0])));
    assert past.layers.value[|artifacts|] == left[0];
  }

  /** A layer that is put is recorded as it landed and charged to the budget. */
  lemma PutKeeps(d: Deployment, job: Job, event: Event, blobs: map<Key, Bytes>, limit: nat)
    requires Consistent(d, blobs, limit) && Tracks(job, d, blobs, limit)
    requires event.Put? && CanTurn(d, job, event)
    requires Lands(event.reply) ==> event.key in blobs && blobs[event.key] == job.stage.layers[0]
    ensures TurnKept(d, job, TurnOf(d, job, event, limit), blobs, limit)
  {
    FutureReflexive(d);
    if event.reply.Done? {
      HalfStep(job.stage.layers, job.stage.artifacts, d.past, blobs, job.stage.remaining, limit, event.key);
    }
  }

  lemma HalfDone(artifacts: seq<Layer>, past: History, blobs: map<Key, Bytes>, remaining: nat, limit: nat)
    requires Half([], artifacts, past, blobs, remaining, limit) && past.closed
    ensures Sealed(artifacts, past, blobs, limit)
  {
    assert past.layers.value[..|artifacts|] == past.layers.value;
  }

  lemma SealKeeps(d: Deployment, job: Job, event: Event, blobs: map<Key, Bytes>, limit: nat)
    requires Consistent(d, blobs, limit) && Tracks(job, d, blobs, limit)
    requires (event.Seal? || event.GiveUp?) && CanTurn(d, job, event)
    ensures TurnKept(d, job, TurnOf(d, job, event, limit), blobs, limit)
  {
    FutureReflexive(d);
    if event.Seal? {
      HalfDone(job.stage.artifacts, d.past, blobs, job.stage.remaining, limit);
    }
  }

  lemma PublishKeeps(d: Deployment, job: Job, event: Event, blobs: map<Key, Bytes>, limit: nat)
    requires Consistent(d, blobs, limit) && Tracks(job, d, blobs, limit)
    requires event.Publish? && CanTurn(d, job, event)
    ensures TurnKept(d, job, TurnOf(d, job, event, limit), blobs, limit)
  {
  }

  lemma FlusherTurnKeeps(d: Deployment, job: Job, event: Event, blobs: map<Key, Bytes>, limit: nat)
    requires Consistent(d, blobs, limit) && Tracks(job, d, blobs, limit)
    requires (event.Tick? || event.Stop? || event.Persist?) && CanTurn(d, job, event)
    ensures TurnKept(d, job, TurnOf(d, job, event, limit), blobs, limit)
  {
    match event
    case Tick(_) => FlushKeeps(d, job, false, blobs, limit);
    case Stop(_) => FlushKeeps(d, job, true, blobs, limit);
    case Persist(_, _) => PersistKeeps(d, job, event, blobs, limit);
  }

  /** Every turn of a builder keeps what it and the table say of its deployment. */
  lemma TurnKeeps(d: Deployment, job: Job, event: Event, blobs: map<Key, Bytes>, limit: nat)
    requires Consistent(d, blobs, limit) && Tracks(job, d, blobs, limit)
    requires IsTurn(event) && CanTurn(d, job, event)
    requires event.Put? && Lands(event.reply) ==> event.key in blobs && blobs[event.key] == job.stage.layers[0]
    ensures TurnKept(d, job, TurnOf(d, job, event, limit), blobs, limit)
  {
    if event.Tick? || event.Stop? || event.Persist? {
      FlusherTurnKeeps(d, job, event, blobs, limit);
    } else if event.Follow? || event.Write? || event.Return? {
      WriteKeeps(d, job, event, blobs, limit);
    } else if event.Close? {
      CloseKeeps(d, job, event, blobs, limit);
    } else if event.Advance? {
      AdvanceKeeps(d, job, event, blobs, limit);
    } else if event.Put? {
      PutKeeps(d, job, event, blobs, limit);
    } else if event.Publish? {
      PublishKeeps(d, job, event, blobs, limit);
    } else {
      SealKeeps(d, job, event, blobs, limit);
    }
  }

  // ---- the steps keep it all -------------------------------------------------

  ghost predicate JobsMatch(s: State, t: State, id: Id, d: Deployment) {
    forall b :: b in t.jobs ==>
                  if t.jobs[b].id == id then Tracks(t.jobs[b], d, t.blobs, t.limit)
                  else b in s.jobs && t.jobs[b] == s.jobs[b]
  }

  lemma OneTracked(s: State, t: State, id: Id, d: Deployment)
    requires AllTracked(s) && t.blobs == s.blobs && t.limit == s.limit
    requires t.deployments == s.deployments[id := d] && JobsMatch(s, t, id, d)
    ensures AllTracked(t)
  {
  }

  lemma OneAdvances(s: State, t: State, id: Id, d: Deployment)
    requires t.blobs == s.blobs && t.limit == s.limit
    requires t.deployments == s.deployments[id := d] && (id in s.deployments ==> Future(s.deployments[id], d))
    ensures Advances(s, t)
  {
  }

  /** One deployment moves on; the others, and what builders of others know, stay. */
  lemma OneMoves(s: State, t: State, id: Id, d: Deployment)
    requires Inv(s) && Exclusive(t) && t.blobs == s.blobs && t.limit == s.limit
    requires t.deployments == s.deployments[id := d] && Consistent(d, s.blobs, s.limit)
    requires id in s.deployments ==> Future(s.deployments[id], d)
    requires JobsMatch(s, t, id, d)
    ensures Inv(t) && Advances(s, t)
  {
    OneAdvances(s, t, id, d);
    OneTracked(s, t, id, d);
  }

  lemma CreateKeeps(s: State, id: Id)
    requires Inv(s) && Enabled(s, Create(id))
    ensures Inv(Step(s, Create(id))) && Advances(s, Step(s, Create(id)))
  {
    OneMoves(s, Step(s, Create(id)), id, NEW);
  }

  lemma TakenKeeps(d: Deployment, id: Id, blobs: map<Key, Bytes>, limit: nat)
    requires Consistent(d, blobs, limit) && d.row.status.Queued?
    ensures Consistent(Taken(d), blobs, limit) && Future(d, Taken(d))
    ensures Tracks(Job(id, Taken(d).row, Preparing), Taken(d), blobs, limit)
  {
  }

  lemma NobodyHasQueued(s: State, id: Id)
    requires Inv(s) && id in s.deployments && s.deployments[id].row.status.Queued?
    ensures forall a :: a in s.jobs ==> s.jobs[a].id != id
  {
  }

  lemma ClaimKeeps(s: State, b: BuilderId, id: Id, heard: bool)
    requires Inv(s) && Enabled(s, Claim(b, id, heard))
    ensures Inv(Step(s, Claim(b, id, heard))) && Advances(s, Step(s, Claim(b, id, heard)))
  {
    NobodyHasQueued(s, id);
    TakenKeeps(s.deployments[id], id, s.blobs, s.limit);
    OneMoves(s, Step(s, Claim(b, id, heard)), id, Taken(s.deployments[id]));
  }

  lemma MovedKeeps(s: State, b: BuilderId, turn: Turn)
    requires Inv(s) && Busy(s, b) && TurnKept(Mine(s, b), s.jobs[b], turn, s.blobs, s.limit)
    ensures Inv(Moved(s, b, turn)) && Advances(s, Moved(s, b, turn))
  {
    OneMoves(s, Moved(s, b, turn), s.jobs[b].id, turn.d);
  }

  lemma EndedKeeps(s: State, b: BuilderId, d: Deployment)
    requires Inv(s) && Busy(s, b) && Consistent(d, s.blobs, s.limit) && Future(Mine(s, b), d)
    ensures Inv(Ended(s, b, d)) && Advances(s, Ended(s, b, d))
  {
    OneMoves(s, Ended(s, b, d), s.jobs[b].id, d);
  }

  lemma FinishKeeps(s: State, b: BuilderId, reply: Reply)
    requires Inv(s) && Enabled(s, Finish(b, reply))
    ensures Inv(Step(s, Finish(b, reply))) && Advances(s, Step(s, Finish(b, reply)))
  {
    SaveAdvances(Mine(s, b), s.jobs[b].stage.final, reply, s.blobs, s.limit);
    EndedKeeps(s, b, AfterSave(Mine(s, b), s.jobs[b].stage.final, reply));
  }

  /** A crash at any point leaves a call that can do no more than its builder could. */
  lemma RemainsKeeps(job: Job, d: Deployment, sent: bool, blobs: map<Key, Bytes>, limit: nat)
    requires Consistent(d, blobs, limit) && Tracks(job, d, blobs, limit)
    ensures Consistent(Remains(d, job, sent), blobs, limit) && Future(d, Remains(d, job, sent))
  {
  }

  lemma CrashKeeps(s: State, b: BuilderId, sent: bool)
    requires Inv(s) && Enabled(s, Crash(b, sent))
    ensures Inv(Step(s, Crash(b, sent))) && Advances(s, Step(s, Crash(b, sent)))
  {
    RemainsKeeps(s.jobs[b], Mine(s, b), sent, s.blobs, s.limit);
    EndedKeeps(s, b, Remains(Mine(s, b), s.jobs[b], sent));
  }

  /** A deployment changes under the feet of whoever has it. */
  lemma UnderFeet(s: State, id: Id, d: Deployment)
    requires Inv(s) && id in s.deployments && Consistent(d, s.blobs, s.limit) && Future(s.deployments[id], d)
    requires forall b :: b in s.jobs && s.jobs[b].id == id ==> Tracks(s.jobs[b], d, s.blobs, s.limit)
    ensures var t := s.(deployments := s.deployments[id := d]);
            Inv(t) && Advances(s, t)
  {
    OneMoves(s, s.(deployments := s.deployments[id := d]), id, d);
  }

  lemma SettleKeeps(s: State, id: Id, lands: bool)
    requires Inv(s) && Enabled(s, Settle(id, lands))
    ensures Inv(Step(s, Settle(id, lands))) && Advances(s, Step(s, Settle(id, lands)))
  {
    var d := s.deployments[id];
    SettleAdvances(d, lands, s.blobs, s.limit);
    forall b | b in s.jobs && s.jobs[b].id == id ensures Tracks(s.jobs[b], Settled(d, lands), s.blobs, s.limit) {
      SettleTracks(s.jobs[b], d, lands, s.blobs, s.limit);
    }
    UnderFeet(s, id, Settled(d, lands));
  }

  lemma InsertKeeps(s: State, id: Id, lands: bool)
    requires Inv(s) && Enabled(s, Insert(id, lands))
    ensures Inv(Step(s, Insert(id, lands))) && Advances(s, Step(s, Insert(id, lands)))
  {
    var d := s.deployments[id];
    InsertAdvances(d, lands, s.blobs, s.limit);
    forall b | b in s.jobs && s.jobs[b].id == id ensures Tracks(s.jobs[b], Inserted(d, lands), s.blobs, s.limit) {
      InsertTracks(s.jobs[b], d, lands, s.blobs, s.limit);
    }
    UnderFeet(s, id, Inserted(d, lands));
  }

  // ---- the blob store --------------------------------------------------------

  lemma StoredStays(artifacts: seq<Layer>, before: map<Key, Bytes>, after: map<Key, Bytes>)
    requires AllStored(artifacts, before) && BlobsKept(before, after)
    ensures AllStored(artifacts, after)
  {
  }

  lemma ConsistentStays(d: Deployment, before: map<Key, Bytes>, after: map<Key, Bytes>, limit: nat)
    requires Consistent(d, before, limit) && BlobsKept(before, after)
    ensures Consistent(d, after, limit)
  {
    if d.build.Some? {
      StoredStays(d.build.value, before, after);
    }
    if d.insert.Some? {
      StoredStays(d.insert.value, before, after);
    }
  }

  lemma TracksStays(job: Job, d: Deployment, before: map<Key, Bytes>, after: map<Key, Bytes>, limit: nat)
    requires Tracks(job, d, before, limit) && BlobsKept(before, after)
    ensures Tracks(job, d, after, limit)
  {
  }

  /** A blob is created and never replaced, so what was stored stays stored. */
  lemma BlobAdded(s: State, key: Key, data: Bytes)
    requires Inv(s) && key !in s.blobs
    ensures var t := s.(blobs := s.blobs[key := data]);
            Inv(t) && Advances(s, t)
  {
    var t := s.(blobs := s.blobs[key := data]);
    forall id | id in s.deployments ensures Consistent(t.deployments[id], t.blobs, t.limit) {
      ConsistentStays(s.deployments[id], s.blobs, t.blobs, s.limit);
    }
    forall b | b in s.jobs ensures Busy(t, b) && Tracks(t.jobs[b], Mine(t, b), t.blobs, t.limit) {
      TracksStays(s.jobs[b], Mine(s, b), s.blobs, t.blobs, s.limit);
    }
    AdvancesReflexive(s);
  }

  lemma TurnStepKeeps(s: State, event: Event)
    requires Inv(s) && Enabled(s, event) && IsTurn(event) && !(event.Put? && Lands(event.reply))
    ensures Inv(Step(s, event)) && Advances(s, Step(s, event))
  {
    var b := event.builder;
    TurnKeeps(Mine(s, b), s.jobs[b], event, s.blobs, s.limit);
    MovedKeeps(s, b, TurnOf(Mine(s, b), s.jobs[b], event, s.limit));
  }

  lemma PutStepKeeps(s: State, event: Event)
    requires Inv(s) && Enabled(s, event) && event.Put? && Lands(event.reply)
    ensures Inv(Step(s, event)) && Advances(s, Step(s, event))
  {
    var b := event.builder;
    var stored := s.(blobs := s.blobs[event.key := s.jobs[b].stage.layers[0]]);
    BlobAdded(s, event.key, s.jobs[b].stage.layers[0]);
    TurnKeeps(Mine(stored, b), stored.jobs[b], event, stored.blobs, s.limit);
    MovedKeeps(stored, b, TurnOf(Mine(s, b), s.jobs[b], event, s.limit));
    AdvancesTransitive(s, stored, Step(s, event));
  }

  // ---- recovery --------------------------------------------------------------

  lemma InterruptedKeeps(d: Deployment, blobs: map<Key, Bytes>, limit: nat)
    requires Consistent(d, blobs, limit)
    ensures Consistent(Interrupted(d), blobs, limit) && Future(d, Interrupted(d))
  {
  }

  lemma InterruptedTracks(job: Job, d: Deployment, blobs: map<Key, Bytes>, limit: nat)
    requires Tracks(job, d, blobs, limit)
    ensures Tracks(job, Interrupted(d), blobs, limit)
  {
  }

  lemma RecoverKeeps(s: State)
    requires Inv(s)
    ensures Inv(Step(s, Recover)) && Advances(s, Step(s, Recover))
  {
    var t := Step(s, Recover);
    if RecoverWorks(s) {
      forall id | id in s.deployments
        ensures Consistent(t.deployments[id], t.blobs, t.limit) && Future(s.deployments[id], t.deployments[id])
      {
        InterruptedKeeps(s.deployments[id], s.blobs, s.limit);
      }
      forall b | b in s.jobs ensures Busy(t, b) && Tracks(t.jobs[b], Mine(t, b), t.blobs, t.limit) {
        InterruptedTracks(s.jobs[b], Mine(s, b), s.blobs, s.limit);
      }
    } else {
      AdvancesReflexive(s);
    }
  }

  // ---- every step ------------------------------------------------------------

  ghost predicate Next(s: State, event: Event, t: State) {
    Enabled(s, event) && t == Step(s, event)
  }

  lemma TableKeeps(s: State, event: Event)
    requires Inv(s) && Enabled(s, event) && !IsTurn(event)
    ensures Inv(Step(s, event)) && Advances(s, Step(s, event))
  {
    match event
    case Create(id) => CreateKeeps(s, id);
    case Claim(b, id, heard) => ClaimKeeps(s, b, id, heard);
    case Finish(b, reply) => FinishKeeps(s, b, reply);
    case Crash(b, sent) => CrashKeeps(s, b, sent);
    case Settle(id, lands) => SettleKeeps(s, id, lands);
    case Insert(id, lands) => InsertKeeps(s, id, lands);
    case Recover => RecoverKeeps(s);
  }

  /** Every step keeps the invariant and takes every deployment to a future of it. */
  lemma StepKeeps(s: State, event: Event, t: State)
    requires Inv(s) && Next(s, event, t)
    ensures Inv(t) && Advances(s, t)
  {
    if !IsTurn(event) {
      TableKeeps(s, event);
    } else if event.Put? && Lands(event.reply) {
      PutStepKeeps(s, event);
    } else {
      TurnStepKeeps(s, event);
    }
  }

  // ---- whole runs ------------------------------------------------------------

  ghost predicate Start(s: State) {
    s.deployments == map[] && s.jobs == map[]
  }

  /** A run: no deployments and idle builders, whatever the blob store already has,
      then any enabled steps. */
  ghost predicate IsRun(states: seq<State>, events: seq<Event>) {
    Runs.IsRun(states, events, Next) && Start(states[0])
  }

  lemma NextKeeps()
    ensures Runs.Keeps(Next, Inv, Advances) && Runs.Preorder(Advances)
  {
    forall s, event, t | Inv(s) && Next(s, event, t) ensures Inv(t) && Advances(s, t) {
      StepKeeps(s, event, t);
    }
    forall s ensures Advances(s, s) {
      AdvancesReflexive(s);
    }
    forall s, t, u | Advances(s, t) && Advances(t, u) ensures Advances(s, u) {
      AdvancesTransitive(s, t, u);
    }
  }

  lemma RunInvariant(states: seq<State>, events: seq<Event>, n: nat)
    requires IsRun(states, events) && n < |states|
    ensures Inv(states[n])
  {
    NextKeeps();
    Runs.RunKeeps(states, events, Next, Inv, Advances, n);
  }

  lemma RunAdvances(states: seq<State>, events: seq<Event>, m: nat, n: nat)
    requires IsRun(states, events) && m <= n < |states|
    ensures Advances(states[m], states[n])
  {
    NextKeeps();
    Runs.RunAdvances(states, events, Next, Inv, Advances, m, n);
  }

  /** At every point of every run a ready deployment has a saved build of the layers the
      toolchain returned, all of them and in order, every one in the blob store with the
      recorded size and digest, and its logs are the tail of all the toolchain printed. */
  lemma ReadyIsComplete(states: seq<State>, events: seq<Event>, n: nat, id: Id)
    requires IsRun(states, events) && n < |states| && id in states[n].deployments
    requires states[n].deployments[id].row.status.Ready?
    ensures var d := states[n].deployments[id];
            && d.build.Some? && AllStored(d.build.value, states[n].blobs) && Volume(d.build.value) <= states[n].limit
            && d.past.layers.Some? && d.past.layers.value != [] && MadeOf(d.build.value, d.past.layers.value)
            && d.row.logs == Tail(d.past.wrote)
  {
    RunInvariant(states, events, n);
  }

  /** A deployment never goes back a stage, late saves included; a finished one keeps its
      status, and a ready one, with its build, does not change at all. */
  lemma NeverGoesBack(states: seq<State>, events: seq<Event>, m: nat, n: nat, id: Id)
    requires IsRun(states, events) && m <= n < |states| && id in states[m].deployments
    ensures id in states[n].deployments
    ensures var d, later := states[m].deployments[id], states[n].deployments[id];
            && Rank(d.row.status) <= Rank(later.row.status)
            && (!Unfinished(d.row.status) ==> later.row.status == d.row.status)
            && (d.row.status.Ready? ==> later == d)
            && (d.build.Some? ==> later.build == d.build)
    ensures BlobsKept(states[m].blobs, states[n].blobs)
  {
    RunAdvances(states, events, m, n);
  }

  /** Once Close has returned no snapshot is taken and no builder is inside a save of
      one. If none was left to land late by then, nobody writes a building row any more. */
  lemma NothingStaleAfterClose(states: seq<State>, events: seq<Event>, m: nat, n: nat, id: Id)
    requires IsRun(states, events) && m <= n < |states| && id in states[m].deployments
    requires states[m].deployments[id].past.closed
    ensures id in states[n].deployments
    ensures states[n].deployments[id].past == states[m].deployments[id].past
    ensures forall b :: b in states[n].jobs && states[n].jobs[b].id == id ==> !HasStream(states[n].jobs[b].stage)
    ensures Quiet(states[m].deployments[id]) ==>
              && Quiet(states[n].deployments[id])
              && (states[n].deployments[id].row.status.Building? ==>
                    states[n].deployments[id].row == states[m].deployments[id].row)
  {
    RunAdvances(states, events, m, n);
    RunInvariant(states, events, n);
  }

  /** The lock keeps a late building row from overtaking the stage after it: while one may
      still land the row is building or has failed, there is no build nor any on its way,
      and a builder is still at its stream, waits to save the publishing stage, or waits to
      save a failure. */
  lemma LateSnapshotWaits(states: seq<State>, events: seq<Event>, n: nat, id: Id)
    requires IsRun(states, events) && n < |states| && id in states[n].deployments
    requires states[n].deployments[id].save.Some? && states[n].deployments[id].save.value.status.Building?
    ensures var d := states[n].deployments[id];
            (d.row.status.Building? || d.row.status.Failed?) && d.build.None? && d.insert.None?
    ensures forall b :: b in states[n].jobs && states[n].jobs[b].id == id ==> MayWait(states[n].jobs[b].stage)
  {
    RunInvariant(states, events, n);
  }

  predicate MayWait(stage: Stage) {
    HasStream(stage) || stage.Advancing? || (stage.Finishing? && stage.final.status.Failed?)
  }

  /** Once Close has returned the last snapshot covers every write. */
  lemma LastSnapshotCovers(states: seq<State>, events: seq<Event>, n: nat, id: Id)
    requires IsRun(states, events) && n < |states| && id in states[n].deployments
    requires states[n].deployments[id].past.closed && states[n].deployments[id].past.wrote != ""
    ensures var past := states[n].deployments[id].past;
            past.snapshots != [] && past.snapshots[|past.snapshots| - 1] == Tail(past.wrote)
  {
    RunInvariant(states, events, n);
  }

  /** A deployment is claimed at most once and never has two builders. */
  lemma OnceClaimed(states: seq<State>, events: seq<Event>, n: nat, id: Id)
    requires IsRun(states, events) && n < |states| && id in states[n].deployments
    ensures states[n].deployments[id].past.claims <= 1
    ensures forall a, b :: a in states[n].jobs && b in states[n].jobs && a != b ==>
              states[n].jobs[a].id != id || states[n].jobs[b].id != id
  {
    RunInvariant(states, events, n);
  }

  // ---- when recovery works ---------------------------------------------------

  ghost predicate ListsUnfinished(ids: seq<Id>, deployments: map<Id, Deployment>) {
    && (forall i :: 0 <= i < |ids| ==> ids[i] in deployments && Unfinished(deployments[ids[i]].row.status))
    && (forall id :: id in deployments && Unfinished(deployments[id].row.status) ==> id in ids)
    && (forall i, j :: 0 <= i < j < |ids| ==> ids[i] != ids[j])
  }

  /** RecoverBuilding over the rows its query selects, in any order. It fails every
      unfinished deployment, queued ones included, or changes nothing; and it changes
      nothing exactly when some unfinished deployment already has a build. */
  method RecoverBuilding(deployments: map<Id, Deployment>, ids: seq<Id>) returns (r: Option<map<Id, Deployment>>)
    requires ListsUnfinished(ids, deployments)
    ensures r.Some? <==>
            forall id :: id in deployments && Unfinished(deployments[id].row.status) ==> deployments[id].build.None?
    ensures r.Some? ==> r.value == map id | id in deployments :: Interrupted(deployments[id])
  {
    var current := deployments;
    for k := 0 to |ids|
      invariant current.Keys == deployments.Keys
      invariant forall i :: 0 <= i < k ==> deployments[ids[i]].build.None?
      invariant forall id :: id in deployments ==>
                               current[id] == if id in ids[..k] then Interrupted(deployments[id]) else deployments[id]
    {
      var id := ids[k];
      assert id !in ids[..k];
      if !Loads(current[id]) {
        return None;
      }
      current := current[id := Interrupted(current[id])];
    }
    assert ids[..|ids|] == ids;
    return Some(current);
  }
}
