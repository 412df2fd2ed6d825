/** What holds over every sequence of Open, Driving and Close, with Driving's two accesses
    to the record store open to whatever comes between them. */
module BrowserRuns {
  import opened Wrappers
  import opened Cookies
  import opened BrowserDriver
  import Runs

  /** A record some Touch has read and not necessarily written back. */
  datatype Read = Read(key: SessionKey, record: Session)

  /** The stores, the reads of Touch so far, the organization each session id was minted
      for, and the sessions whose browser is gone. */
  datatype State = State(world: World, looks: set<Read>, minted: map<SessionId, Org>, stopped: set<SessionId>)

  /** A call on the service with how its own calls end, Touch in its two halves, a page
      changing the jar of its browser, a browser dying by itself, or someone editing
      profiles elsewhere. */
  datatype Event =
    | Open(org: Org, request: OpenRequest, opening: OpenCalls, openResult: Result<SessionId, DriverError>)
    | Look(org: Org, id: SessionId, get: bool)
    | Renew(read: Read, save: Write)
    | Close(org: Org, id: SessionId, saveStorage: bool, closing: CloseCalls, closeResult: Result<(), DriverError>)
    | Browse(id: SessionId, jar: seq<Message>)
    | Die(id: SessionId)
    | Edit(profiles: map<ProfileKey, Profile>)

  function Used(calls: OpenCalls): set<SessionId> {
    match calls.open
    case Minted(id) => {id}
    case NotOpened(Some(orphan)) => {orphan}
    case NotOpened(None) => {}
  }

  /** This Close gets as far as stopping the browser, and the browser stops. */
  predicate Stops(w: World, org: Org, id: SessionId, saveStorage: bool, calls: CloseCalls) {
    && calls.get && (org, id) in w.records && calls.client && calls.stops
    && (saveStorage ==> w.records[(org, id)].profile.Some?
                        && !SaveFails(w, org, id, w.records[(org, id)].profile.value, calls))
  }

  ghost predicate Next(s: State, event: Event, t: State) {
    match event
    case Open(org, request, calls, r) =>
      && Used(calls) !! s.minted.Keys && Fresh(s.world, calls) && OpenEffect(s.world, t.world, org, request, calls, r)
      && t.minted == s.minted + (map id | id in Used(calls) :: org)
      && t.looks == s.looks && t.stopped == s.stopped
    case Look(org, id, get) =>
      t == if get && (org, id) in s.world.records then
             s.(looks := s.looks + {Read((org, id), s.world.records[(org, id)])})
           else s
    case Renew(read, save) =>
      && read in s.looks && RenewEffect(s.world, t.world, read.key, read.record, save)
      && t == s.(world := t.world)
    case Close(org, id, saveStorage, calls, r) =>
      && CloseEffect(s.world, t.world, org, id, saveStorage, calls, r)
      && t == s.(world := t.world,
                 stopped := if Stops(s.world, org, id, saveStorage, calls) then s.stopped + {id} else s.stopped)
    case Browse(id, jar) => id in s.world.live && t == s.(world := s.world.(live := s.world.live[id := jar]))
    case Die(id) =>
      && id in s.world.live
      && t == s.(world := s.world.(live := s.world.live - {id}), stopped := s.stopped + {id})
    case Edit(profiles) => t == s.(world := s.world.(profiles := profiles))
  }

  /** Nothing has happened yet. */
  ghost predicate Start(s: State) {
    s.world.live == map[] && s.world.records == map[] && s.looks == {} && s.minted == map[] && s.stopped == {}
  }

  ghost predicate IsRun(states: seq<State>, events: seq<Event>) {
    Runs.IsRun(states, events, Next) && Start(states[0])
  }

  // ---- whose a session is ----------------------------------------------------

  ghost predicate Owns(minted: map<SessionId, Org>, key: SessionKey) {
    key.1 in minted && minted[key.1] == key.0
  }

  /** Whatever fails, a record and a read are of the organization their session was
      minted for, and a browser that is gone does not come back. */
  ghost predicate Owned(s: State) {
    && (forall k :: k in s.world.records ==> Owns(s.minted, k))
    && (forall r :: r in s.looks ==> Owns(s.minted, r.key))
    && (forall id :: id in s.world.live ==> id in s.minted && id !in s.stopped)
    && (forall id :: id in s.stopped ==> id in s.minted)
  }

  lemma OpenOwned(s: State, t: State, event: Event)
    requires Owned(s) && Next(s, event, t) && event.Open?
    ensures Owned(t)
  {
    var calls := event.opening;
    forall k | Owns(s.minted, k) ensures Owns(t.minted, k) { }
    forall id | id in t.world.live ensures id in s.world.live || id in Used(calls) { }
  }

  lemma StepOwned(s: State, event: Event, t: State)
    requires Owned(s) && Next(s, event, t)
    ensures Owned(t)
  {
    match event
    case Open(_, _, _, _) => OpenOwned(s, t, event);
    case _ =>
  }

  /** This step ends the browser of a session. */
  predicate StopsAt(s: State, event: Event, id: SessionId) {
    || (event.Close? && event.id == id && Stops(s.world, event.org, id, event.saveStorage, event.closing))
    || event == Die(id)
  }

  /** A live browser ends only by a Close of its session or by itself. */
  lemma EndsExactly(s: State, event: Event, t: State, id: SessionId)
    requires Owned(s) && Next(s, event, t) && id in s.world.live
    ensures id !in t.world.live <==> StopsAt(s, event, id)
    ensures id !in t.world.live <==> id in t.stopped
  {
  }

  // ---- records and browsers agree --------------------------------------------

  ghost predicate Registered(w: World, id: SessionId) {
    exists k :: k in w.records && k.1 == id
  }

  /** Every registered session has a live browser, and so has every session a Touch has
      read, unless its browser is gone since. */
  ghost predicate Agreed(s: State) {
    && Owned(s)
    && (forall k :: k in s.world.records ==> k.1 in s.world.live)
    && (forall r :: r in s.looks ==> r.key.1 in s.world.live || r.key.1 in s.stopped)
  }

  /** The ways out of agreement: a registration that took effect although it reported an
      error, its browser then abandoned; a record left behind by a browser stopped; a lease
      written back after the browser is gone; and a registered browser dying by itself. */
  predicate OpenBreaks(w: World, org: Org, request: OpenRequest, calls: OpenCalls) {
    && Reaches(w, org, request, calls) && calls.open.Minted? && Seeded(w, org, request, calls)
    && calls.adopt == Failing(true) && calls.abandon
  }

  ghost predicate Breaks(s: State, event: Event) {
    match event
    case Open(org, request, calls, _) => OpenBreaks(s.world, org, request, calls)
    case Close(org, id, saveStorage, calls, _) =>
      Stops(s.world, org, id, saveStorage, calls) && !(calls.getAgain && Lands(calls.delete))
    case Renew(read, save) => Lands(save) && read.key.1 in s.stopped
    case Die(id) => Registered(s.world, id)
    case _ => false
  }

  lemma OpenAgrees(s: State, event: Event, t: State)
    requires Agreed(s) && Next(s, event, t) && event.Open?
    ensures Agreed(t) <==> !Breaks(s, event)
  {
    OpenOwned(s, t, event);
    if Breaks(s, event) {
      assert (event.org, event.opening.open.id) in t.world.records;
    }
  }

  lemma CloseAgrees(s: State, event: Event, t: State)
    requires Agreed(s) && Next(s, event, t) && event.Close?
    ensures Agreed(t) <==> !Breaks(s, event)
  {
    StepOwned(s, event, t);
    if Breaks(s, event) {
      assert (event.org, event.id) in t.world.records;
    }
  }

  lemma RenewAgrees(s: State, event: Event, t: State)
    requires Agreed(s) && Next(s, event, t) && event.Renew?
    ensures Agreed(t) <==> !Breaks(s, event)
  {
    StepOwned(s, event, t);
    if Breaks(s, event) {
      assert event.read.key in t.world.records;
    }
  }

  lemma DeathAgrees(s: State, event: Event, t: State)
    requires Agreed(s) && Next(s, event, t) && event.Die?
    ensures Agreed(t) <==> !Breaks(s, event)
  {
    StepOwned(s, event, t);
    if Breaks(s, event) {
      var k :| k in s.world.records && k.1 == event.id;
      assert k in t.world.records;
    }
  }

  /** A step loses agreement exactly in those four ways. */
  lemma AgreementLostExactly(s: State, event: Event, t: State)
    requires Agreed(s) && Next(s, event, t)
    ensures Agreed(t) <==> !Breaks(s, event)
  {
    match event
    case Open(_, _, _, _) => OpenAgrees(s, event, t);
    case Close(_, _, _, _, _) => CloseAgrees(s, event, t);
    case Renew(_, _) => RenewAgrees(s, event, t);
    case Die(_) => DeathAgrees(s, event, t);
    case _ =>
  }

  /** The record store does as it says, so that deletes succeed and a failed write wrote
      nothing, no lease is written back to a session whose browser is gone, and no browser
      dies by itself. */
  predicate Sound(s: State, event: Event) {
    match event
    case Open(_, _, calls, _) => calls.adopt != Failing(true)
    case Close(_, _, _, calls, _) => calls.getAgain && calls.delete.Done?
    case Renew(read, save) => Lands(save) ==> read.key.1 !in s.stopped
    case Die(_) => false
    case _ => true
  }

  ghost predicate SoundNext(s: State, event: Event, t: State) {
    Next(s, event, t) && Sound(s, event)
  }

  ghost predicate Anything(s: State, t: State) {
    true
  }

  lemma SoundKeeps()
    ensures Runs.Keeps(SoundNext, Agreed, Anything)
  {
    forall s, event, t | Agreed(s) && SoundNext(s, event, t) ensures Agreed(t) && Anything(s, t) {
      AgreementLostExactly(s, event, t);
    }
  }

  /** Over every sequence of calls with a sound record store, whatever else fails, every
      registered session has a live browser. */
  lemma RegisteredAreLive(states: seq<State>, events: seq<Event>, n: nat, key: SessionKey)
    requires Runs.IsRun(states, events, SoundNext) && Start(states[0]) && n < |states| && key in states[n].world.records
    ensures key.1 in states[n].world.live
  {
    SoundKeeps();
    Runs.RunKeeps(states, events, SoundNext, Agreed, Anything, n);
  }

  ghost predicate GoneBefore(states: seq<State>, events: seq<Event>, n: nat, id: SessionId)
    requires n <= |events| <= |states|
  {
    exists k :: 0 <= k < n && StopsAt(states[k], events[k], id)
  }

  /** In every run the sessions whose browser is gone are those an earlier Close has stopped
      and those whose browser has died. */
  lemma {:induction false} GoneWereStopped(states: seq<State>, events: seq<Event>, n: nat, id: SessionId)
    requires IsRun(states, events) && n < |states|
    ensures id in states[n].stopped <==> GoneBefore(states, events, n, id)
  {
    if n == 0 {
    } else {
      GoneWereStopped(states, events, n - 1, id);
      Runs.StepOf(states, events, Next, n - 1);
      StoppedStep(states[n - 1], events[n - 1], states[n], id);
      assert GoneBefore(states, events, n, id) <==>
             GoneBefore(states, events, n - 1, id) || StopsAt(states[n - 1], events[n - 1], id);
    }
  }

  lemma StoppedStep(s: State, event: Event, t: State, id: SessionId)
    requires Next(s, event, t)
    ensures id in t.stopped <==> id in s.stopped || StopsAt(s, event, id)
  {
  }

  /** Where records and browsers agree, a lease that is written back ends that exactly when
      a Close has stopped the browser of the session by then, or it has died. */
  lemma LateRenewRevives(states: seq<State>, events: seq<Event>, n: nat)
    requires IsRun(states, events) && n < |events| && Agreed(states[n])
    requires events[n].Renew? && Lands(events[n].save)
    ensures Agreed(states[n + 1]) <==> !GoneBefore(states, events, n, events[n].read.key.1)
  {
    Runs.StepOf(states, events, Next, n);
    AgreementLostExactly(states[n], events[n], states[n + 1]);
    GoneWereStopped(states, events, n, events[n].read.key.1);
  }

  // ---- and nothing else is live ----------------------------------------------

  ghost predicate Matched(s: State) {
    Agreed(s) && forall id :: id in s.world.live ==> Registered(s.world, id)
  }

  /** Browsers that are told to stop do, and one that fails to open is not there. */
  predicate Tidy(s: State, event: Event) {
    && Sound(s, event)
    && match event {
      case Open(_, _, calls, _) => calls.abandon && (calls.open.NotOpened? ==> calls.open.orphan.None?)
      case Close(_, _, _, calls, _) => calls.stops
      case _ => true
    }
  }

  ghost predicate TidyNext(s: State, event: Event, t: State) {
    Next(s, event, t) && Tidy(s, event)
  }

  lemma RegisteredStays(w: World, t: World, id: SessionId, gone: set<SessionKey>)
    requires Registered(w, id) && (forall k :: k in w.records && k !in gone ==> k in t.records)
    requires forall k :: k in gone ==> k.1 != id
    ensures Registered(t, id)
  {
  }

  lemma OpenMatches(s: State, event: Event, t: State)
    requires Matched(s) && TidyNext(s, event, t) && event.Open?
    ensures Matched(t)
  {
    OpenAgrees(s, event, t);
    forall id | id in t.world.live ensures Registered(t.world, id) {
      if id in s.world.live {
        RegisteredStays(s.world, t.world, id, {});
      } else {
        assert (event.org, id) in t.world.records && (event.org, id).1 == id;
      }
    }
  }

  lemma CloseMatches(s: State, event: Event, t: State)
    requires Matched(s) && TidyNext(s, event, t) && event.Close?
    ensures Matched(t)
  {
    CloseAgrees(s, event, t);
    forall i | i in t.world.live ensures Registered(t.world, i) {
      if t.world.live == s.world.live {
        RegisteredStays(s.world, t.world, i, {});
      } else {
        RegisteredStays(s.world, t.world, i, {(event.org, event.id)});
      }
    }
  }

  lemma TidyStep(s: State, event: Event, t: State)
    requires Matched(s) && TidyNext(s, event, t)
    ensures Matched(t)
  {
    if event.Open? {
      OpenMatches(s, event, t);
    } else if event.Close? {
      CloseMatches(s, event, t);
    } else {
      AgreementLostExactly(s, event, t);
      forall i | i in t.world.live ensures Registered(t.world, i) {
        RegisteredStays(s.world, t.world, i, {});
      }
    }
  }

  lemma TidyKeeps()
    ensures Runs.Keeps(TidyNext, Matched, Anything)
  {
    forall s, event, t | Matched(s) && TidyNext(s, event, t) ensures Matched(t) && Anything(s, t) {
      TidyStep(s, event, t);
    }
  }

  /** If browsers told to stop also stop, the live browsers are the registered ones. */
  lemma LiveAreRegistered(states: seq<State>, events: seq<Event>, n: nat)
    requires Runs.IsRun(states, events, TidyNext) && Start(states[0]) && n < |states|
    ensures forall id :: id in states[n].world.live <==> Registered(states[n].world, id)
  {
    TidyKeeps();
    Runs.RunKeeps(states, events, TidyNext, Matched, Anything, n);
  }

  // ---- what a call leaves alone ----------------------------------------------

  predicate IsCall(event: Event) {
    event.Open? || event.Look? || event.Renew? || event.Close?
  }

  function Caller(event: Event): Org
    requires IsCall(event)
  {
    if event.Renew? then event.read.key.0 else event.org
  }

  /** No call for one organization changes the records or the jars of another, whatever
      has failed before and fails now. */
  lemma OthersUntouched(s: State, event: Event, t: State)
    requires Next(s, event, t) && IsCall(event)
    ensures forall k: SessionKey :: k.0 != Caller(event) ==> (k in s.world.records <==> k in t.world.records)
    ensures forall k: SessionKey :: k.0 != Caller(event) && k in s.world.records ==>
              t.world.records[k] == s.world.records[k]
    ensures forall k: ProfileKey :: k.0 != Caller(event) ==> (k in s.world.profiles <==> k in t.world.profiles)
    ensures forall k: ProfileKey :: k.0 != Caller(event) && k in s.world.profiles ==>
              t.world.profiles[k] == s.world.profiles[k]
  {
  }

  /** Nor a browser of another, whether or not it is registered. */
  lemma OtherBrowsersUntouched(s: State, event: Event, t: State, id: SessionId)
    requires Owned(s) && Next(s, event, t) && IsCall(event)
    requires id in s.world.live && s.minted[id] != Caller(event)
    ensures id in t.world.live && t.world.live[id] == s.world.live[id]
  {
    if event.Open? && t.world.live != s.world.live {
      var added := if event.opening.open.Minted? then event.opening.open.id else event.opening.open.orphan.value;
      assert OnlyAdds(s.world, t.world, added);
      assert (t.world.live - {added})[id] == (s.world.live - {added})[id];
    } else if event.Close? && event.id == id {
      assert (event.org, id) !in s.world.records;
    }
  }

  /** A profile changes through the driver only on Close with save_storage, and then only
      to the whole jar of the browser, which is not empty. */
  lemma JarChangesOnlyOnSave(s: State, event: Event, t: State)
    requires Next(s, event, t) && IsCall(event) && t.world.profiles != s.world.profiles
    ensures event.Close? && event.saveStorage && (event.org, event.id) in s.world.records
    ensures s.world.records[(event.org, event.id)].profile.Some?
    ensures JarSaved(s.world, t.world, event.org, event.id, s.world.records[(event.org, event.id)].profile.value)
  {
  }

  /** A capture that fails leaves browser, record and jar as they were. */
  lemma FailedCaptureKeepsAll(s: State, event: Event, t: State)
    requires Next(s, event, t) && event.Close? && event.saveStorage && event.closing.capture.NoAnswer?
    ensures t == s && event.closeResult.Err?
  {
  }

  /** What a session is closed with is what the next one that loads the profile starts
      with, cookie by cookie, expiries included. */
  method CarryOver(driver: Driver, org: Org, id: SessionId, profile: ProfileId, closing: CloseCalls, opening: OpenCalls)
    returns (r: Option<SessionId>)
    requires Fresh(driver.Value(), opening) && (org, id) in driver.records
             && driver.records[(org, id)].profile == Some(profile)
    requires id in driver.live && driver.live[id] != [] && closing.capture.Whole?
    modifies driver
    ensures r.Some? ==> r.value in driver.live && driver.live[r.value] == old(driver.live[id])
  {
    ghost var before := driver.Value();
    var closed := driver.Close(org, id, true, closing);
    if closed.Err? {
      return None;
    }
    ghost var between := driver.Value();
    var started := driver.Open(org, OpenRequest(None, Some(profile), true), opening);
    if started.Err? {
      return None;
    }
    ghost var jar := between.profiles[(org, profile)].jar;
    SameIsOneToOne(jar, before.live[id], jar, driver.live[started.value]);
    return Some(started.value);
  }

  // ---- agreement can be lost -------------------------------------------------

  const CHROME: OpenRequest := OpenRequest(Some(Chrome), None, false)
  const OPENS: OpenCalls := OpenCalls(true, true, Minted(0), true, Done, true)
  const PLAIN: Session := Session(None, Chrome)
  const UNUSED: World := World(map[], map[], map[])

  /** One session open, with the reads and stops given. */
  function OneOpen(looks: set<Read>): State {
    State(World(map[0 := []], map[(0, 0) := PLAIN], map[]), looks, map[0 := 0], {})
  }

  /** Its browser stopped, its record as given. */
  function OneStopped(records: map<SessionKey, Session>, looks: set<Read>): State {
    State(World(map[], records, map[]), looks, map[0 := 0], {0})
  }

  function CloseWith(getAgain: bool): CloseCalls {
    CloseCalls(true, true, Nothing, true, Done, true, getAgain, Done)
  }

  lemma OpenStep()
    ensures Next(State(UNUSED, {}, map[], {}), Open(0, CHROME, OPENS, Ok(0)), OneOpen({}))
  {
    assert OneOpen({}).world.live - {0} == UNUSED.live - {0};
  }

  lemma CloseStep(looks: set<Read>)
    ensures Next(OneOpen(looks), Close(0, 0, false, CloseWith(true), Ok(())), OneStopped(map[], looks))
    ensures Next(OneOpen(looks), Close(0, 0, false, CloseWith(false), Err(NoSession)),
                 OneStopped(map[(0, 0) := PLAIN], looks))
  {
  }

  lemma TouchSteps()
    ensures Next(OneOpen({}), Look(0, 0, true), OneOpen({Read((0, 0), PLAIN)}))
    ensures Next(OneStopped(map[], {Read((0, 0), PLAIN)}), Renew(Read((0, 0), PLAIN), Done),
                 OneStopped(map[(0, 0) := PLAIN], {Read((0, 0), PLAIN)}))
  {
  }

  lemma Extend(states: seq<State>, events: seq<Event>, event: Event, t: State)
    returns (more: seq<State>, done: seq<Event>)
    requires IsRun(states, events) && Next(states[|states| - 1], event, t)
    ensures IsRun(more, done) && more[|more| - 1] == t
  {
    more, done := states + [t], events + [event];
    Runs.Extended(states, events, Next, event, t);
  }

  /** A registered session whose browser is gone: after a Close that stopped it and could
      not read the record again, or after a Touch that a Close came into. */
  lemma AgreementLossIsReachable(touch: bool) returns (states: seq<State>, events: seq<Event>)
    ensures IsRun(states, events)
    ensures (0, 0) in states[|states| - 1].world.records && 0 !in states[|states| - 1].world.live
  {
    OpenStep();
    TouchSteps();
    var read := Read((0, 0), PLAIN);
    states, events := [State(UNUSED, {}, map[], {})], [];
    states, events := Extend(states, events, Open(0, CHROME, OPENS, Ok(0)), OneOpen({}));
    if touch {
      CloseStep({read});
      states, events := Extend(states, events, Look(0, 0, true), OneOpen({read}));
      states, events := Extend(states, events, Close(0, 0, false, CloseWith(true), Ok(())), OneStopped(map[], {read}));
      states, events := Extend(states, events, Renew(read, Done), OneStopped(map[(0, 0) := PLAIN], {read}));
    } else {
      CloseStep({});
      states, events := Extend(states, events, Close(0, 0, false, CloseWith(false), Err(NoSession)),
                               OneStopped(map[(0, 0) := PLAIN], {}));
    }
  }

  // ---- the key of a record ---------------------------------------------------

  const PREFIX: string := "browser-session:"

  /** browserSessionKey */
  function CacheKey(org: string, id: string): string {
    PREFIX + org + ":" + id
  }

  lemma CacheKeyTail(org: string, id: string)
    ensures |CacheKey(org, id)| >= |PREFIX| && CacheKey(org, id)[|PREFIX|..] == org + ":" + id
  {
  }

  /** Keys of different organizations can meet exactly when one organization's id goes on
      with a colon where the other's ends. */
  lemma KeysMeetExactly(a: string, b: string)
    requires a != b && |a| <= |b|
    ensures (exists i, j :: CacheKey(a, i) == CacheKey(b, j)) <==> a + ":" <= b
  {
    if i, j :| CacheKey(a, i) == CacheKey(b, j) {
      CacheKeyTail(a, i);
      CacheKeyTail(b, j);
      var s := a + ":" + i;
      assert s == b + ":" + j;
      assert b == s[..|b|] && a == s[..|a|];
      assert |a| == |b| ==> a == b;
      assert s[|a|] == ':' && b[|a|] == s[|a|];
    }
    if a + ":" <= b {
      var rest := b[|a| + 1..];
      assert b == a + ":" + rest;
      assert CacheKey(a, rest + ":") == CacheKey(b, "");
    }
  }

  lemma ColonInside(a: string, b: string)
    requires ':' !in b
    ensures !(a + ":" <= b)
  {
    assert (a + ":")[|a|] == ':';
  }

  /** Ids have no colon, so a record's key is one organization's and one session's. */
  lemma KeysApart(a: string, i: string, b: string, j: string)
    requires ':' !in a && ':' !in b && CacheKey(a, i) == CacheKey(b, j)
    ensures a == b && i == j
  {
    ColonInside(a, b);
    ColonInside(b, a);
    if a != b && |a| <= |b| {
      KeysMeetExactly(a, b);
    } else if a != b {
      KeysMeetExactly(b, a);
    }
    CacheKeyTail(a, i);
    CacheKeyTail(b, j);
    assert (a + ":" + i)[|a| + 1..] == i;
    assert (b + ":" + j)[|b| + 1..] == j;
  }
}
