/** Opening, driving and closing browsers over calls that may fail at any point: three
    stores, the live browsers, the session records and the profile jars. */
module BrowserDriver {
  import opened Wrappers
  import opened Cookies

  type Org = nat
  type SessionId = nat
  type ProfileId = nat
  type SessionKey = (Org, SessionId)
  type ProfileKey = (Org, ProfileId)

  datatype Kind = Chrome | Safari

  /** A session record; a session without a profile keeps nothing. */
  datatype Session = Session(profile: Option<ProfileId>, kind: Kind)

  datatype Profile = Profile(kind: Kind, jar: Jar)

  datatype World = World(live: map<SessionId, seq<Message>>, records: map<SessionKey, Session>,
                         profiles: map<ProfileKey, Profile>)

  /** `kind` is None when the request names no known browser, and is not read when a
      profile is named. */
  datatype OpenRequest = OpenRequest(kind: Option<Kind>, profile: Option<ProfileId>, loadStorage: bool)

  datatype DriverError = Invalid | Unavailable | NoProfile | NoSession | NotRegistered | NotSaved

  // ---- how calls end ---------------------------------------------------------

  /** A write is done, or reports an error behind which it may have been done. */
  datatype Write = Done | Failing(landed: bool)

  predicate Lands(write: Write) {
    write.Done? || write.landed
  }

  /** The browser service answers Open with a fresh id, or fails and may leave a browser. */
  datatype OpenReply = Minted(id: SessionId) | NotOpened(orphan: Option<SessionId>)

  datatype OpenCalls = OpenCalls(client: bool, profile: bool, open: OpenReply, cookies: bool, adopt: Write,
                                 abandon: bool)

  /** The jar of a browser, or nothing where a read went wrong unnoticed, or an error. */
  datatype Capture = Whole | Nothing | NoAnswer

  datatype CloseCalls = CloseCalls(get: bool, client: bool, capture: Capture, profile: bool, update: Write,
                                   stops: bool, getAgain: bool, delete: Write)

  datatype DriveCalls = DriveCalls(get: bool, save: Write, client: bool)

  // ---- what the operations may do --------------------------------------------

  predicate Askable(request: OpenRequest) {
    request.loadStorage ==> request.profile.Some?
  }

  /** The persona can be resolved. */
  predicate Resolves(w: World, org: Org, request: OpenRequest, calls: OpenCalls) {
    match request.profile
    case None => request.kind.Some?
    case Some(profile) => calls.profile && (org, profile) in w.profiles
  }

  predicate Reaches(w: World, org: Org, request: OpenRequest, calls: OpenCalls) {
    Askable(request) && calls.client && Resolves(w, org, request, calls)
  }

  function Wears(w: World, org: Org, request: OpenRequest): Kind
    requires match request.profile case None => request.kind.Some? case Some(profile) => (org, profile) in w.profiles
  {
    match request.profile
    case None => request.kind.value
    case Some(profile) => w.profiles[(org, profile)].kind
  }

  /** The jar a session is seeded with. */
  function Seed(w: World, org: Org, request: OpenRequest): Jar
    requires request.profile.Some? ==> (org, request.profile.value) in w.profiles
  {
    if request.loadStorage && request.profile.Some? then w.profiles[(org, request.profile.value)].jar else []
  }

  predicate Seeded(w: World, org: Org, request: OpenRequest, calls: OpenCalls)
    requires Resolves(w, org, request, calls)
  {
    Seed(w, org, request) == [] || calls.cookies
  }

  ghost predicate Starts(t: World, id: SessionId, jar: Jar) {
    id in t.live && Same(jar, t.live[id])
  }

  /** The live browsers are as before, but for one that is new. */
  ghost predicate OnlyAdds(w: World, t: World, id: SessionId) {
    t.live.Keys == w.live.Keys + {id} && t.live - {id} == w.live - {id}
  }

  /** All that Open may do, as its calls end. */
  ghost predicate OpenEffect(w: World, t: World, org: Org, request: OpenRequest, calls: OpenCalls,
                             r: Result<SessionId, DriverError>)
  {
    && t.profiles == w.profiles
    && if !Reaches(w, org, request, calls) then
         t == w && r.Err?
       else match calls.open {
         case NotOpened(None) => t == w && r == Err(Unavailable)
         case NotOpened(Some(orphan)) => t.records == w.records && OnlyAdds(w, t, orphan) && r == Err(Unavailable)
         case Minted(id) =>
           var record := Session(request.profile, Wears(w, org, request));
           if !Seeded(w, org, request, calls) then
             && t.records == w.records && r == Err(Unavailable)
             && (if calls.abandon then t.live == w.live else OnlyAdds(w, t, id))
           else if calls.adopt.Done? then
             && r == Ok(id) && OnlyAdds(w, t, id) && Starts(t, id, Seed(w, org, request))
             && t.records == w.records[(org, id) := record]
           else
             && r == Err(NotRegistered) && (if calls.abandon then t.live == w.live else OnlyAdds(w, t, id))
             && t.records == if Lands(calls.adopt) then w.records[(org, id) := record] else w.records
       }
  }

  predicate Fresh(w: World, calls: OpenCalls) {
    match calls.open
    case Minted(id) => id !in w.live
    case NotOpened(Some(id)) => id !in w.live
    case NotOpened(None) => true
  }

  predicate Complete(messages: seq<Message>) {
    forall i :: 0 <= i < |messages| ==> messages[i].name != "" && messages[i].domain != ""
  }

  function Captured(w: World, id: SessionId, calls: CloseCalls): Option<seq<Message>> {
    match calls.capture
    case NoAnswer => None
    case Nothing => Some([])
    case Whole => Some(if id in w.live then w.live[id] else [])
  }

  /** The jar reaches the profile: it is whole, not empty and acceptable, and the profile
      is there. */
  predicate Replaces(w: World, org: Org, id: SessionId, profile: ProfileId, calls: CloseCalls) {
    && Captured(w, id, calls).Some? && Captured(w, id, calls).value != [] && Complete(Captured(w, id, calls).value)
    && calls.profile && (org, profile) in w.profiles && Lands(calls.update)
  }

  predicate SaveFails(w: World, org: Org, id: SessionId, profile: ProfileId, calls: CloseCalls) {
    match Captured(w, id, calls)
    case None => true
    case Some(messages) =>
      messages != [] && !(calls.profile && (org, profile) in w.profiles && Complete(messages) && calls.update.Done?)
  }

  /** One profile's jar becomes the browser's, and nothing else about profiles changes. */
  ghost predicate JarSaved(w: World, t: World, org: Org, id: SessionId, profile: ProfileId) {
    && (org, profile) in w.profiles && id in w.live && w.live[id] != []
    && t.profiles.Keys == w.profiles.Keys
    && (forall k :: k in w.profiles && k != (org, profile) ==> t.profiles[k] == w.profiles[k])
    && t.profiles[(org, profile)].kind == w.profiles[(org, profile)].kind
    && Same(t.profiles[(org, profile)].jar, w.live[id])
  }

  /** All that Close may do, as its calls end. */
  ghost predicate CloseEffect(w: World, t: World, org: Org, id: SessionId, saveStorage: bool, calls: CloseCalls,
                              r: Result<(), DriverError>)
  {
    if !calls.get || (org, id) !in w.records then t == w && r == Err(NoSession)
    else
      var profile := w.records[(org, id)].profile;
      if saveStorage && profile.None? then t == w && r == Err(Invalid)
      else if !calls.client then t == w && r == Err(Unavailable)
      else
        && (if saveStorage && Replaces(w, org, id, profile.value, calls) then JarSaved(w, t, org, id, profile.value)
            else t.profiles == w.profiles)
        && if saveStorage && SaveFails(w, org, id, profile.value, calls) then
             t.live == w.live && t.records == w.records && r.Err?
           else
             && t.live == (if calls.stops then w.live - {id} else w.live)
             && t.records == (if calls.getAgain && Lands(calls.delete) then w.records - {(org, id)} else w.records)
             && (r.Ok? <==> calls.getAgain && calls.delete.Done?)
  }

  /** Touch writes back the record it read, with a new lease. */
  ghost predicate RenewEffect(w: World, t: World, key: SessionKey, record: Session, save: Write) {
    t == if Lands(save) then w.(records := w.records[key := record]) else w
  }

  ghost predicate DriveEffect(w: World, t: World, org: Org, id: SessionId, calls: DriveCalls,
                              r: Result<(), DriverError>)
  {
    && t == w
    && (r.Ok? <==> calls.get && (org, id) in w.records && calls.save.Done? && calls.client)
    && ((org, id) !in w.records ==> r == Err(NoSession))
  }

  // ---- what they mean to a caller --------------------------------------------

  /** The request cannot be met: storage without a profile to load it from, a profile the
      organization does not have, or no known browser to wear. */
  predicate IsHopeless(w: World, org: Org, request: OpenRequest) {
    match request.profile
    case None => request.loadStorage || request.kind.None?
    case Some(profile) => (org, profile) !in w.profiles
  }

  /** A new session: one more browser, with the jar of its profile if that was asked for
      and with nothing otherwise, and one more record, of the browser its profile says if
      it wears one and of the one asked for otherwise. */
  ghost predicate NewSession(w: World, t: World, org: Org, request: OpenRequest, id: SessionId) {
    && id !in w.live && t.live.Keys == w.live.Keys + {id} && t.live - {id} == w.live
    && (org, id) in t.records && t.records - {(org, id)} == w.records - {(org, id)}
    && t.records[(org, id)].profile == request.profile
    && match request.profile {
      case None => request.kind == Some(t.records[(org, id)].kind) && t.live[id] == []
      case Some(profile) =>
        && (org, profile) in w.profiles && t.records[(org, id)].kind == w.profiles[(org, profile)].kind
        && (if request.loadStorage then Same(w.profiles[(org, profile)].jar, t.live[id]) else t.live[id] == [])
    }
  }

  ghost predicate OpenMeans(w: World, t: World, org: Org, request: OpenRequest, calls: OpenCalls,
                            r: Result<SessionId, DriverError>)
  {
    && t.profiles == w.profiles
    && (IsHopeless(w, org, request) || !calls.client ==> r.Err? && t == w)
    && (r.Ok? ==> calls.open == Minted(r.value) && NewSession(w, t, org, request, r.value))
    && (r.Err? ==> forall id :: id in w.live ==> id in t.live && t.live[id] == w.live[id])
    && (calls.client && calls.profile && calls.open.Minted? && calls.cookies && calls.adopt.Done? ==>
          (r.Ok? <==> !IsHopeless(w, org, request)))
  }

  lemma OpenEffectMeans(w: World, t: World, org: Org, request: OpenRequest, calls: OpenCalls,
                        r: Result<SessionId, DriverError>)
    requires Fresh(w, calls) && OpenEffect(w, t, org, request, calls, r)
    ensures OpenMeans(w, t, org, request, calls, r)
  {
    if r.Ok? {
      assert t.live - {r.value} == w.live;
    } else if t.live != w.live {
      var added := if calls.open.Minted? then calls.open.id else calls.open.orphan.value;
      forall id | id in w.live ensures id in t.live && t.live[id] == w.live[id] {
        assert (t.live - {added})[id] == (w.live - {added})[id];
      }
    }
  }

  /** A cookie of the browser has no name or no domain. */
  predicate HasStray(w: World, id: SessionId) {
    id in w.live && exists i :: 0 <= i < |w.live[id]| && (w.live[id][i].name == "" || w.live[id][i].domain == "")
  }

  /** The save that was asked for cannot be made: nowhere to save to, no answer from the
      browser, a cookie the profile does not take, or a profile that is gone. */
  ghost predicate CannotSave(w: World, org: Org, id: SessionId, profile: Option<ProfileId>, calls: CloseCalls) {
    || profile.None? || calls.capture.NoAnswer?
    || (&& calls.capture.Whole? && id in w.live && w.live[id] != []
        && (HasStray(w, id) || (org, profile.value) !in w.profiles))
  }

  ghost predicate CloseMeans(w: World, t: World, org: Org, id: SessionId, saveStorage: bool, calls: CloseCalls,
                             r: Result<(), DriverError>)
  {
    && ((org, id) !in w.records ==> r.Err? && t == w)
    && ((org, id) in w.records && saveStorage && CannotSave(w, org, id, w.records[(org, id)].profile, calls) ==>
          r.Err? && t == w)
    && (r.Ok? ==>
          && (org, id) in w.records && t.records == w.records - {(org, id)}
          && t.live == (if calls.stops then w.live - {id} else w.live)
          && if saveStorage && calls.capture.Whole? && id in w.live && w.live[id] != [] then
               var profile := w.records[(org, id)].profile;
               && profile.Some? && (org, profile.value) in w.profiles && t.profiles.Keys == w.profiles.Keys
               && t.profiles - {(org, profile.value)} == w.profiles - {(org, profile.value)}
               && t.profiles[(org, profile.value)].kind == w.profiles[(org, profile.value)].kind
               && Same(t.profiles[(org, profile.value)].jar, w.live[id])
             else t.profiles == w.profiles)
    && ((&& calls.get && calls.client && calls.profile && calls.update.Done? && calls.getAgain && calls.delete.Done?
         && (org, id) in w.records
         && (saveStorage ==> !CannotSave(w, org, id, w.records[(org, id)].profile, calls))) ==> r.Ok?)
  }

  lemma StrayExactly(w: World, id: SessionId)
    requires id in w.live
    ensures HasStray(w, id) <==> !Complete(w.live[id])
  {
  }

  lemma CloseEffectMeans(w: World, t: World, org: Org, id: SessionId, saveStorage: bool, calls: CloseCalls,
                         r: Result<(), DriverError>)
    requires CloseEffect(w, t, org, id, saveStorage, calls, r)
    ensures CloseMeans(w, t, org, id, saveStorage, calls, r)
  {
    if id in w.live {
      StrayExactly(w, id);
    }
  }

  // ---- the service -----------------------------------------------------------

  class Driver {
    var live: map<SessionId, seq<Message>>
    var records: map<SessionKey, Session>
    var profiles: map<ProfileKey, Profile>

    constructor (profiles: map<ProfileKey, Profile>)
      ensures Value() == World(map[], map[], profiles)
    {
      this.profiles := profiles;
      live, records := map[], map[];
    }

    function Value(): World
      reads this
    {
      World(live, records, profiles)
    }

    method Abandon(id: SessionId, stops: bool)
      modifies this`live
      ensures live == if stops then old(live) - {id} else old(live)
    {
      if stops {
        live := live - {id};
      }
    }

    /** SetCookies; a failure may leave the browser with anything. */
    method SetCookies(id: SessionId, jar: Jar, works: bool) returns (ok: bool)
      requires id in live
      modifies this`live
      ensures ok == works && live.Keys == old(live).Keys && live - {id} == old(live) - {id}
      ensures ok ==> Same(jar, live[id])
    {
      var messages := ServiceCookies(jar);
      if !works {
        var partial: seq<Message> := *;
        live := live[id := partial];
        return false;
      }
      live := live[id := messages];
      return true;
    }

    method Open(org: Org, request: OpenRequest, calls: OpenCalls) returns (r: Result<SessionId, DriverError>)
      requires Fresh(Value(), calls)
      modifies this
      ensures OpenEffect(old(Value()), Value(), org, request, calls, r)
      ensures OpenMeans(old(Value()), Value(), org, request, calls, r)
    {
      r := TryOpen(org, request, calls);
      OpenEffectMeans(old(Value()), Value(), org, request, calls, r);
    }

    method TryOpen(org: Org, request: OpenRequest, calls: OpenCalls) returns (r: Result<SessionId, DriverError>)
      requires Fresh(Value(), calls)
      modifies this
      ensures OpenEffect(old(Value()), Value(), org, request, calls, r)
    {
      if request.loadStorage && request.profile.None? {
        return Err(Invalid);
      }
      if !calls.client {
        return Err(Unavailable);
      }
      var kind: Kind, jar: Jar := Chrome, [];
      match request.profile {
        case None =>
          if request.kind.None? {
            return Err(Invalid);
          }
          kind := request.kind.value;
        case Some(profile) =>
          if !calls.profile || (org, profile) !in profiles {
            return Err(NoProfile);
          }
          kind, jar := profiles[(org, profile)].kind, profiles[(org, profile)].jar;
      }
      if !request.loadStorage {
        jar := [];
      }
      match calls.open {
        case NotOpened(None) =>
          return Err(Unavailable);
        case NotOpened(Some(orphan)) =>
          live := live[orphan := []];
          return Err(Unavailable);
        case Minted(id) =>
          r := Start(org, request, calls, id, kind, jar);
      }
    }

    /** Open once the browser is up: seed it and register it, or abandon it. */
    method Start(org: Org, request: OpenRequest, calls: OpenCalls, id: SessionId, kind: Kind, jar: Jar)
      returns (r: Result<SessionId, DriverError>)
      requires id !in live
      modifies this`live, this`records
      ensures if jar != [] && !calls.cookies then
                && records == old(records) && r == Err(Unavailable)
                && if calls.abandon then live == old(live) else OnlyAdds(old(Value()), Value(), id)
              else if calls.adopt.Done? then
                && r == Ok(id) && OnlyAdds(old(Value()), Value(), id) && Starts(Value(), id, jar)
                && records == old(records)[(org, id) := Session(request.profile, kind)]
              else
                && r == Err(NotRegistered)
                && (if calls.abandon then live == old(live) else OnlyAdds(old(Value()), Value(), id))
                && records ==
                   if Lands(calls.adopt) then old(records)[(org, id) := Session(request.profile, kind)]
                   else old(records)
    {
      live := live[id := []];
      if |jar| > 0 {
        var seeded := SetCookies(id, jar, calls.cookies);
        if !seeded {
          Abandon(id, calls.abandon);
          return Err(Unavailable);
        }
      }
      if Lands(calls.adopt) {
        records := records[(org, id) := Session(request.profile, kind)];
      }
      if !calls.adopt.Done? {
        Abandon(id, calls.abandon);
        return Err(NotRegistered);
      }
      return Ok(id);
    }

    /** The read of Touch. */
    method Look(org: Org, id: SessionId, get: bool) returns (r: Option<Session>)
      ensures r == if get && (org, id) in records then Some(records[(org, id)]) else None
    {
      return if get && (org, id) in records then Some(records[(org, id)]) else None;
    }

    /** The write of Touch. */
    method Renew(org: Org, id: SessionId, record: Session, save: Write) returns (ok: bool)
      modifies this`records
      ensures RenewEffect(old(Value()), Value(), (org, id), record, save) && ok == save.Done?
    {
      if Lands(save) {
        records := records[(org, id) := record];
      }
      return save.Done?;
    }

    /** With nobody in between, a Touch changes nothing but a lease. */
    method Driving(org: Org, id: SessionId, calls: DriveCalls) returns (r: Result<(), DriverError>)
      modifies this
      ensures DriveEffect(old(Value()), Value(), org, id, calls, r)
    {
      var record := Look(org, id, calls.get);
      if record.None? {
        return Err(NoSession);
      }
      var renewed := Renew(org, id, record.value, calls.save);
      if !renewed {
        return Err(NoSession);
      }
      if !calls.client {
        return Err(Unavailable);
      }
      return Ok(());
    }

    /** saveCookies */
    method SaveCookies(org: Org, id: SessionId, profile: ProfileId, calls: CloseCalls)
      returns (error: Option<DriverError>)
      modifies this`profiles
      ensures error.Some? <==> SaveFails(old(Value()), org, id, profile, calls)
      ensures if Replaces(old(Value()), org, id, profile, calls) then JarSaved(old(Value()), Value(), org, id, profile)
              else profiles == old(profiles)
    {
      if calls.capture.NoAnswer? {
        return Some(Unavailable);
      }
      var captured := if calls.capture.Whole? && id in live then live[id] else [];
      if |captured| == 0 {
        return None;
      }
      var jar := DomainCookies(captured);
      if !calls.profile || (org, profile) !in profiles {
        return Some(NotSaved);
      }
      var k := 0;
      while k < |jar|
        invariant 0 <= k <= |jar| && Complete(captured[..k])
      {
        if jar[k].name == "" || jar[k].domain == "" {
          assert !Complete(captured) by {
            assert SameCookie(jar[k], captured[k]);
          }
          return Some(NotSaved);
        }
        assert SameCookie(jar[k], captured[k]);
        k := k + 1;
      }
      assert captured[..|jar|] == captured;
      if Lands(calls.update) {
        profiles := profiles[(org, profile) := profiles[(org, profile)].(jar := jar)];
      }
      return if calls.update.Done? then None else Some(NotSaved);
    }

    method Close(org: Org, id: SessionId, saveStorage: bool, calls: CloseCalls) returns (r: Result<(), DriverError>)
      modifies this
      ensures CloseEffect(old(Value()), Value(), org, id, saveStorage, calls, r)
      ensures CloseMeans(old(Value()), Value(), org, id, saveStorage, calls, r)
    {
      r := TryClose(org, id, saveStorage, calls);
      CloseEffectMeans(old(Value()), Value(), org, id, saveStorage, calls, r);
    }

    method TryClose(org: Org, id: SessionId, saveStorage: bool, calls: CloseCalls) returns (r: Result<(), DriverError>)
      modifies this
      ensures CloseEffect(old(Value()), Value(), org, id, saveStorage, calls, r)
    {
      if !calls.get || (org, id) !in records {
        return Err(NoSession);
      }
      var record := records[(org, id)];
      if saveStorage && record.profile.None? {
        return Err(Invalid);
      }
      if !calls.client {
        return Err(Unavailable);
      }
      if saveStorage {
        var failed := SaveCookies(org, id, record.profile.value, calls);
        if failed.Some? {
          return Err(failed.value);
        }
      }
      Abandon(id, calls.stops);
      r := Forget(org, id, calls);
    }

    /** The record store's own Close. */
    method Forget(org: Org, id: SessionId, calls: CloseCalls) returns (r: Result<(), DriverError>)
      requires (org, id) in records
      modifies this`records
      ensures records == if calls.getAgain && Lands(calls.delete) then old(records) - {(org, id)} else old(records)
      ensures r.Ok? <==> calls.getAgain && calls.delete.Done?
    {
      if !calls.getAgain {
        return Err(NoSession);
      }
      if Lands(calls.delete) {
        records := records - {(org, id)};
      }
      return if calls.delete.Done? then Ok(()) else Err(NotRegistered);
    }
  }
}
