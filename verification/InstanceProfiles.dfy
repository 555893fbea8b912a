/**
 The stored list of service instances (apps/desktop/src/instance-profiles.ts). Origins are opaque, already normalized
 values; what the URL library derives from one is a parameter.
 */
module InstanceProfiles {
  import opened Wrappers

  datatype Kind = Local | Remote

  datatype Transport = LoopbackHttp | AutoTlsPinned | ExplicitHttp

  datatype Profile = Profile(
    id: string,
    kind: Kind,
    displayName: string,
    origin: string,
    transport: Option<Transport>,
    instanceId: Option<string>,
    pin: Option<string>,
    credentialRef: Option<string>,
    partition: string,
    notificationsEnabled: bool,
    lastRoute: string,
    addedAt: int,
    lastSelectedAt: int)

  datatype Envelope = Envelope(selected: string, profiles: seq<Profile>, connectionNotices: Option<bool>)

  /** What the URL library and the route pattern say: transport and host of an origin, a trimmed name, a usable route. */
  datatype Urls = Urls(
    transportFor: string -> Transport,
    hostOf: string -> string,
    trim: string -> string,
    allowedRoute: string -> bool)

  const LOCAL_ID := "local"
  const LOCAL_PARTITION := "persist:nxt-instance-local"
  const PARTITION_PREFIX := "persist:nxt-instance-"
  const DEFAULT_ROUTE := "/"

  // ---------- What a stored file must satisfy ----------

  /** Two profiles share no id, no origin and no known instance. */
  predicate Apart(p: Profile, q: Profile) {
    p.id != q.id && p.origin != q.origin && (p.instanceId.Some? ==> p.instanceId != q.instanceId)
  }

  predicate AllApart(profiles: seq<Profile>) {
    forall i, j :: 0 <= i < j < |profiles| ==> Apart(profiles[i], profiles[j])
  }

  predicate Has(profiles: seq<Profile>, id: string) {
    exists p :: p in profiles && p.id == id
  }

  /** The envelope-wide conditions of the parser. */
  predicate Consistent(e: Envelope) {
    && e.profiles != [] && e.profiles[0].id == LOCAL_ID && e.profiles[0].kind == Local
    && AllApart(e.profiles) && Has(e.profiles, e.selected)
  }

  /** The conditions the parser puts on one profile. */
  predicate ProfileOk(u: Urls, p: Profile) {
    && (p.kind == Remote ==>
        && PARTITION_PREFIX <= p.partition && p.instanceId.Some?
        && p.transport == Some(u.transportFor(p.origin))
        && (p.transport == Some(AutoTlsPinned) ==> p.pin.Some?))
    && u.allowedRoute(p.lastRoute)
  }

  predicate Accepted(u: Urls, e: Envelope) {
    Consistent(e) && forall p :: p in e.profiles ==> ProfileOk(u, p)
  }

  // ---------- The operations as changes of the envelope ----------

  datatype Connection = Connection(
    displayName: string,
    origin: string,
    instanceId: string,
    transport: Option<Transport>,
    pin: Option<string>,
    credentialRef: Option<string>)

  datatype Patch = Patch(
    displayName: Option<string>,
    notificationsEnabled: Option<bool>,
    lastRoute: Option<string>,
    lastSelectedAt: Option<int>)

  /** `uuid` stands for the random id the operation draws. */
  datatype Op =
    | SetConnectionNotices(enabled: bool)
    | AddRemote(connection: Connection, uuid: string, now: int)
    | UpdateRemoteConnection(id: string, connection: Connection, uuid: string)
    | UpdateProfile(id: string, patch: Patch)
    | UpdateRemoteSecurity(id: string, pin: Option<string>, credentialRef: Option<string>)
    | Select(id: string, now: int)
    | Remove(id: string)

  function Find(profiles: seq<Profile>, id: string): (r: Option<Profile>)
    ensures r.Some? ==> r.value in profiles && r.value.id == id
    ensures r.None? ==> forall p :: p in profiles ==> p.id != id
  {
    if profiles == [] then None
    else if profiles[0].id == id then Some(profiles[0])
    else Find(profiles[1..], id)
  }

  predicate Available(e: Envelope, origin: string, instanceId: Option<string>, excluding: Option<string>) {
    forall p :: p in e.profiles && excluding != Some(p.id) ==>
      p.origin != origin && (instanceId.Some? ==> p.instanceId != instanceId)
  }

  function Replace(profiles: seq<Profile>, id: string, next: Profile): (r: seq<Profile>)
    ensures |r| == |profiles|
    ensures forall i :: 0 <= i < |r| ==> r[i] == if profiles[i].id == id then next else profiles[i]
  {
    if profiles == [] then []
    else [if profiles[0].id == id then next else profiles[0]] + Replace(profiles[1..], id, next)
  }

  function Without(profiles: seq<Profile>, id: string): (r: seq<Profile>)
    ensures forall p :: p in r <==> p in profiles && p.id != id
  {
    if profiles == [] then []
    else (if profiles[0].id == id then [] else [profiles[0]]) + Without(profiles[1..], id)
  }

  function NameOr(u: Urls, displayName: string, origin: string): string {
    if u.trim(displayName) != "" then u.trim(displayName) else u.hostOf(origin)
  }

  function TransportOr(u: Urls, c: Connection): Transport {
    if c.transport.Some? then c.transport.value else u.transportFor(c.origin)
  }

  function NewRemote(u: Urls, c: Connection, uuid: string, now: int): Profile {
    Profile(uuid, Remote, NameOr(u, c.displayName, c.origin), c.origin, Some(TransportOr(u, c)), Some(c.instanceId),
            c.pin, c.credentialRef, PARTITION_PREFIX + uuid, true, DEFAULT_ROUTE, now, now)
  }

  /** The profile an operation puts in place of the one with its id; nothing when it is refused. */
  function Edited(u: Urls, e: Envelope, op: Op): Option<Profile>
    requires IsEdit(op)
  {
    var found := Find(e.profiles, op.id);
    if found.None? then None
    else
      var current := found.value;
      match op
      case UpdateRemoteConnection(id, c, uuid) =>
        if current.kind != Remote || !Available(e, c.origin, Some(c.instanceId), Some(id))
           || Some(c.instanceId) != current.instanceId || TransportOr(u, c) != u.transportFor(c.origin)
           || (TransportOr(u, c) == AutoTlsPinned && c.pin.None?) then None
        else
          Some(current.(
            displayName := NameOr(u, c.displayName, c.origin), origin := c.origin, transport := Some(TransportOr(u, c)),
            pin := c.pin, credentialRef := c.credentialRef,
            partition := if c.origin == current.origin then current.partition
                         else PARTITION_PREFIX + current.id + "-" + uuid))
      case UpdateProfile(id, patch) =>
        Some(current.(
          displayName := if patch.displayName.Some? then patch.displayName.value else current.displayName,
          notificationsEnabled := if patch.notificationsEnabled.Some? then patch.notificationsEnabled.value else current.notificationsEnabled,
          lastRoute := if patch.lastRoute.None? then current.lastRoute
                       else if u.allowedRoute(patch.lastRoute.value) then patch.lastRoute.value else DEFAULT_ROUTE,
          lastSelectedAt := if patch.lastSelectedAt.Some? then patch.lastSelectedAt.value else current.lastSelectedAt))
      case UpdateRemoteSecurity(id, pin, credentialRef) =>
        if current.kind != Remote then None else Some(current.(pin := pin, credentialRef := credentialRef))
      case Select(id, now) => Some(current.(lastSelectedAt := now))
  }

  /** The envelope an operation saves; nothing when it is refused before saving. */
  function Applied(u: Urls, e: Envelope, op: Op): Option<Envelope> {
    match op
    case SetConnectionNotices(enabled) => Some(e.(connectionNotices := Some(enabled)))
    case AddRemote(c, uuid, now) =>
      if !Available(e, c.origin, Some(c.instanceId), None) || TransportOr(u, c) != u.transportFor(c.origin) then None
      else Some(e.(selected := uuid, profiles := e.profiles + [NewRemote(u, c, uuid, now)]))
    case Remove(id) =>
      if id == LOCAL_ID || Find(e.profiles, id).None? then None
      else Some(e.(selected := if e.selected == id then LOCAL_ID else e.selected, profiles := Without(e.profiles, id)))
    case _ =>
      var next := Edited(u, e, op);
      if next.None? then None
      else Some(e.(selected := if op.Select? then op.id else e.selected, profiles := Replace(e.profiles, op.id, next.value)))
  }

  /** Random ids do not repeat. */
  predicate FreshId(e: Envelope, op: Op) {
    op.AddRemote? ==> op.uuid != LOCAL_ID && forall p :: p in e.profiles ==> p.id != op.uuid
  }

  // ---------- What every operation keeps ----------

  lemma {:induction false} WithoutKeepsApart(profiles: seq<Profile>, id: string)
    requires AllApart(profiles)
    ensures AllApart(Without(profiles, id))
    ensures profiles != [] && profiles[0].id != id ==> Without(profiles, id) != [] && Without(profiles, id)[0] == profiles[0]
  {
    hide Apart;
    if profiles != [] {
      var rest := Without(profiles[1..], id);
      WithoutKeepsApart(profiles[1..], id);
      forall j | 0 <= j < |rest| ensures Apart(profiles[0], rest[j]) {
        assert rest[j] in profiles[1..];
        var i :| 1 <= i < |profiles| && profiles[i] == rest[j];
      }
    }
  }

  /** The one place a profile with this id is at. */
  lemma Position(profiles: seq<Profile>, id: string) returns (k: nat)
    requires AllApart(profiles) && Find(profiles, id).Some?
    ensures k < |profiles| && profiles[k] == Find(profiles, id).value
    ensures forall j :: 0 <= j < |profiles| ==> (profiles[j].id == id <==> j == k)
  {
    k :| 0 <= k < |profiles| && profiles[k] == Find(profiles, id).value;
  }

  lemma ReplaceIsUpdate(profiles: seq<Profile>, id: string, next: Profile, k: nat)
    requires k < |profiles| && forall j :: 0 <= j < |profiles| ==> (profiles[j].id == id <==> j == k)
    ensures Replace(profiles, id, next) == profiles[k := next]
  {
  }

  lemma UpdateKeepsApart(profiles: seq<Profile>, k: nat, next: Profile)
    requires AllApart(profiles) && k < |profiles|
    requires forall p :: p in profiles && p.id != profiles[k].id ==> Apart(p, next) && Apart(next, p)
    ensures AllApart(profiles[k := next])
  {
    var r := profiles[k := next];
    forall i, j | 0 <= i < j < |r| ensures Apart(r[i], r[j]) {
      assert profiles[i] in profiles && profiles[j] in profiles && Apart(profiles[i], profiles[j]);
    }
  }

  lemma UpdateKeepsHas(profiles: seq<Profile>, k: nat, next: Profile, id: string)
    requires k < |profiles| && next.id == profiles[k].id
    ensures Has(profiles, id) <==> Has(profiles[k := next], id)
  {
    var r := profiles[k := next];
    if Has(profiles, id) {
      var p :| p in profiles && p.id == id;
      var i :| 0 <= i < |profiles| && profiles[i] == p;
      assert r[i] in r && r[i].id == id;
    }
    if Has(r, id) {
      var p :| p in r && p.id == id;
      var i :| 0 <= i < |r| && r[i] == p;
      assert profiles[i] in profiles && profiles[i].id == id;
    }
  }

  /** Replacing one profile by one with the same id and kind, and connection details nobody else has. */
  lemma ReplaceKeepsConsistent(e: Envelope, id: string, next: Profile)
    requires Consistent(e) && Find(e.profiles, id).Some?
    requires next.id == id && next.kind == Find(e.profiles, id).value.kind
    requires forall p :: p in e.profiles && p.id != id ==> Apart(p, next) && Apart(next, p)
    ensures Consistent(e.(profiles := Replace(e.profiles, id, next)))
    ensures Consistent(e.(selected := id, profiles := Replace(e.profiles, id, next)))
  {
    hide Apart, AllApart, Has, LOCAL_ID;
    var k := Position(e.profiles, id);
    ReplaceIsUpdate(e.profiles, id, next, k);
    UpdateKeepsApart(e.profiles, k, next);
    UpdateKeepsHas(e.profiles, k, next, e.selected);
    UpdateKeepsHas(e.profiles, k, next, id);
    HasFound(e.profiles, id);
  }

  lemma HasFound(profiles: seq<Profile>, id: string)
    requires Find(profiles, id).Some?
    ensures Has(profiles, id)
  {
    assert Find(profiles, id).value in profiles;
  }

  lemma OthersApart(profiles: seq<Profile>, id: string, p: Profile)
    requires AllApart(profiles) && Find(profiles, id).Some? && p in profiles && p.id != id
    ensures Apart(p, Find(profiles, id).value) && Apart(Find(profiles, id).value, p)
  {
    var i :| 0 <= i < |profiles| && profiles[i] == p;
    var j :| 0 <= j < |profiles| && profiles[j] == Find(profiles, id).value;
    assert Apart(profiles[if i < j then i else j], profiles[if i < j then j else i]);
  }

  predicate IsEdit(op: Op) {
    op.UpdateRemoteConnection? || op.UpdateProfile? || op.UpdateRemoteSecurity? || op.Select?
  }

  lemma EditedKeepsIdentity(u: Urls, e: Envelope, op: Op)
    requires AllApart(e.profiles) && IsEdit(op) && Edited(u, e, op).Some?
    ensures var next, current := Edited(u, e, op).value, Find(e.profiles, op.id).value;
            && next.id == op.id && next.kind == current.kind && next.instanceId == current.instanceId
            && (next.origin != current.origin ==> op.UpdateRemoteConnection? && next.origin == op.connection.origin)
            && forall p :: p in e.profiles && p.id != op.id ==> Apart(p, next) && Apart(next, p)
  {
    hide AllApart;
    forall p | p in e.profiles && p.id != op.id
      ensures Apart(p, Find(e.profiles, op.id).value) && Apart(Find(e.profiles, op.id).value, p)
    {
      OthersApart(e.profiles, op.id, p);
    }
  }

  /** An edit changes the profile with its id where it stands, and selects another only when it is meant to. */
  lemma EditTouchesOneProfile(u: Urls, e: Envelope, op: Op, e': Envelope)
    requires AllApart(e.profiles) && IsEdit(op) && Applied(u, e, op) == Some(e')
    ensures |e'.profiles| == |e.profiles| && e'.connectionNotices == e.connectionNotices
    ensures exists k :: 0 <= k < |e.profiles| && e.profiles[k].id == op.id
                        && forall i :: 0 <= i < |e.profiles| && i != k ==> e'.profiles[i] == e.profiles[i]
    ensures e'.selected == if op.Select? then op.id else e.selected
    ensures op.Select? ==> Find(e.profiles, op.id).Some?
  {
    hide Edited, AllApart;
    assert Find(e.profiles, op.id).Some? by { EditNeedsProfile(u, e, op); }
    var k := Position(e.profiles, op.id);
  }

  lemma EditNeedsProfile(u: Urls, e: Envelope, op: Op)
    requires IsEdit(op) && Edited(u, e, op).Some?
    ensures Find(e.profiles, op.id).Some?
  {
    hide Available, NameOr, TransportOr;
  }

  /** A patched profile differs in the named fields only, and its route is always one the app can open. */
  lemma PatchedProfile(u: Urls, e: Envelope, id: string, patch: Patch)
    requires Find(e.profiles, id).Some? && u.allowedRoute(DEFAULT_ROUTE) && u.allowedRoute(Find(e.profiles, id).value.lastRoute)
    ensures Edited(u, e, UpdateProfile(id, patch)).Some?
    ensures var was, p := Find(e.profiles, id).value, Edited(u, e, UpdateProfile(id, patch)).value;
            && u.allowedRoute(p.lastRoute)
            && (patch.lastRoute.Some? && u.allowedRoute(patch.lastRoute.value) ==> p.lastRoute == patch.lastRoute.value)
            && (patch.displayName.Some? ==> p.displayName == patch.displayName.value)
            && (patch.notificationsEnabled.Some? ==> p.notificationsEnabled == patch.notificationsEnabled.value)
            && (patch.lastSelectedAt.Some? ==> p.lastSelectedAt == patch.lastSelectedAt.value)
            && (patch.displayName.None? ==> p.displayName == was.displayName)
            && (patch.notificationsEnabled.None? ==> p.notificationsEnabled == was.notificationsEnabled)
            && (patch.lastRoute.None? ==> p.lastRoute == was.lastRoute)
            && (patch.lastSelectedAt.None? ==> p.lastSelectedAt == was.lastSelectedAt)
            && p.(displayName := was.displayName, notificationsEnabled := was.notificationsEnabled,
                  lastRoute := was.lastRoute, lastSelectedAt := was.lastSelectedAt) == was
  {
    hide DEFAULT_ROUTE;
  }

  lemma AppendKeepsConsistent(e: Envelope, p: Profile)
    requires Consistent(e) && p.instanceId.Some?
    requires forall q :: q in e.profiles ==> q.id != p.id && q.origin != p.origin && q.instanceId != p.instanceId
    ensures Consistent(e.(selected := p.id, profiles := e.profiles + [p]))
  {
    var r := e.profiles + [p];
    assert r[|e.profiles|] == p;
    forall i | 0 <= i < |e.profiles| ensures r[i] in e.profiles {}
  }

  lemma RemoveKeepsConsistent(e: Envelope, id: string)
    requires Consistent(e) && id != LOCAL_ID
    ensures Consistent(e.(selected := if e.selected == id then LOCAL_ID else e.selected, profiles := Without(e.profiles, id)))
  {
    hide AllApart, Apart, LOCAL_ID;
    WithoutKeepsApart(e.profiles, id);
    assert e.profiles[0] in Without(e.profiles, id);
  }

  /** Every operation leaves the local profile first, all ids, origins and instances distinct, and the selected one present. */
  lemma AppliedKeepsConsistent(u: Urls, e: Envelope, op: Op)
    requires Consistent(e) && FreshId(e, op) && Applied(u, e, op).Some?
    ensures Consistent(Applied(u, e, op).value)
  {
    match op
    case SetConnectionNotices(enabled) =>
    case AddRemote(c, uuid, now) => AppendKeepsConsistent(e, NewRemote(u, c, uuid, now));
    case Remove(id) => RemoveKeepsConsistent(e, id);
    case _ =>
      EditedKeepsIdentity(u, e, op);
      ReplaceKeepsConsistent(e, op.id, Edited(u, e, op).value);
  }

  /** The pin an operation would leave on a remote that needs one. */
  predicate LeavesPin(u: Urls, e: Envelope, op: Op) {
    match op
    case AddRemote(c, uuid, now) => u.transportFor(c.origin) == AutoTlsPinned ==> c.pin.Some?
    case UpdateRemoteSecurity(id, pin, credentialRef) =>
      Find(e.profiles, id).Some? && u.transportFor(Find(e.profiles, id).value.origin) == AutoTlsPinned ==> pin.Some?
    case _ => true
  }

  /**
   Whether the next launch accepts what an operation saved. Adding a profile or replacing its security fields does not
   check the pin itself, so the answer is exactly whether the caller provided one where the transport needs it.
   */
  lemma SavedIsAcceptedExactlyWhenPinned(u: Urls, e: Envelope, op: Op)
    requires Accepted(u, e) && FreshId(e, op) && Applied(u, e, op).Some? && u.allowedRoute(DEFAULT_ROUTE)
    ensures Accepted(u, Applied(u, e, op).value) <==> LeavesPin(u, e, op)
  {
    hide Consistent, ProfileOk, LeavesPin, DEFAULT_ROUTE, LOCAL_ID, Edited, NewRemote, Available;
    AppliedKeepsConsistent(u, e, op);
    var next := Applied(u, e, op).value;
    match op
    case SetConnectionNotices(enabled) =>
      AlwaysLeavesPin(u, e, op);
    case AddRemote(c, uuid, now) =>
      var p := NewRemote(u, c, uuid, now);
      assert forall q :: q in next.profiles <==> q in e.profiles || q == p;
      AddedIsOkExactlyWhenPinned(u, e, op);
    case Remove(id) =>
      AlwaysLeavesPin(u, e, op);
    case _ =>
      EditIsAcceptedExactlyWhenPinned(u, e, op);
  }

  lemma EditIsAcceptedExactlyWhenPinned(u: Urls, e: Envelope, op: Op)
    requires Accepted(u, e) && IsEdit(op) && Edited(u, e, op).Some? && u.allowedRoute(DEFAULT_ROUTE)
    ensures (forall p :: p in Replace(e.profiles, op.id, Edited(u, e, op).value) ==> ProfileOk(u, p)) <==> LeavesPin(u, e, op)
  {
    hide Consistent, ProfileOk, LeavesPin, DEFAULT_ROUTE, Edited;
    EditNeedsProfile(u, e, op);
    EditedIsOkExactlyWhenPinned(u, e, op);
    ReplacedMembers(e, op.id, Edited(u, e, op).value);
  }

  lemma AlwaysLeavesPin(u: Urls, e: Envelope, op: Op)
    requires !op.AddRemote? && !op.UpdateRemoteSecurity?
    ensures LeavesPin(u, e, op)
  {
  }

  lemma AddedIsOkExactlyWhenPinned(u: Urls, e: Envelope, op: Op)
    requires op.AddRemote? && TransportOr(u, op.connection) == u.transportFor(op.connection.origin) && u.allowedRoute(DEFAULT_ROUTE)
    ensures ProfileOk(u, NewRemote(u, op.connection, op.uuid, op.now)) <==> LeavesPin(u, e, op)
  {
    hide PARTITION_PREFIX, DEFAULT_ROUTE, NameOr;
  }

  lemma EditedIsOkExactlyWhenPinned(u: Urls, e: Envelope, op: Op)
    requires IsEdit(op) && Edited(u, e, op).Some? && u.allowedRoute(DEFAULT_ROUTE)
    requires ProfileOk(u, Find(e.profiles, op.id).value)
    ensures ProfileOk(u, Edited(u, e, op).value) <==> LeavesPin(u, e, op)
  {
    hide PARTITION_PREFIX, DEFAULT_ROUTE, NameOr, Available;
    var p, current := Edited(u, e, op).value, Find(e.profiles, op.id).value;
    if op.UpdateRemoteConnection? && p.partition != current.partition {
      assert p.partition == PARTITION_PREFIX + (current.id + "-" + op.uuid);
    }
  }

  lemma ReplacedMembers(e: Envelope, id: string, next: Profile)
    requires Consistent(e) && Find(e.profiles, id).Some?
    ensures var r := Replace(e.profiles, id, next); next in r && forall q :: q in r ==> q == next || q in e.profiles
  {
    hide Apart;
    var k := Position(e.profiles, id);
    ReplaceIsUpdate(e.profiles, id, next, k);
    assert e.profiles[k := next][k] == next;
  }

  // ---------- Opening ----------

  function WithLocalOrigin(e: Envelope, localOrigin: string): Envelope {
    e.(profiles := ReplaceLocalOrigin(e.profiles, localOrigin))
  }

  function ReplaceLocalOrigin(profiles: seq<Profile>, localOrigin: string): (r: seq<Profile>)
    ensures |r| == |profiles|
    ensures forall i :: 0 <= i < |r| ==>
      r[i] == if profiles[i].id == LOCAL_ID then profiles[i].(origin := localOrigin) else profiles[i]
  {
    if profiles == [] then []
    else
      [if profiles[0].id == LOCAL_ID then profiles[0].(origin := localOrigin) else profiles[0]]
      + ReplaceLocalOrigin(profiles[1..], localOrigin)
  }

  function Initial(localOrigin: string, now: int): Envelope {
    Envelope(LOCAL_ID,
             [Profile(LOCAL_ID, Local, "本地实例", localOrigin, None, None, None, None, LOCAL_PARTITION, true, DEFAULT_ROUTE, now, now)],
             None)
  }

  /** Opening takes the new local origin unchecked, so it stays consistent exactly when no other profile has it. */
  lemma OpenedConsistentExactlyWhenOriginFree(e: Envelope, localOrigin: string)
    requires Consistent(e)
    ensures Consistent(WithLocalOrigin(e, localOrigin))
            <==> forall p :: p in e.profiles && p.id != LOCAL_ID ==> p.origin != localOrigin
  {
    hide LOCAL_ID, Has, AllApart;
    var moved := LocalMoved(e, localOrigin);
    UpdateKeepsHas(e.profiles, 0, moved, e.selected);
    if forall p :: p in e.profiles && p.id != LOCAL_ID ==> p.origin != localOrigin {
      forall p | p in e.profiles && p.id != LOCAL_ID ensures Apart(p, moved) && Apart(moved, p) {
        assert Find(e.profiles, LOCAL_ID) == Some(e.profiles[0]);
        OthersApart(e.profiles, LOCAL_ID, p);
      }
      UpdateKeepsApart(e.profiles, 0, moved);
    } else {
      var q :| q in e.profiles && q.id != LOCAL_ID && q.origin == localOrigin;
      SharedOrigin(e.profiles, moved, q);
    }
  }

  lemma SharedOrigin(profiles: seq<Profile>, moved: Profile, q: Profile)
    requires q in profiles && profiles[0].id != q.id && moved.origin == q.origin
    ensures !AllApart(profiles[0 := moved])
  {
    var k :| 0 <= k < |profiles| && profiles[k] == q;
    assert !Apart(profiles[0 := moved][0], profiles[0 := moved][k]);
  }

  /** Only the first profile of a consistent envelope is the local one. */
  lemma LocalMoved(e: Envelope, localOrigin: string) returns (moved: Profile)
    requires Consistent(e)
    ensures moved == e.profiles[0].(origin := localOrigin)
    ensures WithLocalOrigin(e, localOrigin).profiles == e.profiles[0 := moved]
    ensures Find(e.profiles, LOCAL_ID) == Some(e.profiles[0])
  {
    hide LOCAL_ID;
    moved := e.profiles[0].(origin := localOrigin);
    var k := Position(e.profiles, LOCAL_ID);
    assert k == 0;
  }

  // ---------- What each operation does, field by field ----------

  /** The name as given, without the blanks around it, or the host when nothing is left. */
  predicate Named(u: Urls, p: Profile, displayName: string) {
    p.displayName == if u.trim(displayName) == "" then u.hostOf(p.origin) else u.trim(displayName)
  }

  /** The connection a remote profile was given: its address, and how to get in. */
  predicate Connected(u: Urls, p: Profile, c: Connection) {
    && p.kind == Remote && p.origin == c.origin && p.instanceId == Some(c.instanceId) && p.pin == c.pin
    && p.credentialRef == c.credentialRef && p.transport == Some(u.transportFor(c.origin)) && Named(u, p, c.displayName)
  }

  predicate NewlyAdded(u: Urls, p: Profile, c: Connection, uuid: string, now: int) {
    && Connected(u, p, c) && p.id == uuid && p.partition == "persist:nxt-instance-" + uuid
    && p.notificationsEnabled && p.lastRoute == "/" && p.addedAt == p.lastSelectedAt == now
  }

  /** No other profile has this address, or is this instance. */
  predicate Free(profiles: seq<Profile>, c: Connection, but: Option<string>) {
    forall i :: 0 <= i < |profiles| && Some(profiles[i].id) != but ==>
      profiles[i].origin != c.origin && profiles[i].instanceId != Some(c.instanceId)
  }

  predicate TransportFits(u: Urls, c: Connection) {
    c.transport.None? || c.transport.value == u.transportFor(c.origin)
  }

  /** Adding is refused exactly when address or instance are listed or the transport does not fit; what is added is this. */
  lemma AddedProfile(u: Urls, e: Envelope, c: Connection, uuid: string, now: int)
    ensures Applied(u, e, Op.AddRemote(c, uuid, now)).Some? <==> Free(e.profiles, c, None) && TransportFits(u, c)
    ensures Applied(u, e, Op.AddRemote(c, uuid, now)).Some? ==> Adds(u, e, c, uuid, now, Applied(u, e, Op.AddRemote(c, uuid, now)).value)
  {
    AvailableIsFree(e, c, None);
    assert PARTITION_PREFIX + uuid == "persist:nxt-instance-" + uuid;
  }

  predicate Adds(u: Urls, e: Envelope, c: Connection, uuid: string, now: int, e': Envelope) {
    && e'.selected == uuid && e'.connectionNotices == e.connectionNotices
    && |e'.profiles| == |e.profiles| + 1 && e'.profiles[..|e.profiles|] == e.profiles
    && NewlyAdded(u, e'.profiles[|e.profiles|], c, uuid, now)
  }

  lemma AvailableIsFree(e: Envelope, c: Connection, but: Option<string>)
    ensures Available(e, c.origin, Some(c.instanceId), but) <==> Free(e.profiles, c, but)
  {
    if Available(e, c.origin, Some(c.instanceId), but) {
      forall i | 0 <= i < |e.profiles| && Some(e.profiles[i].id) != but
        ensures e.profiles[i].origin != c.origin && e.profiles[i].instanceId != Some(c.instanceId)
      {
        assert e.profiles[i] in e.profiles;
      }
    }
  }

  /** What an edit asks of the profile it is for. */
  predicate MayEdit(u: Urls, profiles: seq<Profile>, op: Op, was: Profile) {
    match op
    case UpdateRemoteConnection(id, c, _) =>
      && was.kind == Remote && was.instanceId == Some(c.instanceId) && Free(profiles, c, Some(id)) && TransportFits(u, c)
      && (u.transportFor(c.origin) == AutoTlsPinned ==> c.pin.Some?)
    case UpdateRemoteSecurity(_, _, _) => was.kind == Remote
    case _ => true
  }

  /** What an edit makes of a profile: the fields it is about are as asked for, and all others as they were. */
  predicate EditMakes(u: Urls, op: Op, was: Profile, p: Profile) {
    match op
    case UpdateRemoteConnection(_, c, uuid) =>
      && Connected(u, p, c)
      && (p.partition == if c.origin == was.origin then was.partition else "persist:nxt-instance-" + was.id + "-" + uuid)
      && p.id == was.id && p.notificationsEnabled == was.notificationsEnabled && p.lastRoute == was.lastRoute
      && p.addedAt == was.addedAt && p.lastSelectedAt == was.lastSelectedAt
    case UpdateProfile(_, patch) =>
      && p.displayName == Or(patch.displayName, was.displayName)
      && p.notificationsEnabled == Or(patch.notificationsEnabled, was.notificationsEnabled)
      && p.lastSelectedAt == Or(patch.lastSelectedAt, was.lastSelectedAt)
      && (p.lastRoute == if patch.lastRoute.Some? && !u.allowedRoute(patch.lastRoute.value) then "/" else Or(patch.lastRoute, was.lastRoute))
      && p.id == was.id && p.kind == was.kind && p.origin == was.origin && p.transport == was.transport && p.instanceId == was.instanceId
      && p.pin == was.pin && p.credentialRef == was.credentialRef && p.partition == was.partition && p.addedAt == was.addedAt
    case UpdateRemoteSecurity(_, pin, credentialRef) =>
      p.pin == pin && p.credentialRef == credentialRef && p.(pin := was.pin, credentialRef := was.credentialRef) == was
    case Select(_, now) => p.lastSelectedAt == now && p.(lastSelectedAt := was.lastSelectedAt) == was
    case _ => false
  }

  function Or<T>(o: Option<T>, otherwise: T): T {
    match o
    case Some(v) => v
    case None => otherwise
  }

  /** Some profile has the id and may be edited like this. */
  predicate Editable(u: Urls, profiles: seq<Profile>, op: Op)
    requires IsEdit(op)
  {
    exists k :: 0 <= k < |profiles| && profiles[k].id == op.id && MayEdit(u, profiles, op, profiles[k])
  }

  /** One profile is edited where it stands. */
  predicate Edits(u: Urls, e: Envelope, op: Op, e': Envelope)
    requires IsEdit(op)
  {
    && e'.selected == (if op.Select? then op.id else e.selected) && e'.connectionNotices == e.connectionNotices
    && |e'.profiles| == |e.profiles|
    && forall i :: 0 <= i < |e.profiles| ==>
         if e.profiles[i].id == op.id then EditMakes(u, op, e.profiles[i], e'.profiles[i]) else e'.profiles[i] == e.profiles[i]
  }

  lemma EditedProfile(u: Urls, e: Envelope, op: Op)
    requires AllApart(e.profiles) && IsEdit(op)
    ensures Applied(u, e, op).Some? <==> Editable(u, e.profiles, op)
    ensures Applied(u, e, op).Some? ==> Edits(u, e, op, Applied(u, e, op).value)
  {
    hide Edited, MayEdit, EditMakes, AllApart, Available, LOCAL_ID;
    if Find(e.profiles, op.id).Some? {
      var k := Position(e.profiles, op.id);
      EditedOne(u, e, op, e.profiles[k]);
    } else {
      EditedNone(u, e, op);
    }
  }

  lemma EditedNone(u: Urls, e: Envelope, op: Op)
    requires IsEdit(op) && Find(e.profiles, op.id).None?
    ensures Edited(u, e, op).None?
  {
  }

  lemma EditedOne(u: Urls, e: Envelope, op: Op, was: Profile)
    requires IsEdit(op) && Find(e.profiles, op.id) == Some(was)
    ensures Edited(u, e, op).Some? <==> MayEdit(u, e.profiles, op, was)
    ensures Edited(u, e, op).Some? ==> EditMakes(u, op, was, Edited(u, e, op).value)
  {
    hide Available, Free, Find;
    if op.UpdateRemoteConnection? { AvailableIsFree(e, op.connection, Some(op.id)); }
    assert DEFAULT_ROUTE == "/" && PARTITION_PREFIX == "persist:nxt-instance-";
  }

  /** The profile with this id is gone and all others stay, in their order; the selection falls back to the local one. */
  predicate Removes(e: Envelope, id: string, e': Envelope) {
    && e'.selected == (if e.selected == id then "local" else e.selected) && e'.connectionNotices == e.connectionNotices
    && exists k :: 0 <= k < |e.profiles| && e.profiles[k].id == id && e'.profiles == e.profiles[..k] + e.profiles[k + 1..]
  }

  lemma {:induction false} WithoutOne(profiles: seq<Profile>, id: string, k: nat)
    requires k < |profiles| && forall j :: 0 <= j < |profiles| ==> (profiles[j].id == id <==> j == k)
    ensures Without(profiles, id) == profiles[..k] + profiles[k + 1..]
  {
    hide Without;
    WithoutFirst(profiles, id);
    if k == 0 {
      WithoutNone(profiles[1..], id);
    } else {
      WithoutOne(profiles[1..], id, k - 1);
      assert profiles[..k] == [profiles[0]] + profiles[1..][..k - 1] && profiles[1..][k..] == profiles[k + 1..];
    }
  }

  lemma WithoutFirst(profiles: seq<Profile>, id: string)
    requires profiles != []
    ensures Without(profiles, id) == (if profiles[0].id == id then [] else [profiles[0]]) + Without(profiles[1..], id)
  {
  }

  lemma {:induction false} WithoutNone(profiles: seq<Profile>, id: string)
    requires forall j :: 0 <= j < |profiles| ==> profiles[j].id != id
    ensures Without(profiles, id) == profiles
  {
    if profiles != [] { WithoutNone(profiles[1..], id); }
  }

  lemma RemovedProfile(u: Urls, e: Envelope, id: string)
    requires AllApart(e.profiles)
    ensures Applied(u, e, Op.Remove(id)).Some? <==> id != "local" && Has(e.profiles, id)
    ensures Applied(u, e, Op.Remove(id)).Some? ==> Removes(e, id, Applied(u, e, Op.Remove(id)).value)
  {
    hide AllApart;
    if Find(e.profiles, id).Some? {
      var k := Position(e.profiles, id);
      WithoutOne(e.profiles, id, k);
    }
  }

  // ---------- Memory and disk over any run ----------

  datatype Store = Store(memory: Envelope, disk: Envelope)

  /** Equal but for the origin of the local profile, which opening refreshes in memory only. */
  ghost predicate InStep(s: Store) {
    exists origin :: WithLocalOrigin(s.disk, origin) == s.memory
  }

  /** One operation run to its end, with its save succeeding or not. */
  function Settled(u: Urls, s: Store, op: Op, saved: bool): Store {
    var next := Applied(u, s.memory, op);
    if next.Some? && saved then Store(next.value, next.value) else s
  }

  function AfterOps(u: Urls, s: Store, ops: seq<(Op, bool)>): Store
    decreases ops
  {
    if ops == [] then s else AfterOps(u, Settled(u, s, ops[0].0, ops[0].1), ops[1..])
  }

  ghost predicate AllFresh(u: Urls, s: Store, ops: seq<(Op, bool)>)
    decreases ops
  {
    ops == [] || (FreshId(s.memory, ops[0].0) && AllFresh(u, Settled(u, s, ops[0].0, ops[0].1), ops[1..]))
  }

  /** Whichever operations run and whichever saves fail, memory stays consistent and in step with the disk. */
  lemma {:induction false} StoreStaysConsistent(u: Urls, s: Store, ops: seq<(Op, bool)>)
    requires Consistent(s.memory) && InStep(s) && AllFresh(u, s, ops)
    ensures Consistent(AfterOps(u, s, ops).memory) && InStep(AfterOps(u, s, ops))
    decreases ops
  {
    if ops != [] {
      var (op, saved) := ops[0];
      var next := Settled(u, s, op, saved);
      if Applied(u, s.memory, op).Some? && saved {
        AppliedKeepsConsistent(u, s.memory, op);
        SameIsInStep(next.memory);
      }
      StoreStaysConsistent(u, next, ops[1..]);
    }
  }

  lemma SameIsInStep(e: Envelope)
    requires Consistent(e)
    ensures InStep(Store(e, e))
  {
    var moved := LocalMoved(e, e.profiles[0].origin);
    assert WithLocalOrigin(e, e.profiles[0].origin) == e;
  }

  // ---------- The store ----------

  datatype Reply = Refused | SaveFailed | Saved

  /** What the caller is told. */
  function Answered(u: Urls, e: Envelope, op: Op, works: bool): Reply {
    if Applied(u, e, op).None? then Refused else if works then Saved else SaveFailed
  }

  class InstanceProfileStore {
    const urls: Urls
    var envelope: Envelope
    var disk: Envelope

    ghost function Both(): Store
      reads this
    {
      Store(envelope, disk)
    }

    /** Opens a file the parser accepted. */
    constructor Open(urls: Urls, stored: Envelope, localOrigin: string)
      requires Accepted(urls, stored)
      ensures this.urls == urls && disk == stored && envelope == WithLocalOrigin(stored, localOrigin) && InStep(Both())
      // Only the local profile's origin is another.
      ensures envelope.selected == stored.selected && envelope.connectionNotices == stored.connectionNotices
      ensures |envelope.profiles| == |stored.profiles| && envelope.profiles[1..] == stored.profiles[1..]
      ensures envelope.profiles[0] == stored.profiles[0].(origin := localOrigin)
    {
      ghost var moved := LocalMoved(stored, localOrigin);
      this.urls, disk, envelope := urls, stored, WithLocalOrigin(stored, localOrigin);
    }

    /** Starts over when there is no file, or it was set aside as damaged; the first save has succeeded. */
    constructor Fresh(urls: Urls, localOrigin: string, now: int)
      ensures this.urls == urls && envelope == disk == Initial(localOrigin, now)
      ensures Consistent(envelope) && InStep(Both())
      ensures envelope.selected == "local" && envelope.connectionNotices.None? && |envelope.profiles| == 1
      ensures var p := envelope.profiles[0];
              && p.id == "local" && p.kind == Local && p.origin == localOrigin && p.partition == "persist:nxt-instance-local"
              && p.notificationsEnabled && p.lastRoute == "/" && p.addedAt == p.lastSelectedAt == now
              && p.transport.None? && p.instanceId.None? && p.pin.None? && p.credentialRef.None?
    {
      this.urls, disk, envelope := urls, Initial(localOrigin, now), Initial(localOrigin, now);
      new;
      assert envelope.profiles[0] in envelope.profiles;
      SameIsInStep(envelope);
    }

    /** Writes a new file and renames it over the old one: both happen or neither does. `works` is how that turns out. */
    method Save(works: bool)
      modifies this`disk
      ensures disk == if works then envelope else old(disk)
    {
      if works { disk := envelope; }
    }

    method Commit(next: Envelope, works: bool) returns (reply: Reply)
      modifies this
      ensures reply == if works then Saved else SaveFailed
      ensures Both() == if works then Store(next, next) else old(Both())
    {
      var previous := envelope;
      envelope := next;
      Save(works);
      if works {
        return Saved;
      }
      envelope := previous;
      return SaveFailed;
    }

    method SetConnectionNotices(enabled: bool, works: bool) returns (reply: Reply)
      modifies this
      ensures Both() == Settled(urls, old(Both()), Op.SetConnectionNotices(enabled), works)
      ensures reply == Answered(urls, old(envelope), Op.SetConnectionNotices(enabled), works)
      ensures reply == (if works then Saved else SaveFailed)
      ensures works ==> envelope == disk == Envelope(old(envelope).selected, old(envelope).profiles, Some(enabled))
    {
      reply := Commit(envelope.(connectionNotices := Some(enabled)), works);
    }

    method AddRemote(c: Connection, uuid: string, now: int, works: bool) returns (reply: Reply)
      modifies this
      ensures Both() == Settled(urls, old(Both()), Op.AddRemote(c, uuid, now), works)
      ensures reply == Answered(urls, old(envelope), Op.AddRemote(c, uuid, now), works)
      ensures reply != Refused <==> Free(old(envelope).profiles, c, None) && TransportFits(urls, c)
      ensures reply == Saved ==> envelope == disk && Adds(urls, old(envelope), c, uuid, now, envelope)
      ensures reply != Saved ==> Both() == old(Both())
    {
      AddedProfile(urls, envelope, c, uuid, now);
      if !Available(envelope, c.origin, Some(c.instanceId), None) { return Refused; }
      if TransportOr(urls, c) != urls.transportFor(c.origin) { return Refused; }
      reply := Commit(envelope.(selected := uuid, profiles := envelope.profiles + [NewRemote(urls, c, uuid, now)]), works);
    }

    /** The four operations that put an edited profile in the place of the old one. */
    method Edit(op: Op, works: bool) returns (reply: Reply)
      requires IsEdit(op)
      modifies this
      ensures Both() == Settled(urls, old(Both()), op, works)
      ensures reply == Answered(urls, old(envelope), op, works)
      ensures AllApart(old(envelope).profiles) ==> (reply != Refused <==> Editable(urls, old(envelope).profiles, op))
      ensures AllApart(old(envelope).profiles) && reply == Saved ==> envelope == disk && Edits(urls, old(envelope), op, envelope)
      ensures reply != Saved ==> Both() == old(Both())
    {
      hide Edited, AllApart, Editable, Edits;
      if AllApart(envelope.profiles) { EditedProfile(urls, envelope, op); }
      var next := Edited(urls, envelope, op);
      if next.None? { return Refused; }
      var selected := if op.Select? then op.id else envelope.selected;
      reply := Commit(envelope.(selected := selected, profiles := Replace(envelope.profiles, op.id, next.value)), works);
    }

    method Remove(id: string, works: bool) returns (reply: Reply)
      modifies this
      ensures Both() == Settled(urls, old(Both()), Op.Remove(id), works)
      ensures reply == Answered(urls, old(envelope), Op.Remove(id), works)
      ensures AllApart(old(envelope).profiles) ==> (reply != Refused <==> id != "local" && Has(old(envelope).profiles, id))
      ensures AllApart(old(envelope).profiles) && reply == Saved ==> envelope == disk && Removes(old(envelope), id, envelope)
      ensures reply != Saved ==> Both() == old(Both())
    {
      hide AllApart, Has, Removes;
      if AllApart(envelope.profiles) { RemovedProfile(urls, envelope, id); }
      if id == LOCAL_ID || Find(envelope.profiles, id).None? { return Refused; }
      var selected := if envelope.selected == id then LOCAL_ID else envelope.selected;
      reply := Commit(envelope.(selected := selected, profiles := Without(envelope.profiles, id)), works);
    }
  }
}
