/**
 Enrolling this Desktop at a remote instance and recording it (apps/desktop/src/remote-profile-enrollment.ts). Every
 call to the server, the vault or the profile store may throw, unless the client is `faultless`; the compensating removal
 and revocation are taken to succeed, and nothing else changes the vault or the profiles meanwhile. What the server says
 when inspected, what it will answer, and the random reference for a stored credential are parameters.
 */
module Enrollment {
  import opened Wrappers
  import opened InstanceProfiles

  datatype Credential = Credential(deviceId: string, secret: string)

  /** What the server answered to the enrollment request. */
  datatype Paired = Paired(
    origin: string,
    instanceId: string,
    transport: Transport,
    deviceId: Option<string>,
    secret: Option<string>,
    spki: Option<string>)
  {
    /** The server returned a device with its secret, or no device at all. */
    predicate Complete() {
      deviceId.Some? <==> secret.Some?
    }

    function Stored(): (r: Option<Credential>)
      ensures r.Some? ==> deviceId == Some(r.value.deviceId) && secret == Some(r.value.secret)
      ensures r.None? ==> deviceId.None? || secret.None?
    {
      if deviceId.Some? && secret.Some? then Some(Credential(deviceId.value, secret.value)) else None
    }

    function Device(): (r: set<string>)
      ensures forall d :: d in r <==> deviceId == Some(d)
    {
      if deviceId.Some? then {deviceId.value} else {}
    }
  }

  /**
   How an operation ended. `Compensated` is a throw from within the part whose effects are taken back, `Thrown` one
   from before it; both carry the enrollment that had happened by then, if any.
   */
  datatype Ending =
    | Succeeded(paired: Paired, reference: Option<string>)
    | Renamed
    | Thrown(enrolled: Option<Paired>)
    | Compensated(taken: Paired)

  /** What the profile store is asked to do with an enrollment, by the three operations. */
  datatype Want =
    | Adding(displayName: string, uuid: string, now: int)
    | Securing(id: string)
    | Connecting(id: string, displayName: string, uuid: string)

  function Pairing(displayName: string, paired: Paired, reference: Option<string>): Connection {
    Connection(displayName, paired.origin, paired.instanceId, Some(paired.transport), paired.spki, reference)
  }

  function Asked(want: Want, paired: Paired, reference: Option<string>): Op {
    match want
    case Adding(displayName, uuid, now) => Op.AddRemote(Pairing(displayName, paired, reference), uuid, now)
    case Securing(id) => Op.UpdateRemoteSecurity(id, paired.spki, reference)
    case Connecting(id, displayName, uuid) => Op.UpdateRemoteConnection(id, Pairing(displayName, paired, reference), uuid)
  }

  /** The connection a profile has, under another name. */
  function Current(displayName: string, p: Profile): Connection
    requires p.instanceId.Some?
  {
    Connection(displayName, p.origin, p.instanceId.value, p.transport, p.pin, p.credentialRef)
  }

  /** What the server says about itself before anything is enrolled. */
  datatype Inspection = Inspection(origin: string, instanceId: string)

  predicate Unlisted(e: Envelope, i: Inspection, excluding: Option<string>) {
    Available(e, i.origin, Some(i.instanceId), excluding)
  }

  predicate IsRemote(found: Option<Profile>) {
    found.Some? && found.value.kind == Remote && found.value.instanceId.Some?
  }

  /** A remote profile whose server takes enrollments and still is the one it was. */
  predicate Unchanged(found: Option<Profile>, i: Inspection) {
    && IsRemote(found) && found.value.transport != Some(LoopbackHttp)
    && i.origin == found.value.origin && Some(i.instanceId) == found.value.instanceId
  }

  /** The answer lacks the device, or the pin that the transport needs. */
  predicate Lacks(transport: Option<Transport>, answer: Paired) {
    answer.Stored().None? || (transport == Some(AutoTlsPinned) && answer.spki.None?)
  }

  /** The edit only renames. */
  predicate Renames(e: Envelope, id: string, address: string, keyProvided: bool) {
    var found := Find(e.profiles, id);
    IsRemote(found) && Available(e, address, None, Some(id)) && address == found.value.origin && !keyProvided
  }

  /** The edit gets as far as enrolling. */
  predicate Reaches(e: Envelope, id: string, address: string, keyProvided: bool, i: Inspection) {
    var found := Find(e.profiles, id);
    && IsRemote(found) && Available(e, address, None, Some(id))
    && (address == found.value.origin ==>
          keyProvided && found.value.transport != Some(LoopbackHttp) && i.origin == found.value.origin)
    && Some(i.instanceId) == found.value.instanceId && Unlisted(e, i, Some(id))
  }

  /** What was paired is listed elsewhere, or lacks the credential or the pin its own transport needs. */
  predicate Unfit(e: Envelope, id: string, answer: Paired) {
    || !Available(e, answer.origin, Some(answer.instanceId), Some(id))
    || (answer.transport != LoopbackHttp && Lacks(Some(answer.transport), answer))
  }

  /** The vault with the answer's credential under a new reference. */
  function Filled(vault: map<string, Credential>, paired: Paired, reference: Option<string>): map<string, Credential> {
    if reference.Some? && paired.Stored().Some? then vault[reference.value := paired.Stored().value] else vault
  }

  /** The profile store refuses what the operation asks, whatever the reference. */
  predicate Refuses(u: Urls, e: Envelope, want: Want, paired: Paired) {
    Applied(u, e, Asked(want, paired, None)).None? || (want.Adding? && !Available(e, paired.origin, Some(paired.instanceId), None))
  }

  lemma ReferenceDoesNotMatter(u: Urls, e: Envelope, want: Want, paired: Paired, reference: Option<string>)
    ensures Applied(u, e, Asked(want, paired, reference)).None? <==> Applied(u, e, Asked(want, paired, None)).None?
  {
    hide Available, Find, LOCAL_ID, PARTITION_PREFIX, NameOr, Replace;
  }

  /** The credential a profile had is gone, if it has another now. */
  predicate Discarded(was: Profile, reference: Option<string>, vault: map<string, Credential>) {
    was.credentialRef.Some? && was.credentialRef != reference ==> was.credentialRef.value !in vault
  }

  /** The reference a profile had, if the new one replaces it. */
  function OldReference(p: Profile, reference: Option<string>): set<string> {
    if p.credentialRef.Some? && p.credentialRef != reference then {p.credentialRef.value} else {}
  }

  lemma {:induction false} FindReplaced(profiles: seq<Profile>, id: string, next: Profile)
    requires Find(profiles, id).Some? && next.id == id
    ensures Find(Replace(profiles, id, next), id) == Some(next)
  {
    if profiles[0].id != id {
      FindReplaced(profiles[1..], id, next);
      assert Replace(profiles, id, next)[1..] == Replace(profiles[1..], id, next);
    }
  }

  /** A profile that was enrolled again keeps everything but its pin and its credential. */
  lemma SecuredProfile(u: Urls, e: Envelope, id: string, pin: Option<string>, reference: Option<string>, e': Envelope)
    requires Applied(u, e, Op.UpdateRemoteSecurity(id, pin, reference)) == Some(e')
    ensures Find(e.profiles, id).Some?
    ensures Find(e'.profiles, id) == Some(Find(e.profiles, id).value.(pin := pin, credentialRef := reference))
    ensures OnlyThisOne(e, id, e')
  {
    hide Applied, Edited, Replace, Find;
    var op := Op.UpdateRemoteSecurity(id, pin, reference);
    EditReplaces(u, e, op, e');
    SecuredEdit(u, e, op);
    FindReplaced(e.profiles, id, Find(e.profiles, id).value.(pin := pin, credentialRef := reference));
  }

  lemma EditReplaces(u: Urls, e: Envelope, op: Op, e': Envelope)
    requires IsEdit(op) && Applied(u, e, op) == Some(e')
    ensures Edited(u, e, op).Some? && e'.profiles == Replace(e.profiles, op.id, Edited(u, e, op).value)
    ensures !op.Select? ==> e'.selected == e.selected && e'.connectionNotices == e.connectionNotices
  {
    hide LOCAL_ID, Edited, Find, Replace, Available, NewRemote, TransportOr;
  }

  lemma SecuredEdit(u: Urls, e: Envelope, op: Op)
    requires op.UpdateRemoteSecurity? && Edited(u, e, op).Some?
    ensures Find(e.profiles, op.id).Some? && Find(e.profiles, op.id).value.id == op.id
    ensures Edited(u, e, op).value == Find(e.profiles, op.id).value.(pin := op.pin, credentialRef := op.credentialRef)
  {
    hide Available, NameOr, TransportOr, PARTITION_PREFIX;
  }

  /** What the profile store is to remember of an enrollment. */
  function Remembered(displayName: string, answer: Paired, reference: Option<string>): Connection {
    Connection(displayName, answer.origin, answer.instanceId, Some(answer.transport), answer.spki, reference)
  }

  /** A profile connected anew has what it was connected with, and is otherwise as it was. */
  lemma ConnectedProfile(u: Urls, e: Envelope, id: string, c: Connection, uuid: string, e': Envelope)
    requires Applied(u, e, Op.UpdateRemoteConnection(id, c, uuid)) == Some(e')
    ensures Find(e.profiles, id).Some? && Find(e'.profiles, id).Some?
    ensures EditMakes(u, Op.UpdateRemoteConnection(id, c, uuid), Find(e.profiles, id).value, Find(e'.profiles, id).value)
    ensures OnlyThisOne(e, id, e')
  {
    hide LOCAL_ID, Available, Edited, Replace, EditMakes, MayEdit;
    var op := Op.UpdateRemoteConnection(id, c, uuid);
    EditReplaces(u, e, op, e');
    if Find(e.profiles, id).None? { EditedNone(u, e, op); }
    EditedOne(u, e, op, Find(e.profiles, id).value);
    EditKeepsId(u, op, Find(e.profiles, id).value, Edited(u, e, op).value);
    FindReplaced(e.profiles, id, Edited(u, e, op).value);
  }

  /** Another name, and nothing else but the transport that goes with the address. */
  predicate RenamedTo(u: Urls, was: Profile, displayName: string, p: Profile) {
    && Named(u, p, displayName) && p.transport == Some(u.transportFor(was.origin))
    && p.(displayName := was.displayName, transport := was.transport) == was
  }

  lemma OnlyRenamed(u: Urls, was: Profile, c: Connection, id: string, uuid: string, p: Profile)
    requires was.instanceId.Some? && was.kind == Remote && c == Connection(c.displayName, was.origin, was.instanceId.value, was.transport, was.pin, was.credentialRef)
    requires EditMakes(u, Op.UpdateRemoteConnection(id, c, uuid), was, p)
    ensures RenamedTo(u, was, c.displayName, p) && p.credentialRef == was.credentialRef
  {
  }

  lemma ConnectedReference(u: Urls, id: string, c: Connection, uuid: string, was: Profile, p: Profile)
    requires EditMakes(u, Op.UpdateRemoteConnection(id, c, uuid), was, p)
    ensures p.credentialRef == c.credentialRef
  {
  }

  lemma EditKeepsId(u: Urls, op: Op, was: Profile, p: Profile)
    requires EditMakes(u, op, was, p)
    ensures p.id == was.id
  {
  }

  /** No profile but those with this id is touched. */
  predicate OnlyThisOne(e: Envelope, id: string, e': Envelope) {
    && e'.selected == e.selected && e'.connectionNotices == e.connectionNotices && |e'.profiles| == |e.profiles|
    && forall i :: 0 <= i < |e.profiles| && e.profiles[i].id != id ==> e'.profiles[i] == e.profiles[i]
  }

  /** The store refuses to add exactly what is listed or does not fit, and to connect exactly what may not be edited so. */
  lemma RefusedExactly(u: Urls, e: Envelope, displayName: string, uuid: string, now: int, id: string, answer: Paired)
    ensures Refuses(u, e, Adding(displayName, uuid, now), answer) <==>
            !Free(e.profiles, Remembered(displayName, answer, None), None) || answer.transport != u.transportFor(answer.origin)
    ensures Find(e.profiles, id).Some? ==>
            (Refuses(u, e, Connecting(id, displayName, uuid), answer) <==>
               !MayEdit(u, e.profiles, Op.UpdateRemoteConnection(id, Remembered(displayName, answer, None), uuid), Find(e.profiles, id).value))
    ensures Find(e.profiles, id).Some? ==> (Refuses(u, e, Securing(id), answer) <==> Find(e.profiles, id).value.kind != Remote)
  {
    hide Available, Edited, NewRemote, Replace, Find, Free, MayEdit;
    var c := Remembered(displayName, answer, None);
    AddedProfile(u, e, c, uuid, now);
    AvailableIsFree(e, c, None);
    assert Pairing(displayName, answer, None) == c;
    if Find(e.profiles, id).Some? {
      EditedOne(u, e, Op.UpdateRemoteConnection(id, c, uuid), Find(e.profiles, id).value);
      EditedOne(u, e, Op.UpdateRemoteSecurity(id, answer.spki, None), Find(e.profiles, id).value);
      RemoteMayBeSecured(u, e.profiles, Op.UpdateRemoteSecurity(id, answer.spki, None), Find(e.profiles, id).value);
    }
  }

  lemma RemoteMayBeSecured(u: Urls, profiles: seq<Profile>, op: Op, was: Profile)
    requires op.UpdateRemoteSecurity?
    ensures MayEdit(u, profiles, op, was) <==> was.kind == Remote
  {
  }

  class Client {
    const urls: Urls
    /** Credentials can be encrypted here; where they cannot, none is stored. */
    const encrypts: bool
    /** No call throws of itself; otherwise any may. */
    const faultless: bool
    var envelope: Envelope
    var vault: map<string, Credential>
    /** Devices the server has registered for this Desktop. */
    var devices: set<string>

    constructor (urls: Urls, encrypts: bool, faultless: bool, envelope: Envelope, vault: map<string, Credential>, devices: set<string>)
      ensures this.urls == urls && this.encrypts == encrypts && this.faultless == faultless
      ensures this.envelope == envelope && this.vault == vault && this.devices == devices
    {
      this.encrypts, this.faultless := encrypts, faultless;
      this.urls, this.envelope, this.vault, this.devices := urls, envelope, vault, devices;
    }

    /** Any step that may throw and changes nothing. */
    method Check() returns (ok: bool)
      ensures faultless ==> ok
    {
      ok := *;
      ok := ok || faultless;
    }

    /** The server answers, with a device it had not registered if any, or the call throws. */
    method Enroll(answer: Paired) returns (paired: Option<Paired>)
      requires answer.Device() !! devices
      modifies this`devices
      ensures paired == None || paired == Some(answer)
      ensures devices == old(devices) + if paired.Some? then answer.Device() else {}
      ensures faultless ==> paired.Some?
    {
      var ok := Check();
      if !ok { return None; }
      devices := devices + answer.Device();
      return Some(answer);
    }

    /** Stores a credential under a new random reference, stores nothing when it cannot be encrypted, or throws. */
    method Put(credential: Credential, vaultId: string) returns (ok: bool, reference: Option<string>)
      requires vaultId !in vault
      modifies this`vault
      ensures ok ==> reference == if encrypts then Some(vaultId) else None
      ensures vault == if ok && encrypts then old(vault)[vaultId := credential] else old(vault)
      ensures faultless ==> ok
    {
      reference := None;
      if !encrypts { return true, None; }
      ok := Check();
      if ok {
        reference := Some(vaultId);
        vault := vault[vaultId := credential];
      }
    }

    /** The profile store's operation: refused, or saved, or rolled back when the save fails. */
    method Apply(op: Op) returns (ok: bool)
      modifies this`envelope
      ensures ok ==> Applied(urls, old(envelope), op) == Some(envelope)
      ensures !ok ==> envelope == old(envelope)
      ensures faultless ==> (ok <==> Applied(urls, old(envelope), op).Some?)
    {
      var next := Applied(urls, envelope, op);
      ok := Check();
      if ok && next.Some? {
        envelope := next.value;
        return true;
      }
      return false;
    }

    method CompensateEnrollment(paired: Paired, reference: Option<string>)
      modifies this`vault, this`devices
      ensures vault == if reference.Some? then old(vault) - {reference.value} else old(vault)
      ensures devices == if paired.Complete() then old(devices) - paired.Device() else old(devices)
      // Revoked only when both halves of the answer were there.
      ensures forall d :: d in devices <==> d in old(devices) && !(paired.deviceId == Some(d) && paired.secret.Some?)
      ensures forall r :: r in vault <==> r in old(vault) && reference != Some(r)
    {
      if reference.Some? { vault := vault - {reference.value}; }
      if paired.deviceId.Some? && paired.secret.Some? { devices := devices - {paired.deviceId.value}; }
    }

    /** Nothing of the operation is left, except a device the server registered without giving its secret. */
    twostate predicate TakenBack(paired: Paired)
      reads this
    {
      && vault == old(vault) && envelope == old(envelope)
      && devices == old(devices) + if paired.Complete() then {} else paired.Device()
    }

    /** Nothing changed but for what the server registered. */
    twostate predicate OnlyEnrolled(paired: Option<Paired>)
      reads this
    {
      && vault == old(vault) && envelope == old(envelope)
      && devices == old(devices) + if paired.Some? then paired.value.Device() else {}
    }

    /** The device is registered, its credential is stored under a new reference, and only `dropped` is gone. */
    twostate predicate Kept(paired: Paired, reference: Option<string>, dropped: set<string>)
      reads this
    {
      && devices == old(devices) + paired.Device()
      && (reference.Some? <==> encrypts && paired.Stored().Some?)
      && (reference.Some? ==> reference.value !in old(vault))
      && vault == Filled(old(vault), paired, reference) - dropped
    }

    /** What the three operations do from the enrollment on: keep everything, or take everything back. */
    method KeepOrTakeBack(paired: Paired, want: Want, vaultId: string) returns (ok: bool, reference: Option<string>)
      requires vaultId !in vault
      modifies this
      ensures faultless ==> (ok <==> !Refuses(urls, old(envelope), want, paired))
      ensures ok ==>
        && devices == old(devices)
        && reference == (if encrypts && paired.Stored().Some? then Some(vaultId) else None)
        && vault == Filled(old(vault), paired, reference)
        && (reference.Some? ==> vaultId in vault && Some(vault[vaultId].deviceId) == paired.deviceId && Some(vault[vaultId].secret) == paired.secret)
        && Applied(urls, old(envelope), Asked(want, paired, reference)) == Some(envelope)
      ensures !ok ==>
        && vault == old(vault) && envelope == old(envelope)
        && devices == if paired.Complete() then old(devices) - paired.Device() else old(devices)
    {
      hide Applied, Asked, Available;
      reference := None;
      ok := Check();
      if want.Adding? {
        ok := ok && Available(envelope, paired.origin, Some(paired.instanceId), None);
      }
      if ok && paired.Stored().Some? {
        ok, reference := Put(paired.Stored().value, vaultId);
        if !ok { reference := None; }
      }
      if ok { ok := Check(); }
      if ok {
        ReferenceDoesNotMatter(urls, envelope, want, paired, reference);
        ok := Apply(Asked(want, paired, reference));
      }
      if !ok {
        CompensateEnrollment(paired, reference);
        assert vault == old(vault);
      }
    }

    /**
     When no call fails of itself: thrown exactly when the address or what was inspected there is already listed, taken
     back exactly when the store refuses what was enrolled.
     */
    method AddRemoteProfile(displayName: string, address: string, inspection: Inspection, uuid: string, now: int,
                            answer: Paired, vaultId: string)
      returns (end: Ending)
      requires vaultId !in vault && answer.Device() !! devices
      modifies this
      ensures !end.Renamed?
      ensures faultless ==> (end.Thrown? <==> !(Available(old(envelope), address, None, None) && Unlisted(old(envelope), inspection, None)))
      ensures faultless && !end.Thrown? ==> (end.Compensated? <==> Refuses(urls, old(envelope), Adding(displayName, uuid, now), answer))
      ensures end.Thrown? ==> end.enrolled.None? && OnlyEnrolled(None)
      ensures end.Compensated? ==> end.taken == answer && TakenBack(answer)
      ensures end.Succeeded? ==>
        && end.paired == answer && Kept(answer, end.reference, {})
        && Unlisted(old(envelope), inspection, None)
        && Applied(urls, old(envelope), Op.AddRemote(Pairing(displayName, answer, end.reference), uuid, now)) == Some(envelope)
        // The new profile is last and selected, with the address, pin and credential of the enrollment.
        && Adds(urls, old(envelope), Connection(displayName, answer.origin, answer.instanceId, Some(answer.transport), answer.spki, end.reference),
                uuid, now, envelope)
        && end.reference == (if encrypts && answer.deviceId.Some? && answer.secret.Some? then Some(vaultId) else None)
      ensures faultless && !end.Thrown? ==>
        (end.Compensated? <==> !Free(old(envelope).profiles, Remembered(displayName, answer, None), None)
                               || answer.transport != urls.transportFor(answer.origin))
    {
      hide Applied, Available, Refuses, Adds, Free;
      RefusedExactly(urls, envelope, displayName, uuid, now, "", answer);
      if !Available(envelope, address, None, None) { return Thrown(None); }
      var ok := Check();
      if !ok || !Unlisted(envelope, inspection, None) { return Thrown(None); }
      ok := Check();
      if !ok { return Thrown(None); }
      var enrolled := Enroll(answer);
      if enrolled.None? { return Thrown(None); }
      var reference;
      ok, reference := KeepOrTakeBack(answer, Adding(displayName, uuid, now), vaultId);
      if ok { AddedProfile(urls, old(envelope), Remembered(displayName, answer, reference), uuid, now); }
      return if ok then Succeeded(answer, reference) else Compensated(answer);
    }

    /**
     When no call fails of itself: thrown before the enrollment exactly when there is no such profile to enroll again or
     the server is no longer the same; thrown after it, and left standing, exactly when the answer lacks the device or the
     pin; taken back exactly when the store refuses.
     */
    method ReauthenticateRemoteProfile(id: string, inspection: Inspection, answer: Paired, vaultId: string) returns (end: Ending)
      requires vaultId !in vault && answer.Device() !! devices
      modifies this
      ensures !end.Renamed?
      ensures faultless ==> (end.Thrown? && end.enrolled.None? <==> !Unchanged(Find(old(envelope).profiles, id), inspection))
      ensures faultless ==>
        (end.Thrown? && end.enrolled.Some? <==>
           Unchanged(Find(old(envelope).profiles, id), inspection) && Lacks(Find(old(envelope).profiles, id).value.transport, answer))
      ensures faultless && !end.Thrown? ==> (end.Compensated? <==> Refuses(urls, old(envelope), Securing(id), answer))
      ensures faultless ==> !end.Compensated?
      ensures end.Thrown? ==> OnlyEnrolled(end.enrolled) && (end.enrolled.Some? ==> end.enrolled.value == answer)
      // A throw after the enrollment is left standing only for that reason, whatever fails.
      ensures (end.Thrown? && end.enrolled.Some?) || end.Succeeded? || end.Compensated? ==> Unchanged(Find(old(envelope).profiles, id), inspection)
      ensures end.Thrown? && end.enrolled.Some? ==> Lacks(Find(old(envelope).profiles, id).value.transport, answer)
      ensures end.Compensated? || end.Succeeded? ==> !Lacks(Find(old(envelope).profiles, id).value.transport, answer)
      ensures end.Compensated? ==> end.taken == answer && answer.Complete() && TakenBack(answer)
      ensures end.Succeeded? ==>
        && end.paired == answer
        && Applied(urls, old(envelope), Op.UpdateRemoteSecurity(id, answer.spki, end.reference)) == Some(envelope)
        && Find(old(envelope).profiles, id).Some?
        && (Find(envelope.profiles, id)
            == Some(Find(old(envelope).profiles, id).value.(pin := answer.spki, credentialRef := end.reference)))
        && OnlyThisOne(old(envelope), id, envelope)
        && end.reference == (if encrypts then Some(vaultId) else None)
        // The credential that was replaced goes, unless that fails of itself.
        && (faultless ==> Discarded(Find(old(envelope).profiles, id).value, end.reference, vault))
        && (Kept(answer, end.reference, {})
            || Kept(answer, end.reference, OldReference(Find(old(envelope).profiles, id).value, end.reference)))
    {
      hide Applied, Find, Refuses, Free, MayEdit;
      RefusedExactly(urls, envelope, "", "", 0, id, answer);
      var found := Find(envelope.profiles, id);
      if found.None? || found.value.kind != Remote || found.value.instanceId.None? { return Thrown(None); }
      var current := found.value;
      if current.transport == Some(LoopbackHttp) { return Thrown(None); }
      var ok := Check();
      if !ok || inspection.origin != current.origin || Some(inspection.instanceId) != current.instanceId { return Thrown(None); }
      ok := Check();
      if !ok { return Thrown(None); }
      var enrolled := Enroll(answer);
      if enrolled.None? { return Thrown(None); }
      if answer.deviceId.None? || answer.secret.None? || (current.transport == Some(AutoTlsPinned) && answer.spki.None?) {
        return Thrown(Some(answer));
      }
      var reference;
      ok, reference := KeepOrTakeBack(answer, Securing(id), vaultId);
      if !ok { return Compensated(answer); }
      SecuredProfile(urls, old(envelope), id, answer.spki, reference, envelope);
      if current.credentialRef.Some? && current.credentialRef != reference {
        // The new profile is durable; a credential left behind does no harm.
        ok := Check();
        if ok { vault := vault - {current.credentialRef.value}; }
      }
      return Succeeded(answer, reference);
    }

    /**
     When no call fails of itself: a rename, when neither address nor key is new; otherwise thrown after the enrollment,
     and left standing, exactly when the enrollment was reached and what was paired is listed elsewhere or lacks the
     credential or the pin its transport needs; taken back exactly when the store refuses.
     */
    method EditRemoteProfileConnection(id: string, displayName: string, address: string, keyProvided: bool, inspection: Inspection,
                                       uuid: string, answer: Paired, vaultId: string)
      returns (end: Ending, replaced: Option<string>)
      requires vaultId !in vault && answer.Device() !! devices
      modifies this
      ensures faultless ==>
        (end.Renamed? <==>
           Renames(old(envelope), id, address, keyProvided)
           && Applied(urls, old(envelope), Op.UpdateRemoteConnection(id, Current(displayName, Find(old(envelope).profiles, id).value), uuid)).Some?)
      ensures faultless ==>
        (end.Thrown? && end.enrolled.Some? <==>
           Reaches(old(envelope), id, address, keyProvided, inspection) && Unfit(old(envelope), id, answer))
      ensures faultless ==>
        (end.Compensated? <==>
           Reaches(old(envelope), id, address, keyProvided, inspection) && !Unfit(old(envelope), id, answer)
           && Refuses(urls, old(envelope), Connecting(id, displayName, uuid), answer))
      ensures faultless ==>
        (end.Succeeded? <==>
           Reaches(old(envelope), id, address, keyProvided, inspection) && !Unfit(old(envelope), id, answer)
           && !Refuses(urls, old(envelope), Connecting(id, displayName, uuid), answer))
      ensures faultless && (end.Compensated? || end.Succeeded?) ==>
        (end.Succeeded? <==> MayEdit(urls, old(envelope).profiles, Op.UpdateRemoteConnection(id, Remembered(displayName, answer, None), uuid),
                                     Find(old(envelope).profiles, id).value))
      ensures end.Thrown? ==> OnlyEnrolled(end.enrolled) && (end.enrolled.Some? ==> end.enrolled.value == answer)
      ensures (end.Thrown? && end.enrolled.Some?) || end.Compensated? || end.Succeeded? ==> Reaches(old(envelope), id, address, keyProvided, inspection)
      ensures end.Compensated? || end.Succeeded? ==> !Unfit(old(envelope), id, answer)
      ensures end.Compensated? ==> end.taken == answer && TakenBack(answer)
      ensures end.Renamed? ==>
        && vault == old(vault) && devices == old(devices)
        && Renames(old(envelope), id, address, keyProvided) && Find(envelope.profiles, id).Some?
        && Applied(urls, old(envelope), Op.UpdateRemoteConnection(id, Current(displayName, Find(old(envelope).profiles, id).value), uuid))
           == Some(envelope)
        && Find(envelope.profiles, id).value.credentialRef == Find(old(envelope).profiles, id).value.credentialRef
        && RenamedTo(urls, Find(old(envelope).profiles, id).value, displayName, Find(envelope.profiles, id).value)
        && OnlyThisOne(old(envelope), id, envelope)
      ensures end.Succeeded? ==>
        && end.paired == answer && Kept(answer, end.reference, {})
        && Applied(urls, old(envelope), Op.UpdateRemoteConnection(id, Pairing(displayName, answer, end.reference), uuid)) == Some(envelope)
        && Find(envelope.profiles, id).Some?
        && EditMakes(urls,
             Op.UpdateRemoteConnection(id, Connection(displayName, answer.origin, answer.instanceId, Some(answer.transport), answer.spki, end.reference), uuid),
             Find(old(envelope).profiles, id).value, Find(envelope.profiles, id).value)
        && OnlyThisOne(old(envelope), id, envelope)
        && end.reference == (if encrypts && answer.deviceId.Some? && answer.secret.Some? then Some(vaultId) else None)
        && replaced == (if Find(old(envelope).profiles, id).value.credentialRef == end.reference then None
                        else Find(old(envelope).profiles, id).value.credentialRef)
      ensures !end.Succeeded? ==> replaced == None
    {
      hide Applied, Available, Find, Refuses, Free, MayEdit, EditMakes, OnlyThisOne, RenamedTo, Filled;
      RefusedExactly(urls, envelope, displayName, uuid, 0, id, answer);
      replaced := None;
      var found := Find(envelope.profiles, id);
      if found.None? || found.value.kind != Remote || found.value.instanceId.None? { return Thrown(None), None; }
      var current := found.value;
      if !Available(envelope, address, None, Some(id)) { return Thrown(None), None; }
      var originChanged := address != current.origin;
      var ok := Check();
      if !originChanged && !keyProvided {
        if !ok { return Thrown(None), None; }
        var c := Current(displayName, current);
        ok := Apply(Op.UpdateRemoteConnection(id, c, uuid));
        if !ok { return Thrown(None), None; }
        ConnectedProfile(urls, old(envelope), id, c, uuid, envelope);
        OnlyRenamed(urls, current, c, id, uuid, Find(envelope.profiles, id).value);
        return Renamed, None;
      }
      if !originChanged && current.transport == Some(LoopbackHttp) { return Thrown(None), None; }
      if !ok { return Thrown(None), None; }
      if originChanged {
        if Some(inspection.instanceId) != current.instanceId { return Thrown(None), None; }
      } else if inspection.origin != current.origin || Some(inspection.instanceId) != current.instanceId {
        return Thrown(None), None;
      }
      if !Unlisted(envelope, inspection, Some(id)) { return Thrown(None), None; }
      ok := Check();
      if !ok { return Thrown(None), None; }
      var enrolled := Enroll(answer);
      if enrolled.None? { return Thrown(None), None; }
      // A throw here is not compensated.
      ok := Check();
      if !ok || !Available(envelope, answer.origin, Some(answer.instanceId), Some(id))
         || (answer.transport != LoopbackHttp
             && (answer.deviceId.None? || answer.secret.None? || (answer.transport == AutoTlsPinned && answer.spki.None?))) {
        return Thrown(Some(answer)), None;
      }
      var reference;
      ok, reference := KeepOrTakeBack(answer, Connecting(id, displayName, uuid), vaultId);
      if !ok { return Compensated(answer), None; }
      ConnectedProfile(urls, old(envelope), id, Pairing(displayName, answer, reference), uuid, envelope);
      ConnectedReference(urls, id, Remembered(displayName, answer, reference), uuid, current, Find(envelope.profiles, id).value);
      replaced := if current.credentialRef == reference then None else current.credentialRef;
      return Succeeded(answer, reference), replaced;
    }
  }
}
