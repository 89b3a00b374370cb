/**
 One reconcile's calls to the API server, run without interference: the get-mutate-write of
 `CreateOrUpdate` and the finalizer's deletions. Interference is the subject of `Ownership`.
 Any call may fail; a failed call changes nothing.
 */
module ApiServers {
  import opened Wrappers
  import opened Flat
  import opened Secrets
  import opened SecretObjects
  import opened Targets

  /** A stored Secret with its resource version. */
  datatype Stored = Stored(rv: nat, obj: SecretValue)

  datatype ApiError = NotFound | Conflict | Unavailable

  /** What a closure wants to write; a manifest is still an object in memory. */
  datatype Payload =
    | Mapping(data: DataMap, revision: string, typ: string)
    | InlineMapping(data: DataMap, typ: string)
    | FromManifest(parsed: SecretObject, revision: string)
    | InlineFromManifest(parsed: SecretObject, typ: string)

  datatype ApplyResult = Applied | RefusedBy(why: Refusal) | Failed(error: ApiError)

  function ValueOf(s: map<SKey, Stored>, sk: SKey): Option<SecretValue> {
    if sk in s then Some(s[sk].obj) else None
  }

  class ApiServer {
    var secrets: map<SKey, Stored>
    var clock: nat

    method Get(sk: SKey) returns (r: Result<SecretObject, ApiError>)
      ensures r.Ok? ==> fresh(r.value) && r.value.namespace == sk.ns && r.value.name == sk.name
      ensures r.Ok? ==> sk in secrets && r.value.Value() == secrets[sk].obj
      ensures r.Ok? ==> r.value.resourceVersion == Some(secrets[sk].rv)
      ensures r == Err(NotFound) ==> sk !in secrets
    {
      var up: bool := *;
      if !up {
        return Err(Unavailable);
      }
      if sk !in secrets {
        return Err(NotFound);
      }
      var o := new SecretObject(sk.ns, sk.name);
      o.resourceVersion := Some(secrets[sk].rv);
      o.labels := Made(secrets[sk].obj.labels);
      o.annotations := Made(secrets[sk].obj.annotations);
      o.typ := secrets[sk].obj.typ;
      o.data := Made(secrets[sk].obj.data);
      return Ok(o);
    }

    /** Create without a resource version, update under optimistic concurrency. */
    method Write(o: SecretObject) returns (r: Option<ApiError>)
      modifies this
      ensures r.Some? ==> unchanged(this)
      ensures r.None? ==> secrets == old(secrets)[SKey(o.namespace, o.name) := Stored(old(clock), o.Value())]
      ensures r.None? ==> (SKey(o.namespace, o.name) in old(secrets) <==> o.resourceVersion.Some?)
      ensures r.None? && o.resourceVersion.Some? ==>
        old(secrets)[SKey(o.namespace, o.name)].rv == o.resourceVersion.value
    {
      var up: bool := *;
      if !up {
        return Some(Unavailable);
      }
      var sk := SKey(o.namespace, o.name);
      if o.resourceVersion.None? {
        if sk in secrets { return Some(Conflict); }
      } else if sk !in secrets {
        return Some(NotFound);
      } else if secrets[sk].rv != o.resourceVersion.value {
        return Some(Conflict);
      }
      secrets := secrets[sk := Stored(clock, o.Value())];
      clock := clock + 1;
      return None;
    }

    method Delete(sk: SKey) returns (r: Option<ApiError>)
      modifies this`secrets
      ensures r.None? ==> secrets == old(secrets) - {sk}
      ensures r.Some? ==> secrets == old(secrets)
      ensures r == Some(NotFound) ==> sk !in secrets
    {
      var up: bool := *;
      if !up {
        return Some(Unavailable);
      }
      if sk !in secrets {
        return Some(NotFound);
      }
      secrets := secrets - {sk};
      return None;
    }

    /** `List` in a namespace with the managed-by label, in some order. */
    method ListManaged(ns: string) returns (r: Result<seq<SKey>, ApiError>)
      ensures r.Ok? ==> forall sk :: sk in r.value <==> sk in secrets && sk.ns == ns && Managed(secrets[sk].obj)
    {
      var up: bool := *;
      if !up {
        return Err(Unavailable);
      }
      var found: seq<SKey> := [];
      var pending := secrets.Keys;
      while pending != {}
        invariant pending <= secrets.Keys
        invariant forall sk :: sk in found <==>
          sk in secrets && sk !in pending && sk.ns == ns && Managed(secrets[sk].obj)
        decreases |pending|
      {
        var sk :| sk in pending;
        if sk.ns == ns && Managed(secrets[sk].obj) {
          found := found + [sk];
        }
        pending := pending - {sk};
      }
      return Ok(found);
    }

    /**
     `CreateOrUpdate` with the closure of the resource's kind. On success the Secret is the
     planned one and nothing else changed; a plan that keeps the Secret writes nothing, so
     not even its resource version moves. A refusal or an API error changes nothing.
     */
    method CreateOrUpdate(sk: SKey, adopt: bool, owner: string, uid: string, payload: Payload, hash: string)
      returns (r: ApplyResult)
      modifies this
      ensures var want := Wanted(payload, hash);
        var plan := PlanApply(ValueOf(old(secrets), sk), adopt, owner, uid, want);
        match r
        case Applied =>
          !plan.Refuse? && ValueOf(secrets, sk) == Outcome(ValueOf(old(secrets), sk), plan)
          && secrets - {sk} == old(secrets) - {sk} && (plan.Keep? ==> unchanged(this))
        case RefusedBy(why) => plan == Refuse(why) && unchanged(this)
        case Failed(_) => unchanged(this)
    {
      var got := Get(sk);
      var o: SecretObject;
      if got == Err(NotFound) {
        o := new SecretObject(sk.ns, sk.name);
      } else if got.Err? {
        return Failed(got.error);
      } else {
        o := got.value;
      }
      assert o.resourceVersion.None? <==> sk !in secrets;
      ghost var before := o.Value();
      var stored := if sk in secrets then Some(secrets[sk]) else None;
      var refusal := Mutate(o, adopt, owner, uid, payload, hash);
      if refusal.Some? {
        return RefusedBy(refusal.value);
      }
      if stored.Some? && stored.value.obj == o.Value() {
        return Applied;
      }
      var failure := Write(o);
      if failure.Some? {
        return Failed(failure.value);
      }
      return Applied;
    }

    /** `deleteOwnedSecret` and `deleteIfOwned`: delete by name if label and owner match. */
    method DeleteIfOwned(sk: SKey, k: CRKey) returns (ok: bool)
      modifies this`secrets
      ensures ok && sk in old(secrets) && OwnedBy(old(secrets)[sk].obj, k) ==> secrets == old(secrets) - {sk}
      ensures !(sk in old(secrets) && OwnedBy(old(secrets)[sk].obj, k)) ==> secrets == old(secrets)
      ensures secrets == old(secrets) || secrets == old(secrets) - {sk}
    {
      var got := Get(sk);
      if got.Err? {
        return got.error == NotFound;
      }
      if !Managed(got.value.Value()) || Lookup(got.value.Value().annotations, OWNER_ANNOTATION) != OwnerKey(k) {
        return true;
      }
      var failure := Delete(sk);
      ok := failure.None? || failure == Some(NotFound);
    }

    /**
     The scan of `deleteOwnedSecretIfKnown`: on success every managed Secret of the
     namespace that names this resource as owner is gone, and nothing else is touched, also
     when the scan stops half-way.
     */
    method DeleteOwnedByScan(ns: string, k: CRKey) returns (ok: bool)
      modifies this`secrets
      ensures forall sk :: sk in secrets ==> sk in old(secrets) && secrets[sk] == old(secrets)[sk]
      ensures forall sk :: sk in old(secrets) && sk !in secrets ==> sk.ns == ns && OwnedBy(old(secrets)[sk].obj, k)
      ensures ok ==> forall sk :: sk in secrets && sk.ns == ns ==> !OwnedBy(secrets[sk].obj, k)
    {
      var listed := ListManaged(ns);
      if listed.Err? {
        return false;
      }
      var snapshot := secrets;
      var i := 0;
      while i < |listed.value|
        invariant 0 <= i <= |listed.value|
        invariant forall sk :: sk in secrets ==> sk in old(secrets) && secrets[sk] == old(secrets)[sk]
        invariant forall sk :: sk in old(secrets) && sk !in secrets ==> sk.ns == ns && OwnedBy(old(secrets)[sk].obj, k)
        invariant forall sk :: sk in secrets && sk.ns == ns && OwnedBy(secrets[sk].obj, k) ==> sk in listed.value[i..]
      {
        var sk := listed.value[i];
        assert sk in listed.value;
        if Lookup(snapshot[sk].obj.annotations, OWNER_ANNOTATION) == OwnerKey(k) {
          var failure := Delete(sk);
          if failure.Some? && failure != Some(NotFound) {
            return false;
          }
        }
        i := i + 1;
      }
      return true;
    }

    /** The finalizer's clean-up: by name where the name is known, by scan otherwise. */
    method Release(k: CRKey, t: Target) returns (ok: bool)
      modifies this`secrets
      ensures forall sk :: sk in secrets ==> sk in old(secrets) && secrets[sk] == old(secrets)[sk]
      ensures forall sk :: sk in old(secrets) && sk !in secrets ==>
        InReach(k, t, sk) && OwnedBy(old(secrets)[sk].obj, k)
      ensures ok ==> forall sk :: sk in secrets && InReach(k, t, sk) ==> !OwnedBy(secrets[sk].obj, k)
    {
      var known := KnownName(k, t);
      if known.Some? {
        ok := DeleteIfOwned(SKey(EffectiveNamespace(k, t), known.value), k);
      } else {
        ok := DeleteOwnedByScan(EffectiveNamespace(k, t), k);
      }
    }
  }

  function Wanted(payload: Payload, hash: string): Desired
    reads match payload
      case FromManifest(p, _) => {p}
      case InlineFromManifest(p, _) => {p}
      case _ => {}
  {
    match payload
    case Mapping(data, revision, typ) => MappingSecret(data, hash, revision, typ)
    case InlineMapping(data, typ) => InlineMappingSecret(data, hash, typ)
    case FromManifest(p, revision) => ManifestSecret(p.Parsed(), hash, revision)
    case InlineFromManifest(p, typ) => InlineManifestSecret(p.Parsed(), hash, typ)
  }

  method Mutate(o: SecretObject, adopt: bool, owner: string, uid: string, payload: Payload, hash: string)
    returns (r: Option<Refusal>)
    requires payload.FromManifest? || payload.InlineFromManifest? ==> payload.parsed != o
    modifies o
    ensures r == old(o.Refused(adopt, owner))
    ensures r.None? ==> o.Value() == Stamped(old(o.Value()), owner, uid, old(Wanted(payload, hash)))
    ensures o.namespace == old(o.namespace) && o.name == old(o.name) && o.resourceVersion == old(o.resourceVersion)
  {
    match payload
    case Mapping(data, revision, typ) => r := o.MutateMapping(adopt, owner, uid, data, hash, revision, typ);
    case InlineMapping(data, typ) => r := o.MutateInlineMapping(adopt, owner, uid, data, hash, typ);
    case FromManifest(p, revision) => r := o.MutateManifest(adopt, owner, uid, p, hash, revision);
    case InlineFromManifest(p, typ) => r := o.MutateInlineManifest(adopt, owner, uid, p, hash, typ);
  }
}
