/**
 The reconcile of a consumer resource as one undisturbed call that changes the resource, the
 decrypted manifest and the cluster in place: finalizer first, then mapping or normalisation,
 hash, guard and write. It is proved against the functions that `Ownership` steps through.
 Fetching, key resolution, decryption and parsing are given by their result.
 */
module ConsumerControllers {
  import opened Wrappers
  import opened Flat
  import opened Secrets
  import opened Manifests
  import opened SecretObjects
  import opened Targets
  import opened ApiServers
  import opened Ownership

  /** What the pipeline read: nothing, a flat file, or a manifest that is still an object in memory. */
  datatype Content =
    | NoContent
    | FlatContent(flat: map<string, string>, revision: string)
    | ManifestContent(parsed: SecretObject, revision: string)
  {
    function Objects(): set<SecretObject> {
      if ManifestContent? then {parsed} else {}
    }

    function Input(): Input
      reads Objects()
    {
      match this
      case NoContent => SourceFailed
      case FlatContent(flat, revision) => FlatFile(flat, revision)
      case ManifestContent(o, revision) => ManifestFile(o.Parsed(), revision)
    }
  }

  datatype Ended = FinalizerAdded | Released | Gone | Retry | NothingDerived | Attempted(result: ApplyResult)

  class Consumer {
    const k: CRKey
    const uid: string
    const spec: Spec
    const deleting: bool
    var finalizer: bool

    constructor (k: CRKey, uid: string, spec: Spec, deleting: bool, finalizer: bool)
      ensures this.k == k && this.uid == uid && this.spec == spec && this.deleting == deleting
        && this.finalizer == finalizer
    {
      this.k, this.uid, this.spec, this.deleting, this.finalizer := k, uid, spec, deleting, finalizer;
    }

    /** `ApplyMapping`, hash and write. A missing key writes nothing. */
    method ApplyFlat(api: ApiServer, flat: map<string, string>, revision: string) returns (r: Ended)
      requires EffectiveMode(k, spec.target) == MappingMode
      modifies api
      ensures After(old(api.secrets), api.secrets, Derived(k, spec, FlatFile(flat, revision)), r)
    {
      var mapped := ApplyMapping(flat, spec.mappings);
      var sk := WriteTarget(k, spec.target, "");
      if mapped.Err? {
        return NothingDerived;
      }
      var hash := HashSecretData(mapped.value);
      var payload :=
        if k.kind == InlineSopsSecret then InlineMapping(mapped.value, spec.typ)
        else Mapping(mapped.value, revision, spec.typ);
      var result := api.CreateOrUpdate(sk.value, spec.adopt, OwnerKey(k), uid, payload, hash);
      return Attempted(result);
    }

    /** Normalisation, target, hash and write. A manifest without a name, where none is given, writes nothing. */
    method ApplyManifest(api: ApiServer, parsed: SecretObject, revision: string) returns (r: Ended)
      requires EffectiveMode(k, spec.target) == ManifestMode
      modifies api, parsed
      ensures After(old(api.secrets), api.secrets, Derived(k, spec, ManifestFile(old(parsed.Parsed()), revision)), r)
    {
      parsed.NormalizeSecretData();
      var sk := WriteTarget(k, spec.target, parsed.name);
      if sk.None? {
        return NothingDerived;
      }
      var hash := HashManifestSecret(parsed.Parsed());
      var payload :=
        if k.kind == InlineSopsSecret then InlineFromManifest(parsed, spec.typ) else FromManifest(parsed, revision);
      var result := api.CreateOrUpdate(sk.value, spec.adopt, OwnerKey(k), uid, payload, hash);
      return Attempted(result);
    }

    /** What one pass may do to the cluster, given what it derived: one planned write, or nothing at all. */
    ghost predicate After(
      before: map<SKey, Stored>, after: map<SKey, Stored>, derived: Option<(SKey, Desired)>, r: Ended)
    {
      match derived
      case None => r == NothingDerived && after == before
      case Some((sk, want)) =>
        var plan := PlanApply(ValueOf(before, sk), spec.adopt, OwnerKey(k), uid, want);
        r.Attempted? &&
        match r.result
        case Applied =>
          !plan.Refuse? && ValueOf(after, sk) == Outcome(ValueOf(before, sk), plan) && after - {sk} == before - {sk}
        case RefusedBy(why) => plan == Refuse(why) && after == before
        case Failed(_) => after == before
    }

    /**
     The finalizer is there before the first write and goes after the last delete: nothing is
     written for a resource without it, and it is dropped only once no Secret in reach names
     the resource as its owner. In between, a pass does exactly what its content derives.
     */
    method Reconcile(api: ApiServer, content: Content) returns (r: Ended)
      modifies this, api, content.Objects()
      ensures !deleting && !old(finalizer) ==> api.secrets == old(api.secrets) && (r.FinalizerAdded? <==> finalizer)
      ensures !deleting && old(finalizer) ==>
        finalizer && After(old(api.secrets), api.secrets, Derived(k, spec, old(content.Input())), r)
      ensures deleting && !old(finalizer) ==> r.Gone? && !finalizer && api.secrets == old(api.secrets)
      ensures deleting && old(finalizer) ==>
        && (forall sk :: sk in api.secrets ==> sk in old(api.secrets) && api.secrets[sk] == old(api.secrets)[sk])
        && (forall sk :: sk in old(api.secrets) && sk !in api.secrets ==>
            InReach(k, spec.target, sk) && OwnedBy(old(api.secrets)[sk].obj, k))
        && (r.Released? <==> !finalizer)
        && (!finalizer ==>
            forall sk :: sk in api.secrets && InReach(k, spec.target, sk) ==> !OwnedBy(api.secrets[sk].obj, k))
    {
      if !deleting {
        if !finalizer {
          finalizer := *;
          return if finalizer then FinalizerAdded else Retry;
        }
      } else {
        if !finalizer {
          return Gone;
        }
        var ok := api.Release(k, spec.target);
        if !ok {
          return Retry;
        }
        finalizer := *;
        return if finalizer then Retry else Released;
      }
      match EffectiveMode(k, spec.target)
      case MappingMode =>
        if !content.FlatContent? {
          return NothingDerived;
        }
        r := ApplyFlat(api, content.flat, content.revision);
      case ManifestMode =>
        if !content.ManifestContent? {
          return NothingDerived;
        }
        r := ApplyManifest(api, content.parsed, content.revision);
      case UnknownMode =>
        return NothingDerived;
    }
  }
}
