/**
 A corev1.Secret in memory, changed in place: the normalisation of a decrypted manifest and
 the mutate closures that the three reconcilers hand to `CreateOrUpdate`.
 */
module SecretObjects {
  import opened Wrappers
  import opened Flat
  import opened Secrets
  import opened Manifests

  /** A Go map variable: nil can be read and ranged over, but not written. */
  datatype GoMap = Nil | Made(elements: map<string, string>) {
    function Entries(): map<string, string> {
      if Nil? then map[] else elements
    }

    function Put(k: string, v: string): (r: GoMap)
      requires Made?
      ensures r.Made? && r.Entries() == Entries()[k := v]
    {
      Made(elements[k := v])
    }

    /** `maps.Copy` into this map. */
    function CopyFrom(src: GoMap): (r: GoMap)
      requires Made?
      ensures r.Made? && r.Entries() == Entries() + src.Entries()
    {
      Made(elements + src.Entries())
    }
  }

  lemma OneMore(base: map<string, string>, overrides: map<string, string>, pending: set<string>, k: string)
    requires k in pending && pending <= overrides.Keys
    ensures base + (overrides - (pending - {k})) == (base + (overrides - pending))[k := overrides[k]]
  {
  }

  class SecretObject {
    var namespace: string
    var name: string
    var resourceVersion: Option<nat>
    var labels: GoMap
    var annotations: GoMap
    var typ: string
    var data: GoMap
    var stringData: GoMap

    constructor (namespace: string, name: string)
      ensures this.namespace == namespace && this.name == name && resourceVersion == None
      ensures Value() == BLANK
    {
      this.namespace, this.name, resourceVersion := namespace, name, None;
      labels, annotations, typ, data, stringData := Nil, Nil, "", Nil, Nil;
    }

    function Value(): SecretValue
      reads this
    {
      SecretValue(labels.Entries(), annotations.Entries(), typ, data.Entries())
    }

    function Parsed(): Manifest
      reads this
    {
      Manifest(name, namespace, labels.Entries(), annotations.Entries(), typ, data.Entries(), stringData.Entries())
    }

    /** Merges stringData into data entry by entry; a nil data map is made only when needed. */
    method NormalizeSecretData()
      modifies this`data, this`stringData
      ensures Parsed() == Normalized(old(Parsed()))
      ensures data.Nil? <==> old(data.Nil? && stringData.Entries() == map[])
    {
      if data.Nil? && stringData.Entries() != map[] {
        data := Made(map[]);
      }
      var base := data.Entries();
      var overrides := stringData.Entries();
      var pending := overrides.Keys;
      while pending != {}
        invariant pending <= overrides.Keys
        invariant data.Nil? <==> old(data.Nil? && stringData.Entries() == map[])
        invariant overrides != map[] ==> data.Made?
        invariant data.Entries() == base + (overrides - pending)
        decreases |pending|
      {
        var k :| k in pending;
        OneMore(base, overrides, pending, k);
        data := data.Put(k, overrides[k]);
        pending := pending - {k};
      }
      assert overrides - pending == overrides;
      stringData := Nil;
    }

    /** The adoption check: only a Secret that came from the API server has a resource version. */
    function Refused(adopt: bool, owner: string): Option<Refusal>
      reads this
    {
      if resourceVersion.None? then None else Guard(Value(), adopt, owner)
    }

    method MakeMetadata()
      modifies this`labels, this`annotations
      ensures labels.Made? && annotations.Made?
      ensures Value() == old(Value())
    {
      if labels.Nil? {
        labels := Made(map[]);
      }
      if annotations.Nil? {
        annotations := Made(map[]);
      }
    }

    method StampOwner(owner: string, uid: string, hash: string)
      requires labels.Made? && annotations.Made?
      modifies this`labels, this`annotations
      ensures labels.Made? && annotations.Made?
      ensures labels.Entries() == old(labels.Entries())[MANAGED_BY_LABEL := MANAGED_BY_VALUE]
      ensures annotations.Entries() ==
        old(annotations.Entries())[OWNER_ANNOTATION := owner][OWNER_UID_ANNOTATION := uid]
          [CONTENT_HASH_ANNOTATION := hash]
    {
      labels := labels.Put(MANAGED_BY_LABEL, MANAGED_BY_VALUE);
      annotations := annotations.Put(OWNER_ANNOTATION, owner);
      annotations := annotations.Put(OWNER_UID_ANNOTATION, uid);
      annotations := annotations.Put(CONTENT_HASH_ANNOTATION, hash);
    }

    /** The closure of `applyTargetSecret`. */
    method MutateMapping(
        adopt: bool, owner: string, uid: string, payload: DataMap, hash: string, revision: string, targetType: string)
      returns (r: Option<Refusal>)
      modifies this
      ensures r == old(Refused(adopt, owner))
      ensures r.Some? ==> unchanged(this)
      ensures r.None? ==>
        Value() == Stamped(old(Value()), owner, uid, MappingSecret(payload, hash, revision, targetType))
      ensures unchanged(`namespace) && unchanged(`name) && unchanged(`resourceVersion)
    {
      r := Refused(adopt, owner);
      if r.Some? {
        return;
      }
      MakeMetadata();
      StampOwner(owner, uid, hash);
      annotations := annotations.Put(SOURCE_COMMIT_ANNOTATION, revision);
      if targetType != "" {
        typ := targetType;
      } else if typ == "" {
        typ := TYPE_OPAQUE;
      }
      data := Made(payload);
    }

    /** The closure of `applyInlineMappingSecret`: there is no source commit to stamp. */
    method MutateInlineMapping(
        adopt: bool, owner: string, uid: string, payload: DataMap, hash: string, targetType: string)
      returns (r: Option<Refusal>)
      modifies this
      ensures r == old(Refused(adopt, owner))
      ensures r.Some? ==> unchanged(this)
      ensures r.None? ==> Value() == Stamped(old(Value()), owner, uid, InlineMappingSecret(payload, hash, targetType))
      ensures unchanged(`namespace) && unchanged(`name) && unchanged(`resourceVersion)
    {
      r := Refused(adopt, owner);
      if r.Some? {
        return;
      }
      MakeMetadata();
      StampOwner(owner, uid, hash);
      if targetType != "" {
        typ := targetType;
      } else if typ == "" {
        typ := TYPE_OPAQUE;
      }
      data := Made(payload);
    }

    /** The closure of `applyManifestSecret`. */
    method MutateManifest(
        adopt: bool, owner: string, uid: string, parsed: SecretObject, hash: string, revision: string)
      returns (r: Option<Refusal>)
      requires parsed != this
      modifies this
      ensures r == old(Refused(adopt, owner))
      ensures r.Some? ==> unchanged(this)
      ensures r.None? ==> Value() == Stamped(old(Value()), owner, uid, ManifestSecret(parsed.Parsed(), hash, revision))
      ensures r.None? ==> stringData == Nil
      ensures unchanged(`namespace) && unchanged(`name) && unchanged(`resourceVersion)
    {
      r := Refused(adopt, owner);
      if r.Some? {
        return;
      }
      MakeMetadata();
      labels := labels.CopyFrom(parsed.labels);
      annotations := annotations.CopyFrom(parsed.annotations);
      StampOwner(owner, uid, hash);
      annotations := annotations.Put(SOURCE_COMMIT_ANNOTATION, revision);
      typ := parsed.typ;
      if typ == "" {
        typ := TYPE_OPAQUE;
      }
      data := parsed.data;
      stringData := Nil;
    }

    /** The closure of `applyInlineManifestSecret`. */
    method MutateInlineManifest(
        adopt: bool, owner: string, uid: string, parsed: SecretObject, hash: string, targetType: string)
      returns (r: Option<Refusal>)
      requires parsed != this
      modifies this
      ensures r == old(Refused(adopt, owner))
      ensures r.Some? ==> unchanged(this)
      ensures r.None? ==>
        Value() == Stamped(old(Value()), owner, uid, InlineManifestSecret(parsed.Parsed(), hash, targetType))
      ensures r.None? ==> stringData == Nil
      ensures unchanged(`namespace) && unchanged(`name) && unchanged(`resourceVersion)
    {
      r := Refused(adopt, owner);
      if r.Some? {
        return;
      }
      MakeMetadata();
      labels := labels.CopyFrom(parsed.labels);
      annotations := annotations.CopyFrom(parsed.annotations);
      StampOwner(owner, uid, hash);
      if targetType != "" {
        typ := targetType;
      } else if parsed.typ != "" {
        typ := parsed.typ;
      } else {
        typ := TYPE_OPAQUE;
      }
      data := parsed.data;
      stringData := Nil;
    }
  }
}
