/** Where a consumer resource puts its Secret, and where its finalizer looks for it. */
module Targets {
  import opened Wrappers
  import opened Secrets

  datatype SKey = SKey(ns: string, name: string)

  /** `spec.mode` of an InlineSopsSecret; the other kinds ignore it. */
  datatype Mode = MappingMode | ManifestMode | UnknownMode

  /** The part of a spec that decides which Secret is written: `name` is `target.nameOverride` for a manifest. */
  datatype Target = Target(ns: string, name: string, mode: Mode)

  function EffectiveMode(k: CRKey, t: Target): Mode {
    match k.kind
    case SopsSecret => MappingMode
    case SopsSecretManifest => ManifestMode
    case InlineSopsSecret => t.mode
  }

  function EffectiveNamespace(k: CRKey, t: Target): string {
    if t.ns != "" then t.ns else k.ns
  }

  /** The name known without decrypting; a manifest's own name is known only to the pipeline. */
  function KnownName(k: CRKey, t: Target): Option<string> {
    if t.name != "" then Some(t.name)
    else if EffectiveMode(k, t) == MappingMode then Some(k.name)
    else None
  }

  /** The Secrets the finalizer considers: one by name, or all of a namespace. */
  predicate InReach(k: CRKey, t: Target, sk: SKey) {
    sk.ns == EffectiveNamespace(k, t) && (KnownName(k, t).Some? ==> sk.name == KnownName(k, t).value)
  }

  /** Resources whose content is a list of mappings: every SopsSecret, and an InlineSopsSecret that says so. */
  predicate UsesMappings(k: CRKey, t: Target) {
    k.kind == SopsSecret || (k.kind == InlineSopsSecret && t.mode == MappingMode)
  }

  /** Resources whose content is a whole manifest. */
  predicate UsesManifest(k: CRKey, t: Target) {
    k.kind == SopsSecretManifest || (k.kind == InlineSopsSecret && t.mode == ManifestMode)
  }

  /** The mode in terms of the kind and `spec.mode`; only an InlineSopsSecret can have none. */
  lemma ModeExact(k: CRKey, t: Target)
    ensures EffectiveMode(k, t) == MappingMode <==> UsesMappings(k, t)
    ensures EffectiveMode(k, t) == ManifestMode <==> UsesManifest(k, t)
    ensures EffectiveMode(k, t) == UnknownMode <==> k.kind == InlineSopsSecret && t.mode == UnknownMode
  {
  }

  /** What the finalizer considers, in terms of the fields of the spec. */
  lemma ReachExact(k: CRKey, t: Target, sk: SKey)
    ensures InReach(k, t, sk) <==>
      && (t.ns != "" ==> sk.ns == t.ns) && (t.ns == "" ==> sk.ns == k.ns)
      && (t.name != "" ==> sk.name == t.name)
      && (t.name == "" && UsesMappings(k, t) ==> sk.name == k.name)
  {
  }

  /**
   The Secret one pass writes, given the decrypted manifest's name; None is the `NameMissing`
   failure. The spec's namespace and name come first; else it is the resource's namespace, and
   the resource's name for mappings, the manifest's own otherwise.
   */
  function WriteTarget(k: CRKey, t: Target, manifestName: string): (r: Option<SKey>)
    ensures r.Some? ==> InReach(k, t, r.value)
    ensures r.Some? && t.ns != "" ==> r.value.ns == t.ns
    ensures r.Some? && t.ns == "" ==> r.value.ns == k.ns
    ensures t.name != "" ==> r.Some? && r.value.name == t.name
    ensures t.name == "" && UsesMappings(k, t) ==> r.Some? && r.value.name == k.name
    ensures t.name == "" && !UsesMappings(k, t) ==> (r.None? <==> manifestName == "")
    ensures t.name == "" && !UsesMappings(k, t) && r.Some? ==> r.value.name == manifestName
  {
    match KnownName(k, t)
    case Some(name) => Some(SKey(EffectiveNamespace(k, t), name))
    case None => if manifestName == "" then None else Some(SKey(EffectiveNamespace(k, t), manifestName))
  }
}
