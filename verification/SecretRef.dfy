/**
 internal/secretref/secretref.go: which Secret a credential reference means, and the index
 entries by which an event on that Secret finds the resources that use it.
 */
module SecretRef {
  import opened Wrappers
  import opened GoStrings

  datatype Origin = Local | CrossNamespace | FromGlobal

  datatype Global = Global(ns: string, name: string, key: string)

  /** `name` is empty when the resource has no reference, `ns` unless it names a namespace. */
  datatype Ref = Ref(ns: string, name: string, key: string)

  datatype Resolved = Resolved(ns: string, name: string, dataKey: string, origin: Origin)

  datatype ResolveError = NoReference | Forbidden(ns: string, name: string)

  // ---- configuration ----------------------------------------------------------------------

  /** A namespace and a name around the first slash, neither of them blank. */
  predicate Parts(trimmed: string, ns: string, name: string) {
    trimmed == ns + "/" + name && SlashFree(ns) && TrimSpace(ns) != "" && TrimSpace(name) != ""
  }

  lemma PartsHaveSlash(trimmed: string, ns: string, name: string)
    ensures Parts(trimmed, ns, name) ==> '/' in trimmed
  {
    assert '/' in ns + "/" + name;
  }

  /** `ParseGlobal`: blank means not configured, and the first slash separates the parts. */
  function ParseGlobal(value: string, dataKey: string): (r: Result<Option<Global>, string>)
    ensures r == Ok(None) <==> TrimSpace(value) == ""
    ensures r.Err? <==> TrimSpace(value) != "" && !exists ns, name :: Parts(TrimSpace(value), ns, name)
    ensures r.Ok? && r.value.Some? ==>
      exists ns, name :: Parts(TrimSpace(value), ns, name)
        && r.value.value == Global(TrimSpace(ns), TrimSpace(name), dataKey)
  {
    var trimmed := TrimSpace(value);
    if trimmed == "" then Ok(None)
    else
      match Cut(trimmed, '/')
      case None =>
        assert forall ns, name :: !Parts(trimmed, ns, name) by {
          forall ns, name ensures Parts(trimmed, ns, name) ==> '/' in trimmed {
            PartsHaveSlash(trimmed, ns, name);
          }
        }
        Err(trimmed)
      case Some((ns, name)) =>
        assert forall n, m :: Parts(trimmed, n, m) ==> n == ns && m == name by {
          forall n, m | Parts(trimmed, n, m) ensures n == ns && m == name {
            CutUnique(n, ns, m, name, '/');
          }
        }
        if TrimSpace(ns) == "" || TrimSpace(name) == "" then Err(trimmed)
        else
          assert Parts(trimmed, ns, name);
          Ok(Some(Global(TrimSpace(ns), TrimSpace(name), dataKey)))
  }

  function Trimmed(namespaces: seq<string>): seq<string> {
    seq(|namespaces|, i requires 0 <= i < |namespaces| => TrimSpace(namespaces[i]))
  }

  /** The permitted namespaces: the trimmed entries of the flag, without the empty ones. */
  method NewResolver(namespaces: seq<string>) returns (allowed: set<string>)
    ensures forall ns :: ns in allowed <==> ns != "" && ns in Trimmed(namespaces)
  {
    allowed := {};
    ghost var trimmed := Trimmed(namespaces);
    var i := 0;
    while i < |namespaces|
      invariant 0 <= i <= |namespaces|
      invariant forall ns :: ns in allowed <==> ns != "" && ns in trimmed[..i]
    {
      var ns := TrimSpace(namespaces[i]);
      assert trimmed[..i + 1] == trimmed[..i] + [ns];
      if ns != "" {
        allowed := allowed + {ns};
      }
      i := i + 1;
    }
    assert trimmed[..i] == trimmed;
  }

  // ---- resolution -------------------------------------------------------------------------

  function Resolve(allowed: set<string>, crNamespace: string, ref: Ref, global: Option<Global>)
    : Result<Resolved, ResolveError>
  {
    if ref.name == "" then
      match global
      case None => Err(NoReference)
      case Some(g) => Ok(Resolved(g.ns, g.name, g.key, FromGlobal))
    else if ref.ns == "" || ref.ns == crNamespace then Ok(Resolved(crNamespace, ref.name, ref.key, Local))
    else if ref.ns !in allowed then Err(Forbidden(ref.ns, ref.name))
    else Ok(Resolved(ref.ns, ref.name, ref.key, CrossNamespace))
  }

  /** The reference names a Secret in the resource's own namespace, by saying so or by default. */
  predicate NamesOwn(crNamespace: string, ref: Ref) {
    ref.name != "" && ref.ns in {"", crNamespace}
  }

  /** It names a Secret in another namespace. */
  predicate NamesOther(crNamespace: string, ref: Ref) {
    ref.name != "" && ref.ns !in {"", crNamespace}
  }

  /**
   When a reference resolves, to what, and what goes wrong otherwise: the three origins and the
   two errors exclude each other and leave nothing out.
   */
  lemma ResolveExact(allowed: set<string>, crNamespace: string, ref: Ref, global: Option<Global>)
    ensures var r := Resolve(allowed, crNamespace, ref, global);
      && (r.Ok? <==>
          || (ref.name == "" && global.Some?) || NamesOwn(crNamespace, ref)
          || (NamesOther(crNamespace, ref) && ref.ns in allowed))
      && (ref.name == "" && global.Some? ==>
          r.value == Resolved(global.value.ns, global.value.name, global.value.key, FromGlobal))
      && (NamesOwn(crNamespace, ref) ==> r.value == Resolved(crNamespace, ref.name, ref.key, Local))
      && (NamesOther(crNamespace, ref) && ref.ns in allowed ==>
          r.value == Resolved(ref.ns, ref.name, ref.key, CrossNamespace))
      && (r == Err(NoReference) <==> ref.name == "" && global.None?)
      && (r == Err(Forbidden(ref.ns, ref.name)) <==> NamesOther(crNamespace, ref) && ref.ns !in allowed)
      && (r.Err? ==> r.error in {NoReference, Forbidden(ref.ns, ref.name)})
  {
  }

  /**
   A larger allowlist never changes a resolution that succeeds, and what it newly permits is
   only in the namespaces it adds.
   */
  lemma AllowlistMonotone(a: set<string>, b: set<string>, crNamespace: string, ref: Ref, global: Option<Global>)
    requires a <= b
    ensures var x, y := Resolve(a, crNamespace, ref, global), Resolve(b, crNamespace, ref, global);
      && (x.Ok? ==> y == x)
      && (x.Err? && y.Ok? ==> y.value.origin == CrossNamespace && y.value.ns in b - a)
      && (x.Ok? <==> y.Ok? && !(y.value.origin == CrossNamespace && y.value.ns in b - a))
      && (y.Err? ==> y == x)
  {
  }

  /** A tenant reaches its own namespace, a permitted one, or what the administrator configured. */
  lemma ResolutionConfined(allowed: set<string>, crNamespace: string, ref: Ref, global: Option<Global>)
    ensures var r := Resolve(allowed, crNamespace, ref, global);
      r.Ok? ==>
        if ref.name == "" then global.Some? && (r.value.ns, r.value.name) == (global.value.ns, global.value.name)
        else r.value.name == ref.name && (r.value.ns == crNamespace || (r.value.ns == ref.ns && r.value.ns in allowed))
  {
  }

  // ---- the index --------------------------------------------------------------------------

  function IndexKey(ns: string, name: string): string {
    ns + "/" + name
  }

  lemma IndexKeyInjective(ns: string, name: string, ns': string, name': string)
    requires SlashFree(ns) && SlashFree(ns')
    ensures IndexKey(ns, name) == IndexKey(ns', name') <==> ns == ns' && name == name'
  {
    if IndexKey(ns, name) == IndexKey(ns', name') {
      assert ns + ['/'] + name == ns' + ['/'] + name';
      CutUnique(ns, ns', name, name', '/');
    }
  }

  function IndexValues(allowed: set<string>, crNamespace: string, ref: Ref, global: Option<Global>): seq<string> {
    match Resolve(allowed, crNamespace, ref, global)
    case Ok(r) => [IndexKey(r.ns, r.name)]
    case Err(NoReference) => []
    case Err(Forbidden(_, _)) => [IndexKey(ref.ns, ref.name)]
  }

  /** A rejected reference stays indexed, so the index is the same under every allowlist. */
  lemma IndexIgnoresAllowlist(
      a: set<string>, b: set<string>, crNamespace: string, ref: Ref, global: Option<Global>)
    ensures IndexValues(a, crNamespace, ref, global) == IndexValues(b, crNamespace, ref, global)
  {
  }

  // ---- events on a credential Secret ------------------------------------------------------

  /** The part of a GitRepository (or ObjectSource) that names a credential; `auth` is None without an auth block. */
  datatype Source = Source(ns: string, name: string, auth: Option<Ref>)

  function SourceIndex(allowed: set<string>, source: Source, global: Option<Global>): seq<string> {
    if source.auth.None? then [] else IndexValues(allowed, source.ns, source.auth.value, global)
  }

  /** The source reads the Secret, or asks for it and is refused by the policy. */
  predicate Names(allowed: set<string>, source: Source, global: Option<Global>, ns: string, name: string) {
    source.auth.Some? &&
    match Resolve(allowed, source.ns, source.auth.value, global)
    case Ok(r) => r.ns == ns && r.name == name
    case Err(NoReference) => false
    case Err(Forbidden(n, m)) => n == ns && m == name
  }

  predicate Reads(allowed: set<string>, source: Source, global: Option<Global>, ns: string, name: string) {
    source.auth.Some? &&
    var r := Resolve(allowed, source.ns, source.auth.value, global);
    r.Ok? && r.value.ns == ns && r.value.name == name
  }

  predicate SlashFreeNamespaces(source: Source, global: Option<Global>) {
    && SlashFree(source.ns)
    && (source.auth.Some? ==> SlashFree(source.auth.value.ns))
    && (global.Some? ==> SlashFree(global.value.ns))
  }

  /** The index entry of a source is the key of a Secret exactly when the source names that Secret. */
  lemma IndexAgreesWithResolution(
    allowed: set<string>, source: Source, global: Option<Global>, ns: string, name: string)
    ensures Names(allowed, source, global, ns, name) ==> IndexKey(ns, name) in SourceIndex(allowed, source, global)
    ensures SlashFree(ns) && SlashFreeNamespaces(source, global) ==>
      (IndexKey(ns, name) in SourceIndex(allowed, source, global) <==> Names(allowed, source, global, ns, name))
  {
    if SlashFree(ns) && SlashFreeNamespaces(source, global) && source.auth.Some? {
      match Resolve(allowed, source.ns, source.auth.value, global)
      case Ok(r) => IndexKeyInjective(r.ns, r.name, ns, name);
      case Err(Forbidden(n, m)) => IndexKeyInjective(n, m, ns, name);
      case Err(NoReference) =>
    }
  }

  /**
   `mapSecretToGitRepos`: the indexed sources of the whole cluster whose entry is the key of
   the Secret. No source that reads the Secret is missed, under this allowlist or any other;
   with slash-free namespaces the sources enqueued are exactly those that name it.
   */
  method MapSecretToSources(
    allowed: set<string>, sources: seq<Source>, global: Option<Global>, ns: string, name: string)
    returns (requests: seq<(string, string)>)
    ensures forall i, other: set<string> | 0 <= i < |sources| && Reads(other, sources[i], global, ns, name) ::
      (sources[i].ns, sources[i].name) in requests
    ensures SlashFree(ns) && (forall i :: 0 <= i < |sources| ==> SlashFreeNamespaces(sources[i], global)) ==>
      forall q :: q in requests <==>
        exists i :: 0 <= i < |sources| && q == (sources[i].ns, sources[i].name)
          && Names(allowed, sources[i], global, ns, name)
  {
    requests := [];
    var wanted := IndexKey(ns, name);
    var i := 0;
    while i < |sources|
      invariant 0 <= i <= |sources|
      invariant forall q :: q in requests <==>
        exists j :: 0 <= j < i && q == (sources[j].ns, sources[j].name)
          && wanted in SourceIndex(allowed, sources[j], global)
    {
      if wanted in SourceIndex(allowed, sources[i], global) {
        requests := requests + [(sources[i].ns, sources[i].name)];
      }
      i := i + 1;
    }
    forall i, other: set<string> | 0 <= i < |sources| && Reads(other, sources[i], global, ns, name)
      ensures (sources[i].ns, sources[i].name) in requests
    {
      IndexAgreesWithResolution(other, sources[i], global, ns, name);
      IndexIgnoresAllowlist(allowed, other, sources[i].ns, sources[i].auth.value, global);
    }
    forall i | 0 <= i < |sources|
      ensures SlashFree(ns) && SlashFreeNamespaces(sources[i], global) ==>
        (wanted in SourceIndex(allowed, sources[i], global) <==> Names(allowed, sources[i], global, ns, name))
    {
      IndexAgreesWithResolution(allowed, sources[i], global, ns, name);
    }
  }
}
