/**
 Target Secrets as values: owner keys, the adoption guard, the stamps every apply closure
 writes, and what `CreateOrUpdate` decides to do. The four apply closures of
 internal/controller are methods of `SecretObjects.SecretObject`; the definitions here are
 their specification and the vocabulary of the protocol modules.
 */
module Secrets {
  import opened Wrappers
  import opened GoStrings
  import opened Flat

  const MANAGED_BY_LABEL := "sops.stuttgart-things.com/managed-by"
  const MANAGED_BY_VALUE := "sops-secrets-operator"
  const OWNER_ANNOTATION := "sops.stuttgart-things.com/owner"
  const OWNER_UID_ANNOTATION := "sops.stuttgart-things.com/owner-uid"
  const CONTENT_HASH_ANNOTATION := "sops.stuttgart-things.com/content-hash"
  const SOURCE_COMMIT_ANNOTATION := "sops.stuttgart-things.com/source-commit"
  const TYPE_OPAQUE := "Opaque"

  // ---- owner keys -------------------------------------------------------------------------

  datatype Kind = SopsSecret | SopsSecretManifest | InlineSopsSecret

  /** A consumer custom resource. */
  datatype CRKey = CRKey(kind: Kind, ns: string, name: string)

  function KindName(kind: Kind): (r: string)
    ensures SlashFree(r)
  {
    match kind
    case SopsSecret => "SopsSecret"
    case SopsSecretManifest => "SopsSecretManifest"
    case InlineSopsSecret => "InlineSopsSecret"
  }

  /** The value of the owner annotation. */
  function OwnerKey(k: CRKey): (r: string)
    ensures r != ""
  {
    KindName(k.kind) + "/" + k.ns + "/" + k.name
  }

  /** The annotation says kind, namespace and name, in this order. */
  lemma OwnerKeyText(ns: string, name: string)
    ensures OwnerKey(CRKey(SopsSecret, ns, name)) == "SopsSecret/" + ns + "/" + name
    ensures OwnerKey(CRKey(SopsSecretManifest, ns, name)) == "SopsSecretManifest/" + ns + "/" + name
    ensures OwnerKey(CRKey(InlineSopsSecret, ns, name)) == "InlineSopsSecret/" + ns + "/" + name
  {
    assert "SopsSecret" + "/" == "SopsSecret/" && "SopsSecretManifest" + "/" == "SopsSecretManifest/";
    assert "InlineSopsSecret" + "/" == "InlineSopsSecret/";
  }

  /** Namespaces are DNS labels; that they hold no slash is all that is needed here. */
  predicate ValidKey(k: CRKey) {
    SlashFree(k.ns)
  }

  lemma KindNameInjective(a: Kind, b: Kind)
    requires KindName(a) == KindName(b)
    ensures a == b
  {
    assert KindName(SopsSecret)[0] == 'S' && KindName(SopsSecretManifest)[0] == 'S';
    assert KindName(InlineSopsSecret)[0] == 'I';
    assert |KindName(SopsSecret)| != |KindName(SopsSecretManifest)|;
  }

  /** Owner keys of different resources differ, across kinds and namespaces. */
  lemma OwnerKeyInjective(a: CRKey, b: CRKey)
    requires ValidKey(a) && ValidKey(b)
    ensures OwnerKey(a) == OwnerKey(b) <==> a == b
  {
    if OwnerKey(a) == OwnerKey(b) {
      var x, y := a.ns + "/" + a.name, b.ns + "/" + b.name;
      assert OwnerKey(a) == KindName(a.kind) + ['/'] + x;
      assert OwnerKey(b) == KindName(b.kind) + ['/'] + y;
      CutUnique(KindName(a.kind), KindName(b.kind), x, y, '/');
      KindNameInjective(a.kind, b.kind);
      assert x == a.ns + ['/'] + a.name && y == b.ns + ['/'] + b.name;
      CutUnique(a.ns, b.ns, a.name, b.name, '/');
    }
  }

  /** A slash in a namespace would let two resources share an owner key. */
  lemma OwnerKeyAmbiguousWithSlash(kind: Kind, x: string, y: string, z: string)
    ensures OwnerKey(CRKey(kind, x + "/" + y, z)) == OwnerKey(CRKey(kind, x, y + "/" + z))
    ensures CRKey(kind, x + "/" + y, z) != CRKey(kind, x, y + "/" + z)
  {
    var a, b := CRKey(kind, x + "/" + y, z), CRKey(kind, x, y + "/" + z);
    assert OwnerKey(a) == KindName(kind) + "/" + x + "/" + y + "/" + z == OwnerKey(b);
    assert |a.ns| > |b.ns|;
  }

  // ---- Secret values ----------------------------------------------------------------------

  datatype SecretValue = SecretValue(
    labels: map<string, string>, annotations: map<string, string>, typ: string, data: DataMap)

  const BLANK := SecretValue(map[], map[], "", map[])

  /** Reading a Go map: a missing key yields the empty string. */
  function Lookup(m: map<string, string>, k: string): string {
    if k in m then m[k] else ""
  }

  predicate Managed(s: SecretValue) {
    Lookup(s.labels, MANAGED_BY_LABEL) == MANAGED_BY_VALUE
  }

  predicate OwnedBy(s: SecretValue, k: CRKey) {
    Managed(s) && Lookup(s.annotations, OWNER_ANNOTATION) == OwnerKey(k)
  }

  lemma OneOwner(s: SecretValue, a: CRKey, b: CRKey)
    requires ValidKey(a) && ValidKey(b) && OwnedBy(s, a) && OwnedBy(s, b)
    ensures a == b
  {
    OwnerKeyInjective(a, b);
  }

  // ---- the adoption guard -----------------------------------------------------------------

  datatype Refusal = NotManaged | OwnedByOther(owner: string)

  /** The check every apply closure makes on a Secret that already exists. */
  function Guard(existing: SecretValue, adopt: bool, owner: string): Option<Refusal> {
    var managedBy := Lookup(existing.labels, MANAGED_BY_LABEL);
    var existingOwner := Lookup(existing.annotations, OWNER_ANNOTATION);
    if managedBy == "" && !adopt then Some(NotManaged)
    else if managedBy == MANAGED_BY_VALUE && existingOwner != "" && existingOwner != owner
      then Some(OwnedByOther(existingOwner))
    else None
  }

  /** A Secret owned by one resource is refused to every other, with or without `adopt`. */
  lemma GuardProtectsOwner(s: SecretValue, adopt: bool, owner: CRKey, other: CRKey)
    requires ValidKey(owner) && ValidKey(other) && OwnedBy(s, owner)
    ensures Guard(s, adopt, OwnerKey(other)).Some? <==> other != owner
    ensures other != owner ==> Guard(s, adopt, OwnerKey(other)) == Some(OwnedByOther(OwnerKey(owner)))
  {
    OwnerKeyInjective(owner, other);
  }

  // ---- desired content and stamps ---------------------------------------------------------

  /** A decrypted manifest after `ParseManifest`; stringData is still separate. */
  datatype Manifest = Manifest(
    name: string, ns: string, labels: map<string, string>, annotations: map<string, string>,
    typ: string, data: DataMap, stringData: map<string, string>)

  /** What one pass of the pipeline derived, one constructor for each apply closure. */
  datatype Desired =
    | MappingSecret(data: DataMap, hash: string, revision: string, typ: string)
    | ManifestSecret(parsed: Manifest, hash: string, revision: string)
    | InlineMappingSecret(data: DataMap, hash: string, typ: string)
    | InlineManifestSecret(parsed: Manifest, hash: string, typ: string)
  {
    predicate FromManifest() {
      ManifestSecret? || InlineManifestSecret?
    }

    function Payload(): DataMap {
      if FromManifest() then parsed.data else data
    }
  }

  function StampedType(base: string, want: Desired): string {
    match want
    case MappingSecret(_, _, _, typ) => if typ != "" then typ else if base == "" then TYPE_OPAQUE else base
    case InlineMappingSecret(_, _, typ) => if typ != "" then typ else if base == "" then TYPE_OPAQUE else base
    case ManifestSecret(parsed, _, _) => if parsed.typ == "" then TYPE_OPAQUE else parsed.typ
    case InlineManifestSecret(parsed, _, typ) =>
      if typ != "" then typ else if parsed.typ != "" then parsed.typ else TYPE_OPAQUE
  }

  /** The stamps of the closure: the owner's, and the source commit where the kind has one. */
  function WithStamps(base: map<string, string>, owner: string, uid: string, want: Desired): map<string, string> {
    var own := base[OWNER_ANNOTATION := owner][OWNER_UID_ANNOTATION := uid][CONTENT_HASH_ANNOTATION := want.hash];
    if want.MappingSecret? || want.ManifestSecret? then own[SOURCE_COMMIT_ANNOTATION := want.revision] else own
  }

  function StampKeys(want: Desired): set<string> {
    {OWNER_ANNOTATION, OWNER_UID_ANNOTATION, CONTENT_HASH_ANNOTATION}
    + if want.MappingSecret? || want.ManifestSecret? then {SOURCE_COMMIT_ANNOTATION} else {}
  }

  function Stamped(base: SecretValue, owner: string, uid: string, want: Desired): SecretValue {
    var labels := if want.FromManifest() then base.labels + want.parsed.labels else base.labels;
    var annotations :=
      if want.FromManifest() then base.annotations + want.parsed.annotations else base.annotations;
    SecretValue(
      labels[MANAGED_BY_LABEL := MANAGED_BY_VALUE], WithStamps(annotations, owner, uid, want),
      StampedType(base.typ, want), want.Payload())
  }

  lemma AnnotationKeysDiffer()
    ensures OWNER_ANNOTATION != OWNER_UID_ANNOTATION
    ensures OWNER_ANNOTATION != CONTENT_HASH_ANNOTATION
    ensures OWNER_ANNOTATION != SOURCE_COMMIT_ANNOTATION
    ensures OWNER_UID_ANNOTATION != CONTENT_HASH_ANNOTATION
    ensures OWNER_UID_ANNOTATION != SOURCE_COMMIT_ANNOTATION
    ensures CONTENT_HASH_ANNOTATION != SOURCE_COMMIT_ANNOTATION
  {
    assert |OWNER_ANNOTATION| != |OWNER_UID_ANNOTATION|;
    assert OWNER_ANNOTATION[26] != CONTENT_HASH_ANNOTATION[26];
    assert OWNER_ANNOTATION[26] != SOURCE_COMMIT_ANNOTATION[26];
    assert OWNER_UID_ANNOTATION[26] != CONTENT_HASH_ANNOTATION[26];
    assert OWNER_UID_ANNOTATION[26] != SOURCE_COMMIT_ANNOTATION[26];
    assert CONTENT_HASH_ANNOTATION[26] != SOURCE_COMMIT_ANNOTATION[26];
  }

  /** A stamped Secret belongs to the resource that stamped it and to no other. */
  lemma StampedOwner(base: SecretValue, k: CRKey, uid: string, want: Desired)
    requires ValidKey(k)
    ensures OwnedBy(Stamped(base, OwnerKey(k), uid, want), k)
    ensures forall other | ValidKey(other) && OwnedBy(Stamped(base, OwnerKey(k), uid, want), other) :: other == k
  {
    AnnotationKeysDiffer();
    var s := Stamped(base, OwnerKey(k), uid, want);
    assert OwnedBy(s, k);
    forall other | ValidKey(other) && OwnedBy(s, other) ensures other == k {
      OneOwner(s, other, k);
    }
  }

  /**
   Content cannot relabel: whatever labels and annotations a manifest carries, the
   operator's label and stamps win; every other entry of the manifest wins over the Secret
   it is applied to, and the rest of that Secret's entries stay.
   */
  lemma ManifestCannotRelabel(base: SecretValue, owner: string, uid: string, want: Desired)
    requires want.FromManifest()
    ensures var s := Stamped(base, owner, uid, want);
      && s.labels.Keys == base.labels.Keys + want.parsed.labels.Keys + {MANAGED_BY_LABEL}
      && (forall l | l in s.labels :: s.labels[l] == (
            if l == MANAGED_BY_LABEL then MANAGED_BY_VALUE
            else if l in want.parsed.labels then want.parsed.labels[l] else base.labels[l]))
      && Lookup(s.annotations, OWNER_ANNOTATION) == owner
      && Lookup(s.annotations, OWNER_UID_ANNOTATION) == uid
      && Lookup(s.annotations, CONTENT_HASH_ANNOTATION) == want.hash
      && (want.ManifestSecret? ==> Lookup(s.annotations, SOURCE_COMMIT_ANNOTATION) == want.revision)
      && (forall a :: a in want.parsed.annotations && a !in StampKeys(want) ==>
          a in s.annotations && s.annotations[a] == want.parsed.annotations[a])
      && (forall a :: a in base.annotations && a !in want.parsed.annotations && a !in StampKeys(want) ==>
          a in s.annotations && s.annotations[a] == base.annotations[a])
  {
    AnnotationKeysDiffer();
  }

  /** The first non-empty of three texts. */
  predicate FirstSet(r: string, a: string, b: string, c: string) {
    (a != "" ==> r == a) && (a == "" && b != "" ==> r == b) && (a == "" && b == "" ==> r == c)
  }

  /**
   What a stamped Secret holds, kind by kind: its type is that of the spec, else that of the
   Secret (mappings) or of the manifest, else Opaque, except that a SopsSecretManifest has no
   type in its spec; its data is the derived data and nothing else; and outside the operator's
   own keys it keeps what it had, overlaid with what the manifest has.
   */
  lemma StampedExact(base: SecretValue, owner: string, uid: string, want: Desired)
    ensures var s := Stamped(base, owner, uid, want);
      match want
      case MappingSecret(data, _, _, typ) =>
        FirstSet(s.typ, typ, base.typ, "Opaque") && s.data == data && Kept(base, s, map[], map[], want)
      case InlineMappingSecret(data, _, typ) =>
        FirstSet(s.typ, typ, base.typ, "Opaque") && s.data == data && Kept(base, s, map[], map[], want)
      case ManifestSecret(m, _, _) =>
        FirstSet(s.typ, m.typ, "Opaque", "") && s.data == m.data && Kept(base, s, m.labels, m.annotations, want)
      case InlineManifestSecret(m, _, typ) =>
        FirstSet(s.typ, typ, m.typ, "Opaque") && s.data == m.data && Kept(base, s, m.labels, m.annotations, want)
    ensures var s := Stamped(base, owner, uid, want);
      && Lookup(s.labels, MANAGED_BY_LABEL) == MANAGED_BY_VALUE
      && Lookup(s.annotations, OWNER_ANNOTATION) == owner
      && Lookup(s.annotations, OWNER_UID_ANNOTATION) == uid
      && Lookup(s.annotations, CONTENT_HASH_ANNOTATION) == want.hash
      && (want.MappingSecret? || want.ManifestSecret? ==>
          Lookup(s.annotations, SOURCE_COMMIT_ANNOTATION) == want.revision)
  {
    AnnotationKeysDiffer();
    var s := Stamped(base, owner, uid, want);
    var ls := if want.FromManifest() then want.parsed.labels else map[];
    var anns := if want.FromManifest() then want.parsed.annotations else map[];
    LabelsKept(base, owner, uid, want, ls);
    AnnotationsKept(base, owner, uid, want, anns);
  }

  /** Outside the operator's own keys, `s` has the entries of `base` overlaid with the given ones. */
  predicate Kept(
    base: SecretValue, s: SecretValue, labels: map<string, string>, annotations: map<string, string>, want: Desired)
  {
    && s.labels - {MANAGED_BY_LABEL} == base.labels + labels - {MANAGED_BY_LABEL}
    && s.annotations - StampKeys(want) == base.annotations + annotations - StampKeys(want)
  }

  lemma LabelsKept(base: SecretValue, owner: string, uid: string, want: Desired, ls: map<string, string>)
    requires ls == if want.FromManifest() then want.parsed.labels else map[]
    ensures Stamped(base, owner, uid, want).labels - {MANAGED_BY_LABEL} == base.labels + ls - {MANAGED_BY_LABEL}
  {
  }

  lemma AnnotationsKept(base: SecretValue, owner: string, uid: string, want: Desired, anns: map<string, string>)
    requires anns == if want.FromManifest() then want.parsed.annotations else map[]
    ensures Stamped(base, owner, uid, want).annotations - StampKeys(want) ==
      base.annotations + anns - StampKeys(want)
  {
  }

  // ---- CreateOrUpdate ---------------------------------------------------------------------

  datatype Plan = Refuse(why: Refusal) | Create(value: SecretValue) | Update(value: SecretValue) | Keep

  /** Get, mutate, and compare: what `controllerutil.CreateOrUpdate` sends to the API server. */
  function PlanApply(
      existing: Option<SecretValue>, adopt: bool, owner: string, uid: string, want: Desired): Plan {
    match existing
    case None => Create(Stamped(BLANK, owner, uid, want))
    case Some(live) =>
      match Guard(live, adopt, owner)
      case Some(why) => Refuse(why)
      case None =>
        var s := Stamped(live, owner, uid, want);
        if s == live then Keep else Update(s)
  }

  /** The Secret that exists after the plan was carried out. */
  function Outcome(existing: Option<SecretValue>, plan: Plan): Option<SecretValue> {
    match plan
    case Create(v) => Some(v)
    case Update(v) => Some(v)
    case _ => existing
  }

  lemma StampedIdempotent(base: SecretValue, owner: string, uid: string, want: Desired)
    ensures Stamped(Stamped(base, owner, uid, want), owner, uid, want) == Stamped(base, owner, uid, want)
  {
    var once := Stamped(base, owner, uid, want);
    var twice := Stamped(once, owner, uid, want);
    assert twice.labels == once.labels;
    assert twice.annotations == once.annotations;
  }

  /**
   Convergence and idempotence. From any state the guard admits (missing, drifted, adopted)
   one apply leaves a Secret whose data is exactly the derived data, owned and stamped for
   this resource; applying the same content again sends nothing. A refused apply changes
   nothing.
   */
  lemma ApplyConverges(
      existing: Option<SecretValue>, adopt: bool, k: CRKey, uid: string, want: Desired)
    requires ValidKey(k)
    ensures var plan := PlanApply(existing, adopt, OwnerKey(k), uid, want);
      if plan.Refuse? then Outcome(existing, plan) == existing
      else
        var after := Outcome(existing, plan);
        && after.Some?
        && after.value.data == want.Payload()
        && OwnedBy(after.value, k)
        && Lookup(after.value.annotations, OWNER_UID_ANNOTATION) == uid
        && Lookup(after.value.annotations, CONTENT_HASH_ANNOTATION) == want.hash
        && after.value.typ != ""
        && PlanApply(after, adopt, OwnerKey(k), uid, want) == Keep
        && PlanApply(after, false, OwnerKey(k), uid, want) == Keep
  {
    AnnotationKeysDiffer();
    var plan := PlanApply(existing, adopt, OwnerKey(k), uid, want);
    if !plan.Refuse? {
      var base := if existing.None? then BLANK else existing.value;
      var after := Stamped(base, OwnerKey(k), uid, want);
      assert Outcome(existing, plan) == Some(after);
      StampedOwner(base, k, uid, want);
      StampedIdempotent(base, OwnerKey(k), uid, want);
      GuardProtectsOwner(after, adopt, k, k);
      GuardProtectsOwner(after, false, k, k);
    }
  }

  /** No manager has put its label on the Secret. */
  predicate Unlabelled(s: SecretValue) {
    Lookup(s.labels, MANAGED_BY_LABEL) == ""
  }

  /** This operator manages the Secret for somebody else. */
  predicate HeldByOther(s: SecretValue, k: CRKey) {
    Managed(s) && Lookup(s.annotations, OWNER_ANNOTATION) !in {"", OwnerKey(k)}
  }

  /**
   Who gets an existing Secret: an apply makes it the resource's own, unless the Secret bears no
   managed-by label and adoption is not asked for, or this operator manages it for somebody
   else. A Secret under another manager's label is taken over without being asked.
   */
  lemma AdoptionOptInExact(s: SecretValue, adopt: bool, k: CRKey, uid: string, want: Desired)
    requires ValidKey(k)
    ensures var after := Outcome(Some(s), PlanApply(Some(s), adopt, OwnerKey(k), uid, want));
      && (OwnedBy(after.value, k) <==> !(Unlabelled(s) && !adopt) && !HeldByOther(s, k))
      && (!OwnedBy(after.value, k) ==> after.value == s)
      && (!Unlabelled(s) && !Managed(s) ==> OwnedBy(after.value, k))
    ensures var plan := PlanApply(Some(s), adopt, OwnerKey(k), uid, want);
      && (plan == Refuse(NotManaged) <==> Unlabelled(s) && !adopt)
      && (plan == Refuse(OwnedByOther(Lookup(s.annotations, OWNER_ANNOTATION))) <==> HeldByOther(s, k))
  {
    StampedOwner(s, k, uid, want);
  }
}
