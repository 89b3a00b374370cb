/** One reconcile that nothing disturbs: convergence, fail-closed derivation, manifests that cannot redirect. */
module PassTheorems {
  import opened Wrappers
  import opened GoStrings
  import opened Flat
  import opened Secrets
  import opened Manifests
  import opened Targets
  import opened ApiServers
  import opened Ownership
  import opened OwnershipRuns

  // ---- one undisturbed pass ---------------------------------------------------------------

  ghost predicate ReadyToPass(s: State, k: CRKey) {
    && PcOf(s, k).Idle? && ValidKey(k) && k in s.crs && s.crs[k].finalizer && !s.crs[k].deleting
    && CRVersion(k, s.crs[k]) in s.pastCrs
  }

  function Latest(s: State, sk: SKey): Option<Stored> {
    if sk in s.secrets then Some(s.secrets[sk]) else None
  }

  /** The steps of one reconcile of a resource that has its finalizer and derives content for `sk`. */
  function Pass(s: State, k: CRKey, sk: SKey, input: Input): seq<Step>
    requires k in s.crs
  {
    [ReadCR(k, Some(s.crs[k])), Derive(k, input)] + [GetSecret(k, Latest(s, sk))] + [Write(k), Report(k)]
  }

  function WritingPc(s: State, k: CRKey, sk: SKey, want: Desired): Pc
    requires k in s.crs
  {
    Writing(s.crs[k], sk, want, Latest(s, sk))
  }

  /** The state a pass ends in: the write carried out, the status stored, nothing under way. */
  function PassEnd(s: State, k: CRKey, sk: SKey, want: Desired): State
    requires k in s.crs
  {
    At(PutCR(AfterWrite(s, k, WritingPc(s, k, sk, want)), k, s.crs[k]), k, Idle)
  }

  lemma AtTwice(s: State, k: CRKey, a: Pc, b: Pc)
    ensures At(At(s, k, a), k, b) == At(s, k, b)
  {
  }

  lemma PassReads(s: State, k: CRKey, input: Input, sk: SKey, want: Desired)
    requires ReadyToPass(s, k) && Derived(k, s.crs[k].spec, input) == Some((sk, want))
    ensures Leads(s, [ReadCR(k, Some(s.crs[k])), Derive(k, input)], At(s, k, Applying(s.crs[k], sk, want)))
  {
    var s1 := At(s, k, Deriving(s.crs[k]));
    AtTwice(s, k, Deriving(s.crs[k]), Applying(s.crs[k], sk, want));
    Leads2(s, ReadCR(k, Some(s.crs[k])), s1, Derive(k, input), At(s, k, Applying(s.crs[k], sk, want)));
  }

  lemma PassGets(s: State, k: CRKey, sk: SKey, want: Desired)
    requires VersionsOk(s) && ReadyToPass(s, k)
    ensures Leads(
      At(s, k, Applying(s.crs[k], sk, want)), [GetSecret(k, Latest(s, sk))], At(s, k, WritingPc(s, k, sk, want)))
  {
    AtTwice(s, k, Applying(s.crs[k], sk, want), WritingPc(s, k, sk, want));
    Leads1(At(s, k, Applying(s.crs[k], sk, want)), GetSecret(k, Latest(s, sk)), At(s, k, WritingPc(s, k, sk, want)));
  }

  lemma PassWrites(s: State, k: CRKey, sk: SKey, want: Desired)
    requires ReadyToPass(s, k)
    ensures Leads(At(s, k, WritingPc(s, k, sk, want)), [Write(k), Report(k)], PassEnd(s, k, sk, want))
  {
    var pc := WritingPc(s, k, sk, want);
    var s3 := At(s, k, pc);
    assert AfterWrite(s3, k, pc) == At(AfterWrite(s, k, pc), k, pc);
    AtTwice(AfterWrite(s, k, pc), k, pc, Reporting(s.crs[k]));
    AtTwice(PutCR(AfterWrite(s, k, pc), k, s.crs[k]), k, Reporting(s.crs[k]), Idle);
    var s4 := At(AfterWrite(s, k, pc), k, Reporting(s.crs[k]));
    Leads2(s3, Write(k), s4, Report(k), PassEnd(s, k, sk, want));
  }

  lemma PassRuns(s: State, k: CRKey, input: Input, sk: SKey, want: Desired)
    requires VersionsOk(s) && ReadyToPass(s, k)
    requires Derived(k, s.crs[k].spec, input) == Some((sk, want))
    ensures Leads(s, Pass(s, k, sk, input), PassEnd(s, k, sk, want))
  {
    PassReads(s, k, input, sk, want);
    PassGets(s, k, sk, want);
    PassWrites(s, k, sk, want);
    Follow2(s, [ReadCR(k, Some(s.crs[k])), Derive(k, input)], At(s, k, Applying(s.crs[k], sk, want)),
      [GetSecret(k, Latest(s, sk))], At(s, k, WritingPc(s, k, sk, want)),
      [Write(k), Report(k)], PassEnd(s, k, sk, want));
  }

  /** `sk` holds exactly the derived data, owned by `k` and stamped for it. */
  ghost predicate Settled(s: State, k: CRKey, cr: CR, sk: SKey, want: Desired) {
    && Owned(s, sk, k)
    && s.secrets[sk].obj.data == want.Payload()
    && Lookup(s.secrets[sk].obj.annotations, CONTENT_HASH_ANNOTATION) == want.hash
    && Lookup(s.secrets[sk].obj.annotations, OWNER_UID_ANNOTATION) == cr.uid
  }

  /** What this resource's apply would send for the Secret as it stands. */
  function NextPlan(s: State, k: CRKey, cr: CR, sk: SKey, want: Desired): Plan {
    PlanApply(ValueOf(s.secrets, sk), cr.spec.adopt, OwnerKey(k), cr.uid, want)
  }

  lemma WriteLands(s: State, k: CRKey, sk: SKey, want: Desired)
    requires ReadyToPass(s, k)
    ensures var plan := NextPlan(s, k, s.crs[k], sk, want);
      && PlanOf(k, WritingPc(s, k, sk, want)) == plan
      && (plan.Refuse? || plan.Keep? ==> PassEnd(s, k, sk, want).secrets == s.secrets)
      && ValueOf(PassEnd(s, k, sk, want).secrets, sk) == Outcome(ValueOf(s.secrets, sk), plan)
      && PassEnd(s, k, sk, want).secrets - {sk} == s.secrets - {sk}
  {
    PlanIsNext(s, k, sk, want);
    PlanLands(s, k, sk, want, NextPlan(s, k, s.crs[k], sk, want));
  }

  lemma PlanIsNext(s: State, k: CRKey, sk: SKey, want: Desired)
    requires ReadyToPass(s, k)
    ensures var plan := NextPlan(s, k, s.crs[k], sk, want);
      && PlanOf(k, WritingPc(s, k, sk, want)) == plan
      && (plan.Create? ==> sk !in s.secrets) && (plan.Update? ==> sk in s.secrets)
  {
  }

  lemma PlanLands(s: State, k: CRKey, sk: SKey, want: Desired, plan: Plan)
    requires ReadyToPass(s, k) && PlanOf(k, WritingPc(s, k, sk, want)) == plan
    requires (plan.Create? ==> sk !in s.secrets) && (plan.Update? ==> sk in s.secrets)
    ensures var after := PassEnd(s, k, sk, want).secrets;
      && (plan.Refuse? || plan.Keep? ==> after == s.secrets)
      && ValueOf(after, sk) == Outcome(ValueOf(s.secrets, sk), plan) && after - {sk} == s.secrets - {sk}
  {
  }

  lemma PassSettles(s: State, k: CRKey, sk: SKey, want: Desired)
    requires ReadyToPass(s, k) && !NextPlan(s, k, s.crs[k], sk, want).Refuse?
    ensures Settled(PassEnd(s, k, sk, want), k, s.crs[k], sk, want)
    ensures NextPlan(PassEnd(s, k, sk, want), k, s.crs[k], sk, want) == Keep
  {
    WriteLands(s, k, sk, want);
    ApplyConverges(ValueOf(s.secrets, sk), s.crs[k].spec.adopt, k, s.crs[k].uid, want);
  }

  lemma PassEndReady(s: State, k: CRKey, sk: SKey, want: Desired)
    requires VersionsOk(s) && ReadyToPass(s, k)
    ensures var s' := PassEnd(s, k, sk, want);
      VersionsOk(s') && ReadyToPass(s', k) && s'.crs[k].spec == s.crs[k].spec && s'.crs[k].uid == s.crs[k].uid
  {
  }

  /**
   Convergence of a whole reconcile. From any reachable state, a pass on a Secret the guard
   admits (missing, drifted, adopted) leaves exactly the derived data, owned and stamped, and
   touches no other Secret; repeating the pass with the same input leaves every Secret as it
   is, resource versions included. A pass the guard refuses changes no Secret at all.
   */
  lemma PassConverges(s: State, k: CRKey, input: Input, sk: SKey, want: Desired)
    requires Inv(s) && ReadyToPass(s, k)
    requires Derived(k, s.crs[k].spec, input) == Some((sk, want))
    ensures IsRun(s, Pass(s, k, sk, input))
    ensures NextPlan(s, k, s.crs[k], sk, want).Refuse? ==> Exec(s, Pass(s, k, sk, input)).secrets == s.secrets
    ensures !NextPlan(s, k, s.crs[k], sk, want).Refuse? ==>
      var s' := Exec(s, Pass(s, k, sk, input));
      && Settled(s', k, s.crs[k], sk, want)
      && s'.secrets - {sk} == s.secrets - {sk} && k in s'.crs
      && IsRun(s', Pass(s', k, sk, input)) && Exec(s', Pass(s', k, sk, input)).secrets == s'.secrets
  {
    PassRuns(s, k, input, sk, want);
    WriteLands(s, k, sk, want);
    if !NextPlan(s, k, s.crs[k], sk, want).Refuse? {
      PassSettles(s, k, sk, want);
      var s' := PassEnd(s, k, sk, want);
      PassEndReady(s, k, sk, want);
      PassRuns(s', k, input, sk, want);
      WriteLands(s', k, sk, want);
    }
  }

  /**
   In mapping mode the hash stamped on the Secret that a pass leaves is the hash of the data in
   that very Secret, and the data is what the mappings ask for.
   */
  lemma MappingHashMatches(s: State, k: CRKey, input: Input, sk: SKey, want: Desired)
    requires Inv(s) && ReadyToPass(s, k) && EffectiveMode(k, s.crs[k].spec.target) == MappingMode
    requires Derived(k, s.crs[k].spec, input) == Some((sk, want)) && !NextPlan(s, k, s.crs[k], sk, want).Refuse?
    ensures IsRun(s, Pass(s, k, sk, input))
    ensures var left := Exec(s, Pass(s, k, sk, input)).secrets;
      && sk in left && Lookup(left[sk].obj.annotations, CONTENT_HASH_ANNOTATION) == ContentHashOf(left[sk].obj.data)
      && input.FlatFile? && Realizes(input.flat, s.crs[k].spec.mappings, left[sk].obj.data)
  {
    PassRuns(s, k, input, sk, want);
    PassSettles(s, k, sk, want);
    MappingHashed(k, s.crs[k].spec, input, sk, want);
  }

  lemma MappingHashed(k: CRKey, spec: Spec, input: Input, sk: SKey, want: Desired)
    requires Derived(k, spec, input) == Some((sk, want)) && EffectiveMode(k, spec.target) == MappingMode
    ensures want.hash == ContentHashOf(want.Payload())
    ensures input.FlatFile? && Realizes(input.flat, spec.mappings, want.Payload())
  {
    MappingIsFailClosed(input.flat, spec.mappings);
  }

  /** In manifest mode it is the hash of the manifest's type and of the data in that very Secret. */
  lemma ManifestHashMatches(s: State, k: CRKey, input: Input, sk: SKey, want: Desired)
    requires Inv(s) && ReadyToPass(s, k) && EffectiveMode(k, s.crs[k].spec.target) == ManifestMode
    requires Derived(k, s.crs[k].spec, input) == Some((sk, want)) && !NextPlan(s, k, s.crs[k], sk, want).Refuse?
    ensures IsRun(s, Pass(s, k, sk, input)) && input.ManifestFile?
    ensures var left := Exec(s, Pass(s, k, sk, input)).secrets;
      && sk in left && left[sk].obj.data == input.parsed.data + input.parsed.stringData
      && Lookup(left[sk].obj.annotations, CONTENT_HASH_ANNOTATION)
        == ContentHash(EncodeManifest(input.parsed.typ, left[sk].obj.data))
  {
    PassRuns(s, k, input, sk, want);
    PassSettles(s, k, sk, want);
    ManifestHashed(k, s.crs[k].spec, input, sk, want);
  }

  lemma ManifestHashed(k: CRKey, spec: Spec, input: Input, sk: SKey, want: Desired)
    requires Derived(k, spec, input) == Some((sk, want)) && EffectiveMode(k, spec.target) == ManifestMode
    ensures input.ManifestFile? && want.Payload() == input.parsed.data + input.parsed.stringData
    ensures want.hash == ContentHash(EncodeManifest(input.parsed.typ, want.Payload()))
  {
  }

  // ---- fail-closed derivation -------------------------------------------------------------

  /**
   What a reconcile applies, for each kind and mode, in terms of the spec and the input. Mappings
   are applied if and only if the source is a flat file that has every key they name; a
   manifest if and only if it parsed as one and somebody gives a name; a mode that does not
   exist applies nothing. Type, revision and content are those of spec and input.
   */
  lemma AppliesExactly(k: CRKey, spec: Spec, input: Input)
    ensures var d := Derived(k, spec, input);
      && (UsesMappings(k, spec.target) ==>
          (d.Some? <==> input.FlatFile? && forall m :: m in spec.mappings ==> m.from in input.flat))
      && (UsesMappings(k, spec.target) && d.Some? ==> AppliesMappings(k, spec, input, d.value.0, d.value.1))
      && (UsesManifest(k, spec.target) ==>
          (d.Some? <==> input.ManifestFile? && (spec.target.name != "" || input.parsed.name != "")))
      && (UsesManifest(k, spec.target) && d.Some? ==> AppliesManifest(k, spec, input, d.value.0, d.value.1))
      && (!UsesMappings(k, spec.target) && !UsesManifest(k, spec.target) ==> d.None?)
  {
    ModeExact(k, spec.target);
    if UsesMappings(k, spec.target) && input.FlatFile? {
      MappingIsFailClosed(input.flat, spec.mappings);
    }
  }

  ghost predicate AppliesMappings(k: CRKey, spec: Spec, input: Input, sk: SKey, want: Desired)
    requires input.FlatFile?
  {
    && sk.ns == (if spec.target.ns != "" then spec.target.ns else k.ns)
    && sk.name == (if spec.target.name != "" then spec.target.name else k.name)
    && Realizes(input.flat, spec.mappings, want.Payload()) && want.hash == "sha256:" + Sha256Hex(Encode(want.Payload()))
    && want == (if k.kind == SopsSecret then MappingSecret(want.Payload(), want.hash, input.revision, spec.typ)
                else InlineMappingSecret(want.Payload(), want.hash, spec.typ))
  }

  ghost predicate AppliesManifest(k: CRKey, spec: Spec, input: Input, sk: SKey, want: Desired)
    requires input.ManifestFile?
  {
    var merged := input.parsed.(data := input.parsed.data + input.parsed.stringData, stringData := map[]);
    && sk.ns == (if spec.target.ns != "" then spec.target.ns else k.ns)
    && sk.name == (if spec.target.name != "" then spec.target.name else input.parsed.name)
    && want.hash == "sha256:" + Sha256Hex("type=" + merged.typ + [NUL] + Encode(merged.data))
    && want == (if k.kind == SopsSecretManifest then ManifestSecret(merged, want.hash, input.revision)
                else InlineManifestSecret(merged, want.hash, spec.typ))
  }

  /**
   A reconcile of a live resource without the finalizer does nothing but add it, and the next
   one derives; one of a deleting resource releases while it has the finalizer, and does
   nothing afterwards.
   */
  lemma FinalizerFirst(s: State, k: CRKey)
    requires PcOf(s, k).Idle? && ValidKey(k) && k in s.crs && CRVersion(k, s.crs[k]) in s.pastCrs
    ensures var cr, read := s.crs[k], ReadCR(k, Some(s.crs[k]));
      && Enabled(s, read)
      && (!cr.deleting && cr.finalizer ==> PcOf(After(s, read), k) == Deriving(cr))
      && (cr.deleting && cr.finalizer ==> PcOf(After(s, read), k) == Releasing(cr))
      && (cr.deleting && !cr.finalizer ==> PcOf(After(s, read), k) == Idle)
    ensures !s.crs[k].deleting && !s.crs[k].finalizer ==>
      exists t :: Leads(s, [ReadCR(k, Some(s.crs[k])), AddFinalizer(k)], t)
        && Live(t, k) && t.crs[k].spec == s.crs[k].spec && t.secrets == s.secrets && PcOf(t, k).Idle?
  {
    var read := After(s, ReadCR(k, Some(s.crs[k])));
    if !s.crs[k].deleting && !s.crs[k].finalizer {
      assert PcOf(read, k) == AddingFinalizer(s.crs[k]);
      Leads2(s, ReadCR(k, Some(s.crs[k])), read, AddFinalizer(k), After(read, AddFinalizer(k)));
    }
  }

  /**
   A mapping that cannot be served stops the reconcile before it reads or writes any Secret:
   the derivation fails exactly when a source key is missing (or the source is not a flat
   file), and from there the reconcile only reports and ends.
   */
  lemma MissingKeyWritesNothing(s: State, k: CRKey, input: Input)
    requires PcOf(s, k).Deriving? && EffectiveMode(k, PcOf(s, k).cr.spec.target) == MappingMode
    ensures var spec := PcOf(s, k).cr.spec;
      PcOf(After(s, Derive(k, input)), k).Reporting? <==>
        !input.FlatFile? || exists i :: 0 <= i < |spec.mappings| && spec.mappings[i].from !in input.flat
    ensures After(s, Derive(k, input)).secrets == s.secrets
  {
    var spec := PcOf(s, k).cr.spec;
    if input.FlatFile? {
      MappingIsFailClosed(input.flat, spec.mappings);
    }
  }

  lemma ReportingWritesNoSecret(s: State, step: Step, k: CRKey)
    requires PcOf(s, k).Reporting? && Enabled(s, step) && step.By(k)
    ensures After(s, step).secrets == s.secrets && PcOf(After(s, step), k) == Idle
  {
  }

  /**
   A manifest cannot redirect the write: its own namespace has no influence on whether the
   write happens, on where the Secret goes, which is always in the resource's effective
   namespace, or on what is written.
   */
  lemma ManifestCannotRedirect(k: CRKey, spec: Spec, parsed: Manifest, revision: string, elsewhere: string)
    requires EffectiveMode(k, spec.target) == ManifestMode
    ensures var d := Derived(k, spec, ManifestFile(parsed, revision));
      var e := Derived(k, spec, ManifestFile(parsed.(ns := elsewhere), revision));
      && (d.None? <==> KnownName(k, spec.target).None? && parsed.name == "")
      && (d.None? <==> e.None?)
      && (d.Some? ==> d.value.0.ns == EffectiveNamespace(k, spec.target) && d.value.0 == e.value.0)
      && (d.Some? ==> SameEffect(d.value.1, e.value.1))
      && (d.Some? ==> d.value.1.Payload() == parsed.data + parsed.stringData)
  {
    var there := parsed.(ns := elsewhere);
    DerivedManifest(k, spec, parsed, revision);
    DerivedManifest(k, spec, there, revision);
    ElsewhereSameEffect(k, spec, Normalized(parsed), elsewhere, revision);
  }

  function FromManifest(k: CRKey, spec: Spec, parsed: Manifest, hash: string, revision: string): Desired {
    if k.kind == InlineSopsSecret then InlineManifestSecret(parsed, hash, spec.typ)
    else ManifestSecret(parsed, hash, revision)
  }

  lemma DerivedManifest(k: CRKey, spec: Spec, parsed: Manifest, revision: string)
    requires EffectiveMode(k, spec.target) == ManifestMode
    ensures var d := Derived(k, spec, ManifestFile(parsed, revision));
      var sk := WriteTarget(k, spec.target, parsed.name);
      && (sk.None? <==> KnownName(k, spec.target).None? && parsed.name == "")
      && (sk.Some? ==> sk.value.ns == EffectiveNamespace(k, spec.target))
      && d == if sk.None? then None
        else Some((sk.value, FromManifest(k, spec, Normalized(parsed), ManifestHashOf(Normalized(parsed)), revision)))
  {
  }

  /** Neither the hash nor the written Secret depends on the namespace a manifest names. */
  lemma ElsewhereSameEffect(k: CRKey, spec: Spec, parsed: Manifest, elsewhere: string, revision: string)
    ensures var there := parsed.(ns := elsewhere);
      SameEffect(
        FromManifest(k, spec, parsed, ManifestHashOf(parsed), revision),
        FromManifest(k, spec, there, ManifestHashOf(there), revision))
  {
  }

  ghost predicate SameEffect(a: Desired, b: Desired) {
    forall base, owner, uid :: Stamped(base, owner, uid, a) == Stamped(base, owner, uid, b)
  }
}
