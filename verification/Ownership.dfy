/**
 The ownership protocol as a state machine. Any number of consumer resources of three kinds
 are reconciled against one API server. Each reconcile is a small program whose steps
 interleave with those of every other resource, with user edits and with external writers;
 reconciles of one resource are serial. The step functions use the same guard, stamps and
 target rules as the apply closures.

 The client reads through a cache: every Get and every List, of resources and of Secrets, may
 show versions of the past. Only writes see the current versions, through compare-and-swap.
 */
module Ownership {
  import opened Wrappers
  import opened Flat
  import opened Secrets
  import opened Manifests
  import opened Targets
  import opened ApiServers

  // ---- state ------------------------------------------------------------------------------

  datatype Spec = Spec(target: Target, adopt: bool, typ: string, mappings: seq<DataMapping>)

  /** A consumer resource as stored: `rv` its resource version, `deleting` its deletion timestamp. */
  datatype CR = CR(uid: string, rv: nat, deleting: bool, finalizer: bool, spec: Spec)

  /** One version of one Secret. */
  datatype Version = Version(sk: SKey, stored: Stored)

  /** Where the reconcile of one resource stands; `cr` is the copy it read at the start. */
  datatype Pc =
    | Idle
    | AddingFinalizer(cr: CR)
    | Deriving(cr: CR)
    | Applying(cr: CR, sk: SKey, want: Desired)
    | Writing(cr: CR, sk: SKey, want: Desired, snap: Option<Stored>)
    | Reporting(cr: CR)
    | Releasing(cr: CR)
    | Deleting(cr: CR, todo: seq<Version>, listed: seq<Version>)
    | DroppingFinalizer(cr: CR, listed: seq<Version>)

  datatype CRVersion = CRVersion(k: CRKey, cr: CR)

  /** `past` and `pastCrs` hold every version that was ever stored, for readers that lag behind. */
  datatype State = State(
    crs: map<CRKey, CR>, pastCrs: set<CRVersion>, secrets: map<SKey, Stored>, past: set<Version>, clock: nat,
    pcs: map<CRKey, Pc>)

  function PcOf(s: State, k: CRKey): Pc {
    if k in s.pcs then s.pcs[k] else Idle
  }

  function At(s: State, k: CRKey, pc: Pc): State {
    s.(pcs := s.pcs[k := pc])
  }

  predicate Owned(s: State, sk: SKey, k: CRKey) {
    sk in s.secrets && OwnedBy(s.secrets[sk].obj, k)
  }

  /** What fetching, decrypting and parsing the source came to; only success carries content. */
  datatype Input =
    | SourceFailed
    | FlatFile(flat: map<string, string>, revision: string)
    | ManifestFile(parsed: Manifest, revision: string)

  // ---- steps ------------------------------------------------------------------------------

  datatype Step =
    | ReadCR(k: CRKey, seen: Option<CR>)
    | Abort(k: CRKey)
    | AddFinalizer(k: CRKey)
    | Derive(k: CRKey, input: Input)
    | GetSecret(k: CRKey, snap: Option<Stored>)
    | Write(k: CRKey)
    | Report(k: CRKey)
    | ListOwned(k: CRKey, todo: seq<Version>)
    | DeleteNext(k: CRKey)
    | DropFinalizer(k: CRKey)
    | UserCreate(k: CRKey, cr: CR)
    | UserEdit(k: CRKey, spec: Spec)
    | UserDelete(k: CRKey)
    | External(sk: SKey, value: Option<SecretValue>)
  {
    /** Steps of the controller working on `key`. */
    predicate By(key: CRKey) {
      !UserCreate? && !UserEdit? && !UserDelete? && !External? && k == key
    }
  }

  function Start(cr: CR): Pc {
    if !cr.deleting then (if cr.finalizer then Deriving(cr) else AddingFinalizer(cr))
    else if cr.finalizer then Releasing(cr) else Idle
  }

  /** The pipeline between reading the CR and applying: None is a failure reported on the status. */
  ghost function Derived(k: CRKey, spec: Spec, input: Input): Option<(SKey, Desired)> {
    match EffectiveMode(k, spec.target)
    case UnknownMode => None
    case MappingMode =>
      if !input.FlatFile? then None else
      var mapped := Mapped(input.flat, spec.mappings);
      var sk := WriteTarget(k, spec.target, "");
      if mapped.Err? || sk.None? then None else
      var hash := ContentHashOf(mapped.value);
      Some((sk.value,
        if k.kind == InlineSopsSecret then InlineMappingSecret(mapped.value, hash, spec.typ)
        else MappingSecret(mapped.value, hash, input.revision, spec.typ)))
    case ManifestMode =>
      if !input.ManifestFile? then None else
      var parsed := Normalized(input.parsed);
      var sk := WriteTarget(k, spec.target, parsed.name);
      if sk.None? then None else
      var hash := ManifestHashOf(parsed);
      Some((sk.value,
        if k.kind == InlineSopsSecret then InlineManifestSecret(parsed, hash, spec.typ)
        else ManifestSecret(parsed, hash, input.revision)))
  }

  ghost function ContentHashOf(data: DataMap): string {
    ContentHash(Encode(data))
  }

  ghost function ManifestHashOf(m: Manifest): string {
    ContentHash(EncodeManifest(m.typ, m.data))
  }

  /**
   What `List` (scan) or `Get` (by name) may show the finalizer: versions of the past, each
   Secret at most once, and any of them missing. By name only what is owned goes on the list.
   */
  ghost predicate MayList(s: State, k: CRKey, t: Target, todo: seq<Version>) {
    && (forall v :: v in todo ==> v in s.past && InReach(k, t, v.sk) && Managed(v.stored.obj))
    && (forall i, j :: 0 <= i < j < |todo| ==> todo[i].sk != todo[j].sk)
    && (KnownName(k, t).Some? ==> forall v :: v in todo ==> OwnedBy(v.stored.obj, k))
  }

  ghost predicate Enabled(s: State, step: Step) {
    match step
    case ReadCR(k, seen) =>
      PcOf(s, k) == Idle && ValidKey(k) && (seen.Some? ==> CRVersion(k, seen.value) in s.pastCrs)
    case Abort(k) => PcOf(s, k) != Idle
    case AddFinalizer(k) => PcOf(s, k).AddingFinalizer?
    case Derive(k, _) => PcOf(s, k).Deriving?
    case GetSecret(k, snap) =>
      PcOf(s, k).Applying? && (snap.Some? ==> Version(PcOf(s, k).sk, snap.value) in s.past)
    case Write(k) => PcOf(s, k).Writing?
    case Report(k) => PcOf(s, k).Reporting?
    case ListOwned(k, todo) =>
      PcOf(s, k).Releasing? && MayList(s, k, PcOf(s, k).cr.spec.target, todo)
    case DeleteNext(k) => PcOf(s, k).Deleting?
    case DropFinalizer(k) => PcOf(s, k).DroppingFinalizer?
    case UserCreate(k, cr) => ValidKey(k) && k !in s.crs && cr.rv == s.clock && !cr.deleting
    case UserEdit(k, _) => k in s.crs
    case UserDelete(k) => k in s.crs
    case External(sk, value) => value.Some? || sk in s.secrets
  }

  function Store(s: State, sk: SKey, v: SecretValue): State {
    var stored := Stored(s.clock, v);
    s.(secrets := s.secrets[sk := stored], past := s.past + {Version(sk, stored)}, clock := s.clock + 1)
  }

  predicate Current(s: State, k: CRKey, cr: CR) {
    k in s.crs && s.crs[k].rv == cr.rv
  }

  function PutCR(s: State, k: CRKey, cr: CR): State {
    var cr := cr.(rv := s.clock);
    s.(crs := s.crs[k := cr], pastCrs := s.pastCrs + {CRVersion(k, cr)}, clock := s.clock + 1)
  }

  function PlanOf(k: CRKey, pc: Pc): Plan
    requires pc.Writing?
  {
    PlanApply(
      if pc.snap.Some? then Some(pc.snap.value.obj) else None, pc.cr.spec.adopt, OwnerKey(k), pc.cr.uid, pc.want)
  }

  /** Create fails on an existing Secret, update unless the version that was read is still current. */
  function AfterWrite(s: State, k: CRKey, pc: Pc): State
    requires pc.Writing?
  {
    match PlanOf(k, pc)
    case Create(v) => if pc.sk in s.secrets then s else Store(s, pc.sk, v)
    case Update(v) =>
      if pc.snap.Some? && pc.sk in s.secrets && s.secrets[pc.sk].rv == pc.snap.value.rv then Store(s, pc.sk, v) else s
    case _ => s
  }

  ghost function After(s: State, step: Step): State
    requires Enabled(s, step)
  {
    match step
    case ReadCR(k, seen) => At(s, k, if seen.Some? then Start(seen.value) else Idle)
    case Abort(k) => At(s, k, Idle)
    case AddFinalizer(k) =>
      var cr := PcOf(s, k).cr;
      At(if Current(s, k, cr) then PutCR(s, k, cr.(finalizer := true)) else s, k, Idle)
    case Derive(k, input) =>
      var cr := PcOf(s, k).cr;
      var d := Derived(k, cr.spec, input);
      At(s, k, if d.None? then Reporting(cr) else Applying(cr, d.value.0, d.value.1))
    case GetSecret(k, snap) =>
      var pc := PcOf(s, k);
      At(s, k, Writing(pc.cr, pc.sk, pc.want, snap))
    case Write(k) => At(AfterWrite(s, k, PcOf(s, k)), k, Reporting(PcOf(s, k).cr))
    case Report(k) =>
      var cr := PcOf(s, k).cr;
      At(if Current(s, k, cr) then PutCR(s, k, cr) else s, k, Idle)
    case ListOwned(k, todo) => At(s, k, Deleting(PcOf(s, k).cr, todo, todo))
    case DeleteNext(k) =>
      var pc := PcOf(s, k);
      if pc.todo == [] then At(s, k, DroppingFinalizer(pc.cr, pc.listed))
      else
        var v := pc.todo[0];
        At(if OwnedBy(v.stored.obj, k) then s.(secrets := s.secrets - {v.sk}) else s,
          k, Deleting(pc.cr, pc.todo[1..], pc.listed))
    case DropFinalizer(k) =>
      At(if Current(s, k, PcOf(s, k).cr) then s.(crs := s.crs - {k}) else s, k, Idle)
    case UserCreate(k, cr) => PutCR(s, k, cr)
    case UserEdit(k, spec) => PutCR(s, k, s.crs[k].(spec := spec))
    case UserDelete(k) =>
      if s.crs[k].finalizer then PutCR(s, k, s.crs[k].(deleting := true)) else s.(crs := s.crs - {k})
    case External(sk, value) =>
      if value.Some? then Store(s, sk, value.value) else s.(secrets := s.secrets - {sk})
  }

  // ---- runs -------------------------------------------------------------------------------

  ghost predicate IsRun(s: State, run: seq<Step>)
    decreases |run|
  {
    run == [] || (Enabled(s, run[0]) && IsRun(After(s, run[0]), run[1..]))
  }

  ghost function Exec(s: State, run: seq<Step>): State
    requires IsRun(s, run)
    decreases |run|
  {
    if run == [] then s else Exec(After(s, run[0]), run[1..])
  }

  /** The operator starts with no reconcile under way; the cluster is arbitrary. */
  ghost predicate Init(s: State) {
    && s.pcs == map[]
    && (forall k :: k in s.crs ==> ValidKey(k) && s.crs[k].rv < s.clock)
    && (forall sk :: sk in s.secrets ==> s.secrets[sk].rv < s.clock)
    && s.past == (set sk | sk in s.secrets :: Version(sk, s.secrets[sk]))
    && s.pastCrs == set k | k in s.crs :: CRVersion(k, s.crs[k])
  }

  // ---- invariant of every run -------------------------------------------------------------

  /** Versions identify contents, so a compare-and-swap that succeeds saw the current Secret. */
  ghost predicate VersionsOk(s: State) {
    && (forall sk :: sk in s.secrets ==> Version(sk, s.secrets[sk]) in s.past)
    && (forall v :: v in s.past ==> v.stored.rv < s.clock)
    && (forall v, w :: v in s.past && w in s.past && v.sk == w.sk && v.stored.rv == w.stored.rv ==> v == w)
  }

  ghost predicate KeysOk(s: State) {
    && (forall k :: k in s.crs ==> CRVersion(k, s.crs[k]) in s.pastCrs)
    && (forall v :: v in s.pastCrs ==> ValidKey(v.k) && v.cr.rv < s.clock)
    && (forall v, w :: v in s.pastCrs && w in s.pastCrs && v.k == w.k && v.cr.rv == w.cr.rv ==> v == w)
  }

  predicate Live(s: State, k: CRKey) {
    k in s.crs && s.crs[k].finalizer
  }

  /** `sk` is an entry of the list that the finalizer deletes for `k`. */
  predicate Scheduled(todo: seq<Version>, k: CRKey, sk: SKey) {
    exists i :: 0 <= i < |todo| && todo[i].sk == sk && OwnedBy(todo[i].stored.obj, k)
  }

  /** The copy a reconcile works on is a version of the resource. */
  predicate CopyOk(s: State, k: CRKey, cr: CR) {
    CRVersion(k, cr) in s.pastCrs
  }

  predicate HasFinalizer(pc: Pc) {
    !pc.Idle? && !pc.AddingFinalizer? ==> pc.cr.finalizer
  }

  ghost predicate PcOk(s: State, k: CRKey) {
    var pc := PcOf(s, k);
    && (!pc.Idle? ==> CopyOk(s, k, pc.cr)) && HasFinalizer(pc)
    && match pc
       case Applying(cr, sk, _) => InReach(k, cr.spec.target, sk)
       case Writing(cr, sk, _, snap) =>
         InReach(k, cr.spec.target, sk) && (snap.Some? ==> Version(sk, snap.value) in s.past)
       case Deleting(cr, todo, listed) =>
         forall sk :: Owned(s, sk, k) && Scheduled(listed, k, sk) ==> Scheduled(todo, k, sk)
       case DroppingFinalizer(cr, listed) =>
         forall sk :: Owned(s, sk, k) ==> !Scheduled(listed, k, sk)
       case _ => true
  }

  ghost predicate Inv(s: State) {
    VersionsOk(s) && KeysOk(s) && forall k :: PcOk(s, k)
  }

  /**
   External writers do not forge: a Secret they write names resource `k` as managing owner
   only if the Secret they replaced did. They may do anything else, deleting included.
   */
  ghost predicate NotForged(s: State, step: Step) {
    step.External? && step.value.Some? ==>
      forall k :: ValidKey(k) && OwnedBy(step.value.value, k) ==> Owned(s, step.sk, k)
  }

  /** No owner is forged along the run. */
  ghost predicate Unforged(s: State, run: seq<Step>)
    requires IsRun(s, run)
    decreases |run|
  {
    run == [] || (NotForged(s, run[0]) && Unforged(After(s, run[0]), run[1..]))
  }

  lemma InitInv(s: State)
    requires Init(s)
    ensures Inv(s)
  {
  }

  lemma WorkingKey(s: State, k: CRKey)
    requires KeysOk(s) && PcOk(s, k) && !PcOf(s, k).Idle?
    ensures ValidKey(k)
  {
  }

  /** Only its own controller makes a Secret owned by `k`, in the target it read for `k`. */
  lemma WriteOwner(s: State, step: Step, sk: SKey, k: CRKey)
    requires Inv(s) && Enabled(s, step) && NotForged(s, step) && ValidKey(k)
    requires Owned(After(s, step), sk, k) && !Owned(s, sk, k)
    ensures step == Write(k) && InReach(k, PcOf(s, k).cr.spec.target, sk)
  {
    if step.Write? {
      WriteGives(s, step.k, sk, k);
    } else if !step.External? {
      OthersShrink(s, step);
    }
  }

  lemma WriteGives(s: State, w: CRKey, sk: SKey, k: CRKey)
    requires Inv(s) && Enabled(s, Write(w)) && ValidKey(k)
    requires Owned(After(s, Write(w)), sk, k) && !Owned(s, sk, k)
    ensures w == k && InReach(k, PcOf(s, k).cr.spec.target, sk)
  {
    var pc := PcOf(s, w);
    assert PcOk(s, w);
    WorkingKey(s, w);
    StampedOwner(if pc.snap.Some? then pc.snap.value.obj else BLANK, w, pc.cr.uid, pc.want);
  }

  lemma StoreOk(s: State, sk: SKey, v: SecretValue)
    requires VersionsOk(s)
    ensures VersionsOk(Store(s, sk, v))
  {
  }

  /** No Secret is new or changed. */
  ghost predicate Shrinks(s: State, t: State) {
    && t.past == s.past && s.clock <= t.clock
    && forall sk :: sk in t.secrets ==> sk in s.secrets && t.secrets[sk] == s.secrets[sk]
  }

  lemma ShrinksOk(s: State, t: State)
    requires VersionsOk(s) && Shrinks(s, t)
    ensures VersionsOk(t)
  {
  }

  lemma OthersShrink(s: State, step: Step)
    requires Enabled(s, step) && !step.Write? && !step.External?
    ensures Shrinks(s, After(s, step))
  {
  }

  lemma VersionsStep(s: State, step: Step)
    requires Inv(s) && Enabled(s, step)
    ensures VersionsOk(After(s, step))
  {
    match step
    case External(sk, value) =>
      if value.Some? {
        StoreOk(s, sk, value.value);
      } else {
        ShrinksOk(s, After(s, step));
      }
    case Write(k) => WriteVersions(s, k);
    case _ =>
      OthersShrink(s, step);
      ShrinksOk(s, After(s, step));
  }

  lemma WriteVersions(s: State, k: CRKey)
    requires VersionsOk(s) && PcOf(s, k).Writing?
    ensures VersionsOk(AfterWrite(s, k, PcOf(s, k)))
  {
    var pc := PcOf(s, k);
    match PlanOf(k, pc)
    case Create(v) => StoreOk(s, pc.sk, v);
    case Update(v) => StoreOk(s, pc.sk, v);
    case _ =>
  }

  lemma PutOk(s: State, k: CRKey, cr: CR)
    requires KeysOk(s) && ValidKey(k)
    ensures KeysOk(PutCR(s, k, cr))
  {
  }

  /** No resource is new or changed. */
  ghost predicate CrsShrink(s: State, t: State) {
    && t.pastCrs == s.pastCrs && s.clock <= t.clock
    && forall k :: k in t.crs ==> k in s.crs && t.crs[k] == s.crs[k]
  }

  lemma CrsShrinkOk(s: State, t: State)
    requires KeysOk(s) && CrsShrink(s, t)
    ensures KeysOk(t)
  {
  }

  /** A step that stores a version of a resource. */
  predicate Stores(step: Step) {
    step.AddFinalizer? || step.Report? || step.UserCreate? || step.UserEdit? || step.UserDelete?
  }

  lemma OthersShrinkCrs(s: State, step: Step)
    requires Enabled(s, step) && !Stores(step)
    ensures CrsShrink(s, After(s, step))
  {
  }

  lemma StoredCr(s: State, step: Step)
    requires Inv(s) && Enabled(s, step) && Stores(step)
    ensures KeysOk(After(s, step))
  {
    match step
    case AddFinalizer(k) =>
      assert PcOk(s, k);
      WorkingKey(s, k);
      PutOk(s, k, PcOf(s, k).cr.(finalizer := true));
    case Report(k) =>
      assert PcOk(s, k);
      WorkingKey(s, k);
      PutOk(s, k, PcOf(s, k).cr);
    case UserCreate(k, cr) => PutOk(s, k, cr);
    case UserEdit(k, spec) => PutOk(s, k, s.crs[k].(spec := spec));
    case UserDelete(k) =>
      PutOk(s, k, s.crs[k].(deleting := true));
      CrsShrinkOk(s, s.(crs := s.crs - {k}));
    case _ =>
  }

  lemma KeysStep(s: State, step: Step)
    requires Inv(s) && Enabled(s, step)
    ensures KeysOk(After(s, step))
  {
    if Stores(step) {
      StoredCr(s, step);
    } else {
      OthersShrinkCrs(s, step);
      CrsShrinkOk(s, After(s, step));
    }
  }

  lemma PcKept(s: State, t: State, k: CRKey)
    requires PcOk(s, k) && PcOf(t, k) == PcOf(s, k) && s.past <= t.past && s.pastCrs <= t.pastCrs
    requires !PcOf(s, k).Idle? ==> forall sk :: Owned(t, sk, k) ==> Owned(s, sk, k)
    ensures PcOk(t, k)
  {
  }

  lemma OtherKeeps(s: State, step: Step, k: CRKey)
    requires Enabled(s, step) && !step.By(k)
    ensures PcOf(After(s, step), k) == PcOf(s, k)
  {
  }

  lemma PastGrows(s: State, step: Step)
    requires Enabled(s, step)
    ensures s.past <= After(s, step).past && s.pastCrs <= After(s, step).pastCrs
  {
  }

  lemma PcStepOther(s: State, step: Step, k: CRKey)
    requires Inv(s) && Enabled(s, step) && NotForged(s, step) && !step.By(k)
    ensures PcOk(After(s, step), k)
  {
    var s' := After(s, step);
    assert PcOk(s, k);
    OtherKeeps(s, step, k);
    PastGrows(s, step);
    if !PcOf(s, k).Idle? {
      WorkingKey(s, k);
      forall sk | Owned(s', sk, k) ensures Owned(s, sk, k) {
        if !Owned(s, sk, k) {
          WriteOwner(s, step, sk, k);
        }
      }
    }
    PcKept(s, s', k);
  }

  lemma PcStepOwn(s: State, step: Step, k: CRKey)
    requires Inv(s) && Enabled(s, step) && step.By(k)
    ensures PcOk(After(s, step), k)
  {
    assert PcOk(s, k);
    match step
    case DeleteNext(_) => DeletedNext(s, k);
    case _ => PcStepApply(s, step, k);
  }

  lemma PcStepApply(s: State, step: Step, k: CRKey)
    requires Enabled(s, step) && step.By(k) && PcOk(s, k) && !step.DeleteNext?
    ensures PcOk(After(s, step), k)
  {
  }

  lemma DeletedNext(s: State, k: CRKey)
    requires Enabled(s, DeleteNext(k)) && PcOk(s, k)
    ensures PcOk(After(s, DeleteNext(k)), k)
  {
    var s', pc := After(s, DeleteNext(k)), PcOf(s, k);
    forall sk | Owned(s', sk, k) && Scheduled(pc.listed, k, sk)
      ensures pc.todo != [] && Scheduled(pc.todo[1..], k, sk)
    {
      assert Owned(s, sk, k) && Scheduled(pc.todo, k, sk);
      StillScheduled(pc.todo, k, sk);
    }
  }

  /** What is scheduled is the next entry or stays scheduled. */
  lemma StillScheduled(todo: seq<Version>, k: CRKey, sk: SKey)
    requires Scheduled(todo, k, sk)
    ensures todo != [] && ((todo[0].sk == sk && OwnedBy(todo[0].stored.obj, k)) || Scheduled(todo[1..], k, sk))
  {
    var i :| 0 <= i < |todo| && todo[i].sk == sk && OwnedBy(todo[i].stored.obj, k);
    if i > 0 {
      assert todo[1..][i - 1] == todo[i];
    }
  }

  lemma InvStep(s: State, step: Step)
    requires Inv(s) && Enabled(s, step) && NotForged(s, step)
    ensures Inv(After(s, step))
  {
    VersionsStep(s, step);
    KeysStep(s, step);
    forall k ensures PcOk(After(s, step), k) {
      if step.By(k) {
        PcStepOwn(s, step, k);
      } else {
        PcStepOther(s, step, k);
      }
    }
  }
}
