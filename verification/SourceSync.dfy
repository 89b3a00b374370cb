/**
 The reconcile loop of one source, a GitRepository or an ObjectSource, as steps: read the
 resource, drop the cache if a force-sync token is pending, check the spec, resolve the
 credential, refresh the cache, update the status under optimistic concurrency. Between any
 two steps users edit, delete and recreate the resource, attempts are abandoned, the process
 restarts, and the resource may be read in an old version.
 */
module SourceSync {
  import opened Wrappers
  import opened ObjectEntries
  import opened Conditions

  datatype SourceKind = GitRepository | ObjectSource

  datatype Spec = Spec(url: string, bucket: bool)

  /** A version of the resource. */
  datatype CR = CR(rv: nat, generation: nat, spec: Spec, token: string, deleting: bool, status: Status)

  /** The force-sync annotation is set and not the token processed last. */
  predicate Pending(cr: CR) {
    cr.token != "" && cr.token != cr.status.lastToken
  }

  predicate SpecOk(kind: SourceKind, spec: Spec) {
    kind.GitRepository? || (spec.url != "") != spec.bucket
  }

  function ModeOf(kind: SourceKind, spec: Spec): Mode {
    if kind.ObjectSource? && spec.bucket then Bucket else URL
  }

  /**
   `sent` is history: the tag the refresh sent along, or the commit it updated from; empty for
   an unconditional GET or a new clone.
   */
  datatype Pc =
    | Idle
    | Loaded(cr: CR)
    | Checked(cr: CR)
    | Refreshing(cr: CR)
    | Finished(cr: CR, outcome: Outcome, sent: Option<string>)

  /** The cluster's resource and all its past versions, and this process's cache entry for it. */
  datatype State = State(kind: SourceKind, cr: Option<CR>, past: set<CR>, clock: nat, entry: Option<EntryValue>, pc: Pc)

  function Start(kind: SourceKind): State {
    State(kind, None, {}, 0, None, Idle)
  }

  datatype Step =
    | ReadCR(version: Option<CR>)
    | ForceSync
    | Resolve(failure: Option<string>)
    | Get(fetcher: Fetcher, message: string)
    | Clone(sha: Option<string>, wiped: bool, message: string)
    | UpdateStatus(attempt: Attempt)
    | Abandon
    | Restart
    | UserCreate(spec: Spec, token: string)
    | UserEdit(spec: Spec, token: string)
    | UserDelete(finalizers: bool)

  predicate Enabled(s: State, step: Step) {
    match step
    case ReadCR(version) => s.pc.Idle? && (version.Some? ==> version.value in s.past)
    case ForceSync => s.pc.Loaded?
    case Resolve(_) => s.pc.Checked?
    case Get(_, _) => s.pc.Refreshing? && s.kind.ObjectSource?
    case Clone(_, _, _) => s.pc.Refreshing? && s.kind.GitRepository?
    case UpdateStatus(a) => s.pc.Finished? && a.token == s.pc.cr.token && a.generation == s.pc.cr.generation
    case Abandon => true
    case Restart => true
    case UserCreate(_, _) => s.cr.None?
    case UserEdit(_, _) => s.cr.Some?
    case UserDelete(_) => s.cr.Some?
  }

  function Put(s: State, cr: CR): State {
    var cr := cr.(rv := s.clock);
    s.(cr := Some(cr), past := s.past + {cr}, clock := s.clock + 1)
  }

  /** The entry as the refresh finds it. */
  function Entry(s: State, mode: Mode): EntryValue {
    if s.entry.Some? && s.entry.value.mode == mode then s.entry.value else EntryValue(mode, None, "", [])
  }

  function After(s: State, step: Step): State
    requires Enabled(s, step)
  {
    match step
    case ReadCR(version) =>
      if version.None? || version.value.deleting then s.(entry := None) else s.(pc := Loaded(version.value))
    case ForceSync => s.(entry := if Pending(s.pc.cr) then None else s.entry, pc := Checked(s.pc.cr))
    case Resolve(failure) =>
      var cr := s.pc.cr;
      s.(pc :=
        if !SpecOk(s.kind, cr.spec) then Finished(cr, SpecInvalid, None)
        else if failure.Some? then Finished(cr, AuthFailed(failure.value), None)
        else Refreshing(cr))
    case Get(fetcher, message) =>
      var e := Entry(s, ModeOf(s.kind, s.pc.cr.spec));
      var (after, result) := Refreshed(e, fetcher);
      s.(entry := Some(after), pc := Finished(s.pc.cr,
        if result.Ok? then Synced(result.value, message) else FetchFailed(message), Some(e.etag)))
    case Clone(sha, wiped, message) =>
      var e := Entry(s, URL);
      s.(entry := Some(if sha.Some? then e.(etag := sha.value) else if wiped then e.(etag := "") else e),
        pc := Finished(s.pc.cr, if sha.Some? then Synced(sha.value, message) else FetchFailed(message), Some(e.etag)))
    case UpdateStatus(a) =>
      var cr := s.pc.cr;
      (if s.cr.Some? && s.cr.value.rv == cr.rv then Put(s, cr.(status := StatusAfter(cr.status, s.pc.outcome, a)))
       else s)
        .(pc := Idle)
    case Abandon => s.(pc := Idle)
    case Restart => s.(pc := Idle, entry := None)
    case UserCreate(spec, token) => Put(s, CR(0, 1, spec, token, false, EMPTY))
    case UserEdit(spec, token) =>
      var cr := s.cr.value;
      Put(s, cr.(spec := spec, token := token,
        generation := if spec == cr.spec then cr.generation else cr.generation + 1))
    case UserDelete(finalizers) =>
      if finalizers then Put(s, s.cr.value.(deleting := true)) else s.(cr := None)
  }

  // ---- invariant --------------------------------------------------------------------------

  ghost predicate VersionsOk(s: State) {
    && (s.cr.Some? ==> s.cr.value in s.past)
    && (forall v :: v in s.past ==> v.rv < s.clock && StatusOk(v.status))
    && (forall v, w :: v in s.past && w in s.past && v.rv == w.rv ==> v == w)
  }

  /** While a token is pending there is no entry until the refresh, which then sends no tag. */
  predicate AttemptOk(s: State) {
    match s.pc
    case Idle => true
    case Loaded(cr) => cr in s.past
    case Checked(cr) => cr in s.past && (Pending(cr) ==> s.entry.None?)
    case Refreshing(cr) => cr in s.past && (Pending(cr) ==> s.entry.None?) && SpecOk(s.kind, cr.spec)
    case Finished(cr, outcome, sent) =>
      cr in s.past && (Pending(cr) && sent.Some? ==> sent == Some("")) && (outcome.Synced? ==> sent.Some?)
  }

  ghost predicate Inv(s: State) {
    VersionsOk(s) && AttemptOk(s)
  }

  lemma PutOk(s: State, cr: CR)
    requires VersionsOk(s) && StatusOk(cr.status)
    ensures VersionsOk(Put(s, cr))
  {
  }

  lemma VersionsStep(s: State, step: Step)
    requires Inv(s) && Enabled(s, step)
    ensures VersionsOk(After(s, step))
  {
    match step
    case UpdateStatus(a) =>
      StatusInvariant(s.pc.cr.status, s.pc.outcome, a);
      PutOk(s, s.pc.cr.(status := StatusAfter(s.pc.cr.status, s.pc.outcome, a)));
    case UserCreate(spec, token) =>
      PutOk(s, CR(0, 1, spec, token, false, EMPTY));
    case UserEdit(spec, token) =>
      PutOk(s, After(s, step).cr.value);
    case UserDelete(_) =>
      PutOk(s, s.cr.value.(deleting := true));
    case _ =>
  }

  lemma InvStep(s: State, step: Step)
    requires Inv(s) && Enabled(s, step)
    ensures Inv(After(s, step))
  {
    VersionsStep(s, step);
  }

  // ---- traces -----------------------------------------------------------------------------

  ghost predicate IsTrace(t: seq<State>, l: seq<Step>, kind: SourceKind) {
    && |t| == |l| + 1 && t[0] == Start(kind)
    && forall i :: 0 <= i < |l| ==> Enabled(t[i], l[i]) && t[i + 1] == After(t[i], l[i])
  }

  lemma {:induction false} TraceInv(t: seq<State>, l: seq<Step>, kind: SourceKind, n: nat)
    requires IsTrace(t, l, kind) && n < |t|
    ensures Inv(t[n]) && t[n].kind == kind
  {
    if n > 0 {
      TraceInv(t, l, kind, n - 1);
      InvStep(t[n - 1], l[n - 1]);
    }
  }

  /**
   The status invariant over whole runs: in every version ever persisted, `CacheReady` is the
   SourceReady condition and types are unique, so the first-match scan of the consumers is
   the keyed lookup and is the flag.
   */
  lemma PersistedStatusOk(t: seq<State>, l: seq<Step>, kind: SourceKind, n: nat, v: CR)
    requires IsTrace(t, l, kind) && n < |t| && v in t[n].past
    ensures Unique(v.status.conditions)
    ensures v.status.cacheReady <==> IsTrue(v.status.conditions, SOURCE_READY)
    ensures v.status.cacheReady <==> FirstIsTrue(v.status.conditions, SOURCE_READY)
  {
    TraceInv(t, l, kind, n);
    FirstMatchIsLookup(v.status.conditions, SOURCE_READY);
  }

  // ---- force-sync -------------------------------------------------------------------------

  /** The attempt under way since step `i`: nothing else moved the program counter up to `n`. */
  ghost predicate Since(t: seq<State>, i: nat, n: nat)
    requires i < n < |t|
  {
    t[i].pc != t[n].pc && t[i + 1].pc == t[n].pc && forall m :: i < m <= n ==> t[m].pc == t[n].pc
  }

  /** Some step brought the program counter where it is. */
  lemma {:induction false} Origin(t: seq<State>, l: seq<Step>, kind: SourceKind, n: nat) returns (i: nat)
    requires IsTrace(t, l, kind) && n < |t| && !t[n].pc.Idle?
    ensures i < n && Since(t, i, n)
  {
    i := n - 1;
    if t[n - 1].pc == t[n].pc {
      i := Origin(t, l, kind, n - 1);
    }
  }

  lemma Moved(s: State, step: Step)
    requires Enabled(s, step) && After(s, step).pc != s.pc
    ensures After(s, step).pc.Loaded? ==> step == ReadCR(Some(After(s, step).pc.cr))
    ensures After(s, step).pc.Checked? ==> step == ForceSync && s.pc == Loaded(After(s, step).pc.cr)
    ensures After(s, step).pc.Refreshing? ==> step.Resolve? && s.pc == Checked(After(s, step).pc.cr)
    ensures After(s, step).pc.Finished? && After(s, step).pc.outcome.Synced? ==>
      (step.Get? || step.Clone?) && s.pc == Refreshing(After(s, step).pc.cr)
  {
  }

  /**
   One attempt: it read version `v` at step `i`, went through the force-sync check at `d`, refreshed at
   `g`, and its outcome stood until `n`; no other attempt came in between.
   */
  ghost predicate OneAttempt(t: seq<State>, l: seq<Step>, v: CR, i: nat, d: nat, g: nat, n: nat)
    requires |t| == |l| + 1
  {
    && i < d < g < n < |t|
    && l[i] == ReadCR(Some(v)) && l[d] == ForceSync && (l[g].Get? || l[g].Clone?)
    && (forall m :: i < m <= d ==> t[m].pc == Loaded(v))
    && (forall m :: d < m <= g ==> t[m].pc == Checked(v) || t[m].pc == Refreshing(v))
    && t[g + 1].pc == t[n].pc && (forall m :: g < m <= n ==> t[m].pc == t[n].pc)
  }

  lemma AttemptOf(t: seq<State>, l: seq<Step>, kind: SourceKind, n: nat) returns (i: nat, d: nat, g: nat)
    requires IsTrace(t, l, kind) && n < |t| && t[n].pc.Finished? && t[n].pc.outcome.Synced?
    ensures OneAttempt(t, l, t[n].pc.cr, i, d, g, n)
  {
    g := Origin(t, l, kind, n);
    Moved(t[g], l[g]);
    var resolved := Origin(t, l, kind, g);
    Moved(t[resolved], l[resolved]);
    d := Origin(t, l, kind, resolved);
    Moved(t[d], l[d]);
    i := Origin(t, l, kind, d);
    Moved(t[i], l[i]);
  }

  /** Only a status update after a sync changes the processed token of a resource. */
  lemma TokenChanges(s: State, step: Step)
    requires Inv(s) && Enabled(s, step) && After(s, step).cr.Some?
    requires After(s, step).cr.value.status.lastToken != if s.cr.Some? then s.cr.value.status.lastToken else ""
    ensures step.UpdateStatus? && s.pc.Finished? && s.pc.outcome.Synced?
    ensures s.cr == Some(s.pc.cr) && After(s, step).cr.value.status.lastToken == s.pc.cr.token
  {
    if step.UpdateStatus? {
      StatusInvariant(s.pc.cr.status, s.pc.outcome, step.attempt);
    }
  }

  /**
   Force-sync safety. Whenever, in any run, a token that is not empty becomes the one last
   processed, one attempt did all of it: it read a version of the resource with that token
   and another one processed, dropped the cache entry, and then completed a refresh that sent
   no tag (URL mode) or made a new clone; and nobody had changed the resource since.
   */
  lemma ForceSyncSafety(t: seq<State>, l: seq<Step>, kind: SourceKind, n: nat) returns (i: nat, d: nat, g: nat)
    requires IsTrace(t, l, kind) && n < |l| && t[n + 1].cr.Some?
    requires t[n + 1].cr.value.status.lastToken != ""
    requires t[n].cr.Some? ==> t[n].cr.value.status.lastToken != t[n + 1].cr.value.status.lastToken
    ensures t[n].cr.Some? && OneAttempt(t, l, t[n].cr.value, i, d, g, n)
    ensures t[n].cr.value.token == t[n + 1].cr.value.status.lastToken && Pending(t[n].cr.value)
    ensures t[d + 1].entry == None && t[g].entry == None
    ensures t[n].pc.Finished? && t[n].pc.outcome.Synced? && t[n].pc.sent == Some("")
    ensures l[g].Clone? ==> l[g].sha == Some(t[n].pc.outcome.version)
    ensures l[g].Get? && !t[n].cr.value.spec.bucket ==>
      var answer := l[g].fetcher.fetch("", "");
      !answer.FetchError? && t[n].pc.outcome.version == (if answer.Fetched? then answer.etag else "")
  {
    TraceInv(t, l, kind, n);
    TokenChanges(t[n], l[n]);
    i, d, g := AttemptOf(t, l, kind, n);
    TraceInv(t, l, kind, d + 1);
    TraceInv(t, l, kind, g);
  }

  /**
   A failed attempt leaves the token pending: whatever the next version of the resource is,
   the one that a failed attempt's status update writes has the same token and the same one
   processed, so every retry drops the cache again.
   */
  lemma FailureKeepsPending(s: State, a: Attempt)
    requires Inv(s) && Enabled(s, UpdateStatus(a)) && !s.pc.outcome.Synced? && s.cr.Some?
    ensures var s' := After(s, UpdateStatus(a));
      s'.cr.Some? && (Pending(s'.cr.value) <==> Pending(s.cr.value))
  {
    StatusInvariant(s.pc.cr.status, s.pc.outcome, a);
  }

  /** While a version with a pending token is being processed, no refresh of it uses the cache. */
  lemma PendingGetIsUnconditional(t: seq<State>, l: seq<Step>, kind: SourceKind, n: nat)
    requires IsTrace(t, l, kind) && n < |l| && (l[n].Get? || l[n].Clone?) && Pending(t[n].pc.cr)
    ensures t[n].entry == None && t[n + 1].pc.sent == Some("")
  {
    TraceInv(t, l, kind, n);
  }

  /** The attempt reads that the resource is gone, or on its way out. */
  predicate ReadsGone(step: Step) {
    step.ReadCR? && (step.version.None? || step.version.value.deleting)
  }

  /** Once that was read there is no entry until the next refresh. */
  lemma {:induction false} GoneIsForgotten(t: seq<State>, l: seq<Step>, kind: SourceKind, i: nat, n: nat)
    requires IsTrace(t, l, kind) && i < n < |t| && ReadsGone(l[i])
    requires forall m :: i < m < n ==> !l[m].Get? && !l[m].Clone?
    ensures t[n].entry == None
    decreases n
  {
    if i + 1 < n {
      GoneIsForgotten(t, l, kind, i, n - 1);
    }
  }

  /**
   A resource that is deleted and made again starts anew: the first refresh after the old one
   was seen to be gone sends no tag, or makes a new clone, whatever was cached before.
   */
  lemma RecreatedIsFetchedAnew(t: seq<State>, l: seq<Step>, kind: SourceKind, i: nat, n: nat)
    requires IsTrace(t, l, kind) && i < n < |l| && ReadsGone(l[i]) && (l[n].Get? || l[n].Clone?)
    requires forall m :: i < m < n ==> !l[m].Get? && !l[m].Clone?
    ensures t[n].entry == None && t[n + 1].pc.Finished? && t[n + 1].pc.sent == Some("")
  {
    GoneIsForgotten(t, l, kind, i, n);
  }
}
