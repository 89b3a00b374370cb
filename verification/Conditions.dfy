/**
 Status conditions: the upsert by type behind `setCondition`, the first-match readiness scans
 of the consumers, and the statuses that the two source reconcilers write in place.
 */
module Conditions {

  datatype CondStatus = CondTrue | CondFalse | CondUnknown

  datatype Condition = Condition(ctype: string, status: CondStatus, reason: string, message: string, since: nat)

  const SOURCE_READY := "SourceReady"
  const AUTH_RESOLVED := "AuthResolved"

  /** No two conditions of one type. */
  ghost predicate Unique(conds: seq<Condition>) {
    forall i, j :: 0 <= i < j < |conds| ==> conds[i].ctype != conds[j].ctype
  }

  /** Keyed lookup: some condition of the type is true. */
  predicate IsTrue(conds: seq<Condition>, ctype: string) {
    exists c :: c in conds && c.ctype == ctype && c.status == CondTrue
  }

  /** The first condition of the type decides. */
  ghost predicate FirstIsTrue(conds: seq<Condition>, ctype: string) {
    exists i :: FirstAt(conds, ctype, i) && conds[i].status == CondTrue
  }

  ghost predicate FirstAt(conds: seq<Condition>, ctype: string, i: int) {
    0 <= i < |conds| && conds[i].ctype == ctype && forall j :: 0 <= j < i ==> conds[j].ctype != ctype
  }

  /** The readiness scan of the consumers: the first match, and false without one. */
  method IsSourceReady(conds: seq<Condition>) returns (ready: bool)
    ensures ready <==> FirstIsTrue(conds, SOURCE_READY)
  {
    var i := 0;
    while i < |conds|
      invariant 0 <= i <= |conds|
      invariant forall j :: 0 <= j < i ==> conds[j].ctype != SOURCE_READY
    {
      if conds[i].ctype == SOURCE_READY {
        assert FirstAt(conds, SOURCE_READY, i);
        return conds[i].status == CondTrue;
      }
      i := i + 1;
    }
    return false;
  }

  /** Where types are unique, the first match is the keyed lookup. */
  lemma FirstMatchIsLookup(conds: seq<Condition>, ctype: string)
    requires Unique(conds)
    ensures FirstIsTrue(conds, ctype) <==> IsTrue(conds, ctype)
  {
    forall c | c in conds && c.ctype == ctype && c.status == CondTrue ensures FirstIsTrue(conds, ctype) {
      var i :| 0 <= i < |conds| && conds[i] == c;
      assert FirstAt(conds, ctype, i);
    }
  }

  // ---- upsert -----------------------------------------------------------------------------

  /** A condition replaces the first one of its type, which keeps its transition time unless the status changes. */
  function Upsert(conds: seq<Condition>, c: Condition): seq<Condition> {
    if conds == [] then [c]
    else if conds[0].ctype == c.ctype then
      [c.(since := if conds[0].status == c.status then conds[0].since else c.since)] + conds[1..]
    else [conds[0]] + Upsert(conds[1..], c)
  }

  ghost function Types(conds: seq<Condition>): set<string> {
    set c | c in conds :: c.ctype
  }

  /** The first condition of the type, at `i`, is replaced and nothing else. */
  ghost predicate ReplacedAt(conds: seq<Condition>, c: Condition, i: int, after: seq<Condition>) {
    && FirstAt(conds, c.ctype, i)
    && after == conds[i := c.(since := if conds[i].status == c.status then conds[i].since else c.since)]
  }

  /** What an upsert does, position by position. */
  lemma {:induction false} UpsertExact(conds: seq<Condition>, c: Condition)
    ensures var after := Upsert(conds, c);
      && (c.ctype !in Types(conds) ==> after == conds + [c])
      && (c.ctype in Types(conds) ==> exists i :: ReplacedAt(conds, c, i, after))
  {
    if conds != [] && conds[0].ctype == c.ctype {
      assert ReplacedAt(conds, c, 0, Upsert(conds, c));
    } else if conds != [] {
      var rest := conds[1..];
      UpsertExact(rest, c);
      assert conds == [conds[0]] + rest;
      assert c.ctype in Types(conds) <==> c.ctype in Types(rest) by {
        assert forall d :: d in conds <==> d == conds[0] || d in rest;
      }
      if c.ctype in Types(rest) {
        var i :| ReplacedAt(rest, c, i, Upsert(rest, c));
        assert ReplacedAt(conds, c, i + 1, Upsert(conds, c));
      }
    }
  }

  /** An upsert keeps types unique, leaves one condition of its type with its status, and touches no other type. */
  lemma UpsertSets(conds: seq<Condition>, c: Condition, ctype: string)
    requires Unique(conds)
    ensures Unique(Upsert(conds, c))
    ensures IsTrue(Upsert(conds, c), ctype) <==> if ctype == c.ctype then c.status == CondTrue else IsTrue(conds, ctype)
  {
    UpsertExact(conds, c);
    var after := Upsert(conds, c);
    if c.ctype in Types(conds) {
      var i :| ReplacedAt(conds, c, i, after);
      UpdateSets(conds, i, after[i], ctype);
    } else {
      assert after[|conds|] == c;
      assert forall d :: d in after <==> d in conds || d == c;
    }
  }

  lemma UpdateSets(conds: seq<Condition>, i: nat, c: Condition, ctype: string)
    requires Unique(conds) && i < |conds| && conds[i].ctype == c.ctype
    ensures Unique(conds[i := c])
    ensures IsTrue(conds[i := c], ctype) <==> if ctype == c.ctype then c.status == CondTrue else IsTrue(conds, ctype)
  {
    var after := conds[i := c];
    assert after[i] == c;
    forall d | d in after && d.ctype == c.ctype ensures d == c {
      var j :| 0 <= j < |after| && after[j] == d;
    }
    forall d: Condition | d.ctype != c.ctype ensures d in after <==> d in conds {
      if d in conds {
        var j :| 0 <= j < |conds| && conds[j] == d;
        assert after[j] == d;
      }
    }
  }

  // ---- the statuses of the sources --------------------------------------------------------

  datatype Status = Status(
    conditions: seq<Condition>, cacheReady: bool, lastSynced: string, lastToken: string, observed: nat)

  const EMPTY := Status([], false, "", "", 0)

  /** How a reconcile of a source ends. */
  datatype Outcome =
    | SpecInvalid
    | AuthFailed(message: string)
    | FetchFailed(message: string)
    | Synced(version: string, message: string)

  /**
   What a reconcile writes besides its outcome: the token and generation it read, the time,
   and the wording of its messages.
   */
  datatype Attempt = Attempt(token: string, generation: nat, now: nat, authOK: string, waiting: string)

  function With(
    conds: seq<Condition>, ctype: string, status: CondStatus, reason: string, message: string, now: nat)
    : seq<Condition>
  {
    Upsert(conds, Condition(ctype, status, reason, message, now))
  }

  /** The status that a reconcile with this outcome writes. */
  function StatusAfter(st: Status, o: Outcome, a: Attempt): Status {
    match o
    case SpecInvalid => AuthFailure(st, "InvalidSpec", "exactly one of spec.url or spec.bucket must be set", a)
    case AuthFailed(message) => AuthFailure(st, "AuthFailed", message, a)
    case FetchFailed(message) =>
      var conds := With(st.conditions, AUTH_RESOLVED, CondTrue, "AuthOK", a.authOK, a.now);
      st.(conditions := With(conds, SOURCE_READY, CondFalse, "FetchFailed", message, a.now), cacheReady := false)
    case Synced(version, message) =>
      var conds := With(st.conditions, AUTH_RESOLVED, CondTrue, "AuthOK", a.authOK, a.now);
      Status(With(conds, SOURCE_READY, CondTrue, "Ready", message, a.now), true, version, a.token, a.generation)
  }

  function AuthFailure(st: Status, reason: string, message: string, a: Attempt): Status {
    var conds := With(st.conditions, AUTH_RESOLVED, CondFalse, reason, message, a.now);
    st.(conditions := With(conds, SOURCE_READY, CondFalse, reason, a.waiting, a.now), cacheReady := false)
  }

  /** The flag is the condition, and no type occurs twice. */
  ghost predicate StatusOk(st: Status) {
    Unique(st.conditions) && (st.cacheReady <==> IsTrue(st.conditions, SOURCE_READY))
  }

  /**
   Every reconcile leaves a status in which `CacheReady` is the SourceReady condition, true
   exactly after a sync; only a sync takes over the token, and every failure leaves it pending.
   */
  lemma StatusInvariant(st: Status, o: Outcome, a: Attempt)
    requires Unique(st.conditions)
    ensures var after := StatusAfter(st, o, a);
      && StatusOk(after) && (after.cacheReady <==> o.Synced?)
      && (IsTrue(after.conditions, AUTH_RESOLVED) <==> o.FetchFailed? || o.Synced?)
      && after.lastToken == (if o.Synced? then a.token else st.lastToken)
      && after.lastSynced == (if o.Synced? then o.version else st.lastSynced)
  {
    var after := StatusAfter(st, o, a).conditions;
    var reason := if o.SpecInvalid? then "InvalidSpec" else "AuthFailed";
    var message :=
      if o.SpecInvalid? then "exactly one of spec.url or spec.bucket must be set"
        else if o.AuthFailed? then o.message else "";
    var first :=
      if o.FetchFailed? || o.Synced? then Condition(AUTH_RESOLVED, CondTrue, "AuthOK", a.authOK, a.now)
      else Condition(AUTH_RESOLVED, CondFalse, reason, message, a.now);
    var second :=
      if o.Synced? then Condition(SOURCE_READY, CondTrue, "Ready", o.message, a.now)
      else if o.FetchFailed? then Condition(SOURCE_READY, CondFalse, "FetchFailed", o.message, a.now)
      else Condition(SOURCE_READY, CondFalse, reason, a.waiting, a.now);
    assert after == Upsert(Upsert(st.conditions, first), second);
    UpsertSets(st.conditions, first, AUTH_RESOLVED);
    UpsertSets(Upsert(st.conditions, first), second, AUTH_RESOLVED);
    UpsertSets(Upsert(st.conditions, first), second, SOURCE_READY);
  }

  /** A condition of the type says this. */
  ghost predicate Says(conds: seq<Condition>, ctype: string, status: CondStatus, reason: string, message: string) {
    exists c :: c in conds && c.ctype == ctype && c.status == status && c.reason == reason && c.message == message
  }

  /** The two conditions of a source: is the credential resolved, is the source ready. */
  ghost predicate Reports(
    st: Status, auth: CondStatus, authReason: string, authMessage: string,
    ready: CondStatus, reason: string, message: string)
  {
    Says(st.conditions, AUTH_RESOLVED, auth, authReason, authMessage)
    && Says(st.conditions, SOURCE_READY, ready, reason, message)
  }

  lemma UpsertSays(conds: seq<Condition>, c: Condition)
    ensures Says(Upsert(conds, c), c.ctype, c.status, c.reason, c.message)
    ensures forall d: Condition :: d.ctype != c.ctype ==> (d in Upsert(conds, c) <==> d in conds)
  {
    UpsertExact(conds, c);
    var after := Upsert(conds, c);
    if c.ctype in Types(conds) {
      var i :| ReplacedAt(conds, c, i, after);
      assert after[i] in after;
      forall d: Condition | d.ctype != c.ctype ensures d in after <==> d in conds {
        if d in conds {
          var j :| 0 <= j < |conds| && conds[j] == d;
          assert after[j] == d;
        }
      }
    } else {
      assert after[|conds|] == c;
    }
  }

  lemma TwoUpserts(conds: seq<Condition>, first: Condition, second: Condition)
    requires first.ctype != second.ctype
    ensures var after := Upsert(Upsert(conds, first), second);
      && Says(after, first.ctype, first.status, first.reason, first.message)
      && Says(after, second.ctype, second.status, second.reason, second.message)
      && forall d: Condition :: d.ctype !in {first.ctype, second.ctype} ==> (d in after <==> d in conds)
  {
    UpsertSays(conds, first);
    UpsertSays(Upsert(conds, first), second);
  }

  /**
   What the conditions say after each outcome. Conditions of other types stay, and the
   generation is the one that was read if and only if the source was synced.
   */
  lemma StatusReports(st: Status, o: Outcome, a: Attempt)
    ensures var after := StatusAfter(st, o, a);
      && after.observed == (if o.Synced? then a.generation else st.observed)
      && (forall c: Condition :: c.ctype !in {AUTH_RESOLVED, SOURCE_READY} ==>
          (c in after.conditions <==> c in st.conditions))
      && match o
         case SpecInvalid =>
           Reports(after, CondFalse, "InvalidSpec", "exactly one of spec.url or spec.bucket must be set",
             CondFalse, "InvalidSpec", a.waiting)
         case AuthFailed(m) => Reports(after, CondFalse, "AuthFailed", m, CondFalse, "AuthFailed", a.waiting)
         case FetchFailed(m) => Reports(after, CondTrue, "AuthOK", a.authOK, CondFalse, "FetchFailed", m)
         case Synced(_, m) => Reports(after, CondTrue, "AuthOK", a.authOK, CondTrue, "Ready", m)
  {
    var wrong := "exactly one of spec.url or spec.bucket must be set";
    match o
    case SpecInvalid =>
      TwoUpserts(st.conditions, Condition(AUTH_RESOLVED, CondFalse, "InvalidSpec", wrong, a.now),
        Condition(SOURCE_READY, CondFalse, "InvalidSpec", a.waiting, a.now));
    case AuthFailed(m) =>
      TwoUpserts(st.conditions, Condition(AUTH_RESOLVED, CondFalse, "AuthFailed", m, a.now),
        Condition(SOURCE_READY, CondFalse, "AuthFailed", a.waiting, a.now));
    case FetchFailed(m) =>
      TwoUpserts(st.conditions, Condition(AUTH_RESOLVED, CondTrue, "AuthOK", a.authOK, a.now),
        Condition(SOURCE_READY, CondFalse, "FetchFailed", m, a.now));
    case Synced(_, m) =>
      TwoUpserts(st.conditions, Condition(AUTH_RESOLVED, CondTrue, "AuthOK", a.authOK, a.now),
        Condition(SOURCE_READY, CondTrue, "Ready", m, a.now));
  }

  /** The status of one source while a reconcile writes it. */
  class SourceStatus {
    var conditions: seq<Condition>
    var cacheReady: bool
    var lastSynced: string
    var lastToken: string
    var observed: nat

    constructor (st: Status)
      ensures Value() == st
    {
      conditions, cacheReady, lastSynced := st.conditions, st.cacheReady, st.lastSynced;
      lastToken, observed := st.lastToken, st.observed;
    }

    function Value(): Status
      reads this
    {
      Status(conditions, cacheReady, lastSynced, lastToken, observed)
    }

    /** Looks for the type, then changes the condition found or appends a new one. */
    method SetCondition(ctype: string, status: CondStatus, reason: string, message: string, now: nat)
      modifies this`conditions
      ensures conditions == With(old(conditions), ctype, status, reason, message, now)
      ensures conditions == Upsert(old(conditions), Condition(ctype, status, reason, message, now))
    {
      var c := Condition(ctype, status, reason, message, now);
      UpsertExact(conditions, c);
      var i := 0;
      while i < |conditions|
        invariant 0 <= i <= |conditions| && conditions == old(conditions)
        invariant forall j :: 0 <= j < i ==> conditions[j].ctype != ctype
      {
        if conditions[i].ctype == ctype {
          var since := if conditions[i].status == status then conditions[i].since else now;
          assert FirstAt(conditions, ctype, i) && conditions[i] in conditions;
          conditions := conditions[i := c.(since := since)];
          return;
        }
        i := i + 1;
      }
      conditions := conditions + [c];
    }

    /** `setObjectFailure`, and the same three writes in the GitRepository reconciler. */
    method SetAuthFailure(reason: string, message: string, a: Attempt)
      modifies this
      ensures Value() == AuthFailure(old(Value()), reason, message, a)
    {
      SetCondition(AUTH_RESOLVED, CondFalse, reason, message, a.now);
      SetCondition(SOURCE_READY, CondFalse, reason, a.waiting, a.now);
      cacheReady := false;
    }

    /** The status part of a reconcile: a source whose status was in order has one again. */
    method Record(o: Outcome, a: Attempt)
      requires Unique(conditions)
      modifies this
      ensures Value() == StatusAfter(old(Value()), o, a) && StatusOk(Value())
    {
      StatusInvariant(Value(), o, a);
      match o
      case SpecInvalid => SetAuthFailure("InvalidSpec", "exactly one of spec.url or spec.bucket must be set", a);
      case AuthFailed(message) => SetAuthFailure("AuthFailed", message, a);
      case FetchFailed(message) =>
        SetCondition(AUTH_RESOLVED, CondTrue, "AuthOK", a.authOK, a.now);
        SetCondition(SOURCE_READY, CondFalse, "FetchFailed", message, a.now);
        cacheReady := false;
      case Synced(version, message) =>
        SetCondition(AUTH_RESOLVED, CondTrue, "AuthOK", a.authOK, a.now);
        lastSynced, cacheReady, lastToken, observed := version, true, a.token, a.generation;
        SetCondition(SOURCE_READY, CondTrue, "Ready", message, a.now);
    }
  }
}
