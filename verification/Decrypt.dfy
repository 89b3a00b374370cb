/**
 internal/decrypt/decrypt.go: SOPS reads the age key from a process-wide environment
 variable, so every call locks, saves, sets, decrypts, restores and unlocks. First one call
 on its own, then any number of concurrent callers.
 */
module Decrypt {
  import opened Wrappers
  import opened GoStrings
  import opened Formats

  datatype DecryptError = EmptyContent | EmptyKey | SetenvFailed | SopsFailed(reason: string)

  type Outcome = Result<Bytes, DecryptError>

  /** SOPS itself: what it makes of a content and a format, given the value of SOPS_AGE_KEY. */
  const Sops: (Bytes, string, Option<string>) -> Result<Bytes, string>

  datatype Call = Call(content: Bytes, path: string, key: Bytes)

  function SopsOutcome(call: Call, env: Option<string>): Outcome {
    match Sops(call.content, FormatFromPath(call.path), env)
    case Ok(plaintext) => Ok(plaintext)
    case Err(reason) => Err(SopsFailed(reason))
  }

  /** What a call must return: it depends on its own arguments and nothing else. */
  function Expected(call: Call): Outcome {
    if call.content == [] then Err(EmptyContent)
    else if call.key == [] then Err(EmptyKey)
    else if !NulFree(call.key) then Err(SetenvFailed)
    else SopsOutcome(call, Some(call.key))
  }

  /** SOPS gets to run only with a content and a key that can be an environment variable. */
  predicate Runs(call: Call) {
    call.content != [] && call.key != [] && NulFree(call.key)
  }

  /**
   The result that a call deserves: what SOPS makes of its content, with its own key in the
   environment and the format of its path; or else the first of the three things that is wrong.
   */
  ghost predicate Deserved(call: Call, r: Outcome) {
    && (forall p :: r == Ok(p) <==>
        Runs(call) && Sops(call.content, FormatFromPath(call.path), Some(call.key)) == Ok(p))
    && (forall why :: r == Err(SopsFailed(why)) <==>
        Runs(call) && Sops(call.content, FormatFromPath(call.path), Some(call.key)) == Err(why))
    && (r == Err(EmptyContent) <==> call.content == [])
    && (r == Err(EmptyKey) <==> call.content != [] && call.key == [])
    && (r == Err(SetenvFailed) <==> call.content != [] && call.key != [] && NUL in call.key)
  }

  lemma ExpectedIsDeserved(call: Call)
    ensures Deserved(call, Expected(call))
  {
  }

  /** An environment variable: absent, or a value without NUL bytes. */
  predicate Storable(env: Option<string>) {
    env.Some? ==> NulFree(env.value)
  }

  // ---- one call ---------------------------------------------------------------------------

  class Environment {
    var ageKey: Option<string>

    constructor (initial: Option<string>)
      ensures ageKey == initial
    {
      ageKey := initial;
    }

    /** `os.Setenv`: a NUL byte in the value is an error and changes nothing. */
    method Setenv(value: string) returns (ok: bool)
      modifies this
      ensures ok == NulFree(value)
      ensures ageKey == if ok then Some(value) else old(ageKey)
    {
      ok := NulFree(value);
      if ok {
        ageKey := Some(value);
      }
    }

    method Unsetenv()
      modifies this
      ensures ageKey == None
    {
      ageKey := None;
    }

    /** Returns what SOPS makes of the caller's own key, and leaves the variable as it was. */
    method DecryptAge(call: Call) returns (r: Outcome)
      requires Storable(ageKey)
      modifies this
      ensures r == Expected(call) && Deserved(call, r)
      ensures ageKey == old(ageKey)
    {
      ExpectedIsDeserved(call);
      if call.content == [] {
        return Err(EmptyContent);
      }
      if call.key == [] {
        return Err(EmptyKey);
      }
      var prev := ageKey;
      var ok := Setenv(call.key);
      if !ok {
        return Err(SetenvFailed);
      }
      r := SopsOutcome(call, ageKey);
      if prev.Some? {
        ok := Setenv(prev.value);
      } else {
        Unsetenv();
      }
    }
  }

  // ---- any number of callers --------------------------------------------------------------

  datatype Phase =
    | Entered(call: Call)
    | Waiting(call: Call)
    | Holding(call: Call)
    | Saved(call: Call, prev: Option<string>)
    | KeySet(call: Call, prev: Option<string>)
    | KeyRead(call: Call, prev: Option<string>, seen: Option<string>)
    | Decrypted(call: Call, prev: Option<string>, outcome: Outcome)
    | Restored(call: Call, outcome: Outcome)
    | Returned(call: Call, outcome: Outcome)

  /** One global variable, one mutex, and callers identified by number. */
  datatype State = State(env: Option<string>, lock: Option<nat>, callers: map<nat, Phase>)

  /** Between acquiring the mutex and releasing it. */
  predicate InCriticalSection(p: Phase) {
    p.Holding? || p.Saved? || p.KeySet? || p.KeyRead? || p.Decrypted? || p.Restored?
  }

  /** While SOPS runs: it may read the variable at any of these moments. */
  predicate SopsRunning(p: Phase) {
    p.KeySet? || p.KeyRead?
  }

  datatype Step =
    | Enter(c: nat, call: Call)
    | Check(c: nat)
    | Lock(c: nat)
    | LookupEnv(c: nat)
    | SetKey(c: nat)
    | ReadKey(c: nat)
    | FinishSops(c: nat)
    | Restore(c: nat)
    | Unlock(c: nat)

  predicate Enabled(s: State, step: Step) {
    match step
    case Enter(c, _) => c !in s.callers
    case Check(c) => c in s.callers && s.callers[c].Entered?
    case Lock(c) => c in s.callers && s.callers[c].Waiting? && s.lock.None?
    case LookupEnv(c) => c in s.callers && s.callers[c].Holding?
    case SetKey(c) => c in s.callers && s.callers[c].Saved?
    case ReadKey(c) => c in s.callers && SopsRunning(s.callers[c])
    case FinishSops(c) => c in s.callers && s.callers[c].KeyRead?
    case Restore(c) => c in s.callers && s.callers[c].Decrypted?
    case Unlock(c) => c in s.callers && s.callers[c].Restored?
  }

  function Move(s: State, c: nat, p: Phase): State {
    s.(callers := s.callers[c := p])
  }

  function After(s: State, step: Step): State
    requires Enabled(s, step)
  {
    match step
    case Enter(c, call) => Move(s, c, Entered(call))
    case Check(c) =>
      var call := s.callers[c].call;
      Move(s, c,
        if call.content == [] then Returned(call, Err(EmptyContent))
        else if call.key == [] then Returned(call, Err(EmptyKey))
        else Waiting(call))
    case Lock(c) => Move(s, c, Holding(s.callers[c].call)).(lock := Some(c))
    case LookupEnv(c) => Move(s, c, Saved(s.callers[c].call, s.env))
    case SetKey(c) =>
      var p := s.callers[c];
      if NulFree(p.call.key) then Move(s, c, KeySet(p.call, p.prev)).(env := Some(p.call.key))
      else Move(s, c, Restored(p.call, Err(SetenvFailed)))
    case ReadKey(c) =>
      var p := s.callers[c];
      Move(s, c, KeyRead(p.call, p.prev, s.env))
    case FinishSops(c) =>
      var p := s.callers[c];
      Move(s, c, Decrypted(p.call, p.prev, SopsOutcome(p.call, p.seen)))
    case Restore(c) =>
      var p := s.callers[c];
      // A saved value that Setenv rejects would be ignored, as the source ignores the error.
      Move(s, c, Restored(p.call, p.outcome)).(env := if Storable(p.prev) then p.prev else s.env)
    case Unlock(c) => Move(s, c, Returned(s.callers[c].call, s.callers[c].outcome)).(lock := None)
  }

  predicate PhaseOk(p: Phase, env: Option<string>, initial: Option<string>) {
    match p
    case Entered(_) => true
    case Waiting(call) => call.content != [] && call.key != []
    case Holding(call) => call.content != [] && call.key != [] && env == initial
    case Saved(call, prev) => call.content != [] && call.key != [] && env == initial == prev
    case KeySet(call, prev) =>
      call.content != [] && call.key != [] && NulFree(call.key) && env == Some(call.key) && prev == initial
    case KeyRead(call, prev, seen) =>
      call.content != [] && call.key != [] && NulFree(call.key) && env == Some(call.key) == seen && prev == initial
    case Decrypted(call, prev, outcome) => env == Some(call.key) && prev == initial && outcome == Expected(call)
    case Restored(call, outcome) => env == initial && outcome == Expected(call)
    case Returned(call, outcome) => outcome == Expected(call)
  }

  ghost predicate Inv(s: State, initial: Option<string>) {
    && Storable(initial)
    && (s.lock.None? ==> s.env == initial)
    && (forall c :: c in s.callers ==>
        (InCriticalSection(s.callers[c]) <==> s.lock == Some(c)) && PhaseOk(s.callers[c], s.env, initial))
    && (s.lock.Some? ==> s.lock.value in s.callers)
  }

  /** The step's own caller. */
  lemma OwnPhase(s: State, step: Step, initial: Option<string>)
    requires Inv(s, initial) && Enabled(s, step)
    ensures var t := After(s, step);
      && step.c in t.callers && PhaseOk(t.callers[step.c], t.env, initial)
      && (InCriticalSection(t.callers[step.c]) <==> t.lock == Some(step.c))
      && (t.lock.None? ==> t.env == initial) && (t.lock.Some? ==> t.lock.value in t.callers)
  {
    if step.FinishSops? {
      assert PhaseOk(s.callers[step.c], s.env, initial);
    }
  }

  /** Every other caller: nothing changes under a caller in its critical section. */
  lemma OtherPhase(s: State, step: Step, initial: Option<string>, d: nat)
    requires Inv(s, initial) && Enabled(s, step) && d != step.c && d in After(s, step).callers
    ensures var t := After(s, step);
      && d in s.callers && t.callers[d] == s.callers[d] && PhaseOk(t.callers[d], t.env, initial)
      && (InCriticalSection(t.callers[d]) <==> t.lock == Some(d))
  {
    assert PhaseOk(s.callers[d], s.env, initial) && (InCriticalSection(s.callers[d]) <==> s.lock == Some(d));
  }

  lemma InvStep(s: State, step: Step, initial: Option<string>)
    requires Inv(s, initial) && Enabled(s, step)
    ensures Inv(After(s, step), initial)
  {
    OwnPhase(s, step, initial);
    forall d | d != step.c && d in After(s, step).callers
      ensures (InCriticalSection(After(s, step).callers[d]) <==> After(s, step).lock == Some(d))
        && PhaseOk(After(s, step).callers[d], After(s, step).env, initial)
    {
      OtherPhase(s, step, initial, d);
    }
  }

  ghost predicate IsRun(s: State, run: seq<Step>)
    decreases |run|
  {
    run == [] || (Enabled(s, run[0]) && IsRun(After(s, run[0]), run[1..]))
  }

  ghost function Exec(s: State, run: seq<Step>): State
    requires IsRun(s, run)
    decreases |run|
  {
    if run == [] then s else Exec(After(s, run[0]), run[1..])
  }

  lemma {:induction false} InvOverRun(s: State, run: seq<Step>, initial: Option<string>)
    requires Inv(s, initial) && IsRun(s, run)
    ensures Inv(Exec(s, run), initial)
    decreases |run|
  {
    if run != [] {
      InvStep(s, run[0], initial);
      InvOverRun(After(s, run[0]), run[1..], initial);
    }
  }

  /**
   Decrypt isolation. Start with an unlocked mutex and any value of the variable; after every
   run of any number of callers: SOPS runs for at most one caller, with that caller's own key
   in the environment; whenever nobody holds the lock the variable has its initial value or
   absence back, whichever way the calls ended; and every call that returned has the result
   it deserves, as if it had been alone.
   */
  lemma DecryptIsolation(initial: Option<string>, run: seq<Step>)
    requires Storable(initial) && IsRun(State(initial, None, map[]), run)
    ensures var s := Exec(State(initial, None, map[]), run);
      && (forall c :: c in s.callers && SopsRunning(s.callers[c]) ==> s.env == Some(s.callers[c].call.key))
      && (forall c, d | c in s.callers && d in s.callers && SopsRunning(s.callers[c]) && SopsRunning(s.callers[d]) ::
          c == d)
      && (s.lock.None? ==> s.env == initial)
      && (s.lock.None? <==> forall c :: c in s.callers ==> !InCriticalSection(s.callers[c]))
      && (forall c :: c in s.callers && s.callers[c].Returned? ==>
          Deserved(s.callers[c].call, s.callers[c].outcome))
  {
    InvOverRun(State(initial, None, map[]), run, initial);
    forall call ensures Deserved(call, Expected(call)) {
      ExpectedIsDeserved(call);
    }
  }
}
