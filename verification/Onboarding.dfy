/** Claiming an onboarding token: a record and a lock in Redis, both of which expire on their own, a
    claim that takes the lock first and reads the record later, and three scripts that run whole.
    Clients may stall anywhere and come back after their lock has gone to somebody else. */
module Onboarding {
  import opened Wrappers

  datatype Record = Record(attempts: nat, profile: int)

  datatype Entry = Entry(record: Record, expiresAt: int)

  datatype Lock = Lock(value: nat, expiresAt: int)

  /** What a client remembers: the token, its lock value, and the record once it has read it. */
  datatype Claim = Claim(token: nat, value: nat, copy: Option<Record>)

  datatype Event = Failed(token: nat) | Done(token: nat)

  /** Tokens and lock values are random and never repeat, so they are numbered in order of use; the
      log remembers what was answered with success. */
  datatype Store = Store(
    clock: int, tokens: nat, records: map<nat, Entry>, locks: map<nat, Lock>, claims: seq<Claim>, log: seq<Event>)

  const LOCK_SECONDS := 30
  const MAX_ATTEMPTS := 5

  const Empty := Store(0, 0, map[], map[], [], [])

  predicate RecordLive(s: Store, t: nat) { t in s.records && s.records[t].expiresAt > s.clock }

  predicate LockLive(s: Store, t: nat) { t in s.locks && s.locks[t].expiresAt > s.clock }

  predicate Holds(s: Store, c: Claim) { LockLive(s, c.token) && s.locks[c.token].value == c.value }

  /** A new token with no failed attempt yet. */
  function Create(s: Store, profile: int, ttl: nat): Store {
    s.(tokens := s.tokens + 1, records := s.records[s.tokens := Entry(Record(0, profile), s.clock + ttl)])
  }

  /** SET NX EX 30 with a fresh value; a client that gets no lock remembers nothing. */
  function Acquire(s: Store, t: nat): Store {
    if LockLive(s, t) then s
    else
      s.(locks := s.locks[t := Lock(|s.claims|, s.clock + LOCK_SECONDS)],
         claims := s.claims + [Claim(t, |s.claims|, None)])
  }

  function Release(s: Store, k: nat): Store {
    if k < |s.claims| && Holds(s, s.claims[k]) then s.(locks := s.locks - {s.claims[k].token}) else s
  }

  /** GET and TTL, at any time after the lock; a missing record, or no time left, gives the lock back. */
  function Read(s: Store, k: nat, timeLeft: bool): Store {
    if k >= |s.claims| || s.claims[k].copy.Some? then s
    else if RecordLive(s, s.claims[k].token) && timeLeft
    then s.(claims := s.claims[k := s.claims[k].(copy := Some(s.records[s.claims[k].token].record))])
    else Release(s, k)
  }

  function Finish(s: Store, k: nat): (Store, bool) {
    if k >= |s.claims| || s.claims[k].copy.None? || !Holds(s, s.claims[k]) then (s, false) else
    var t := s.claims[k].token;
    if !RecordLive(s, t) then (s.(locks := s.locks - {t}), false)
    else (s.(records := s.records - {t}, locks := s.locks - {t}, log := s.log + [Done(t)]), true)
  }

  /** Writes the client's own copy back with one more attempt, or deletes the record at the fifth. */
  function RecordFailure(s: Store, k: nat): (Store, bool) {
    if k >= |s.claims| || s.claims[k].copy.None? || !Holds(s, s.claims[k]) then (s, false) else
    var t := s.claims[k].token;
    var copy := s.claims[k].copy.value;
    if !RecordLive(s, t) then (s.(locks := s.locks - {t}), false)
    else if copy.attempts + 1 >= MAX_ATTEMPTS
    then (s.(records := s.records - {t}, locks := s.locks - {t}, log := s.log + [Failed(t)]), true)
    else (s.(records := s.records[t := s.records[t].(record := copy.(attempts := copy.attempts + 1))],
             locks := s.locks - {t}, log := s.log + [Failed(t)]), true)
  }

  datatype Step =
    | Tick(elapsed: nat)
    | CreateStep(profile: int, ttl: nat)
    | AcquireStep(token: nat)
    | ReadStep(claim: nat, timeLeft: bool)
    | ReleaseStep(claim: nat)
    | FinishStep(claim: nat)
    | FailureStep(claim: nat)

  function Next(s: Store, step: Step): Store {
    match step
    case Tick(elapsed) => s.(clock := s.clock + elapsed)
    case CreateStep(profile, ttl) => Create(s, profile, ttl)
    case AcquireStep(token) => Acquire(s, token)
    case ReadStep(claim, timeLeft) => Read(s, claim, timeLeft)
    case ReleaseStep(claim) => Release(s, claim)
    case FinishStep(claim) => Finish(s, claim).0
    case FailureStep(claim) => RecordFailure(s, claim).0
  }

  function Run(s: Store, steps: seq<Step>): Store
    decreases |steps|
  {
    if steps == [] then s else Run(Next(s, steps[0]), steps[1..])
  }

  // The invariant.

  function Count(log: seq<Event>, e: Event): nat {
    if log == [] then 0 else Count(log[..|log| - 1], e) + if log[|log| - 1] == e then 1 else 0
  }

  lemma CountAppend(log: seq<Event>, e: Event, x: Event)
    ensures Count(log + [x], e) == Count(log, e) + if x == e then 1 else 0
  {
    assert (log + [x])[..|log|] == log;
  }

  /** Whoever's value is in the lock has an up-to-date copy, if it has read one. */
  predicate LockOk(s: Store, t: nat)
    requires t in s.locks
  {
    var v := s.locks[t].value;
    && v < |s.claims| && s.claims[v].token == t
    && (s.claims[v].copy.Some? && t in s.records ==> s.records[t].record == s.claims[v].copy.value)
  }

  predicate TokenOk(s: Store, t: nat) {
    && Count(s.log, Failed(t)) <= MAX_ATTEMPTS && Count(s.log, Done(t)) <= 1
    && (t in s.records ==> t < s.tokens && Count(s.log, Done(t)) == 0)
    && (t in s.records ==> s.records[t].record.attempts == Count(s.log, Failed(t)) < MAX_ATTEMPTS)
    && (t >= s.tokens ==> Count(s.log, Failed(t)) == 0 && Count(s.log, Done(t)) == 0)
    && (Count(s.log, Failed(t)) == MAX_ATTEMPTS ==> Count(s.log, Done(t)) == 0)
  }

  ghost predicate Inv(s: Store) {
    && (forall k | 0 <= k < |s.claims| ::
      s.claims[k].value == k && (s.claims[k].copy.Some? ==> s.claims[k].token < s.tokens))
    && (forall t | t in s.locks :: LockOk(s, t))
    && (forall t: nat :: TokenOk(s, t))
  }

  lemma UnlockInv(s: Store, s': Store, t: nat)
    requires Inv(s) && t in s.locks
    requires s' == s.(locks := s.locks - {t}, records := s'.records)
    requires s'.records == s.records || s'.records == s.records - {t}
    ensures Inv(s')
  {
    forall x | x in s'.locks ensures LockOk(s', x) {
      assert LockOk(s, x);
    }
    forall x: nat ensures TokenOk(s', x) {
      assert TokenOk(s, x);
    }
  }

  lemma FinishInv(s: Store, k: nat)
    requires Inv(s)
    ensures Inv(Finish(s, k).0)
  {
    if k < |s.claims| && s.claims[k].copy.Some? && Holds(s, s.claims[k]) {
      var t := s.claims[k].token;
      var s' := Finish(s, k).0;
      if RecordLive(s, t) {
        forall x | x in s'.locks ensures LockOk(s', x) {
          assert LockOk(s, x);
        }
        forall x: nat ensures TokenOk(s', x) {
          assert TokenOk(s, x);
          CountAppend(s.log, Failed(x), Done(t));
          CountAppend(s.log, Done(x), Done(t));
        }
      } else {
        UnlockInv(s, s', t);
      }
    }
  }

  lemma FailureInv(s: Store, k: nat)
    requires Inv(s)
    ensures Inv(RecordFailure(s, k).0)
  {
    if k < |s.claims| && s.claims[k].copy.Some? && Holds(s, s.claims[k]) {
      var t := s.claims[k].token;
      var s' := RecordFailure(s, k).0;
      if RecordLive(s, t) {
        assert LockOk(s, t) && TokenOk(s, t) && s.claims[k].value == k;
        forall x | x in s'.locks ensures LockOk(s', x) {
          assert LockOk(s, x);
        }
        forall x: nat ensures TokenOk(s', x) {
          assert TokenOk(s, x);
          CountAppend(s.log, Failed(x), Failed(t));
          CountAppend(s.log, Done(x), Failed(t));
        }
      } else {
        UnlockInv(s, s', t);
      }
    }
  }

  lemma ReadInv(s: Store, k: nat, timeLeft: bool)
    requires Inv(s)
    ensures Inv(Read(s, k, timeLeft))
  {
    if k < |s.claims| && s.claims[k].copy.None? {
      var s' := Read(s, k, timeLeft);
      if RecordLive(s, s.claims[k].token) && timeLeft {
        assert TokenOk(s, s.claims[k].token);
        forall x | x in s'.locks ensures LockOk(s', x) {
          assert LockOk(s, x);
        }
        forall x: nat ensures TokenOk(s', x) {
          assert TokenOk(s, x);
        }
      } else if Holds(s, s.claims[k]) {
        UnlockInv(s, s', s.claims[k].token);
      }
    }
  }

  lemma NextInv(s: Store, step: Step)
    requires Inv(s)
    ensures Inv(Next(s, step))
  {
    match step
    case ReadStep(k, timeLeft) => ReadInv(s, k, timeLeft);
    case FinishStep(k) => FinishInv(s, k);
    case FailureStep(k) => FailureInv(s, k);
    case ReleaseStep(k) =>
      if k < |s.claims| && Holds(s, s.claims[k]) { UnlockInv(s, Next(s, step), s.claims[k].token); }
    case _ =>
      var s' := Next(s, step);
      forall x | x in s'.locks ensures LockOk(s', x) {
        if x in s.locks { assert LockOk(s, x); }
        assert TokenOk(s, s.tokens);
      }
      forall x: nat ensures TokenOk(s', x) {
        assert TokenOk(s, x);
      }
  }

  lemma {:induction false} RunInv(s: Store, steps: seq<Step>)
    requires Inv(s)
    ensures Inv(Run(s, steps))
    decreases |steps|
  {
    if steps != [] {
      NextInv(s, steps[0]);
      RunInv(Next(s, steps[0]), steps[1..]);
    }
  }

  ghost predicate Reachable(s: Store) { exists steps: seq<Step> :: s == Run(Empty, steps) }

  lemma ReachableInv(s: Store)
    requires Reachable(s)
    ensures Inv(s)
  {
    var steps: seq<Step> :| s == Run(Empty, steps);
    assert Inv(Empty);
    RunInv(Empty, steps);
  }

  // The theorems.

  /** Whoever's value is in a token's lock holds an up-to-date copy of its record, or the record has
      expired: stalled clients included. */
  lemma HolderUpToDate(s: Store, k: nat)
    requires Reachable(s) && k < |s.claims| && Holds(s, s.claims[k]) && s.claims[k].copy.Some?
    ensures RecordLive(s, s.claims[k].token) ==> s.records[s.claims[k].token].record == s.claims[k].copy.value
    ensures forall j | 0 <= j < |s.claims| && Holds(s, s.claims[j]) && s.claims[j].token == s.claims[k].token :: j == k
  {
    ReachableInv(s);
    assert LockOk(s, s.claims[k].token);
  }

  /** Stored attempts are exactly the failures that were recorded, never more than five, and at
      most one finish succeeds. */
  lemma AttemptsExact(s: Store, t: nat)
    requires Reachable(s)
    ensures t in s.records ==>
      s.records[t].record.attempts == Count(s.log, Failed(t)) < MAX_ATTEMPTS && Count(s.log, Done(t)) == 0
    ensures Count(s.log, Failed(t)) <= MAX_ATTEMPTS && Count(s.log, Done(t)) <= 1
    ensures Count(s.log, Failed(t)) == MAX_ATTEMPTS ==> Count(s.log, Done(t)) == 0 && t !in s.records
  {
    ReachableInv(s);
    assert TokenOk(s, t);
  }

  /** A script succeeds exactly when its client still holds the lock and the record is still there;
      it then counts once and the lock is free. */
  lemma ScriptsExact(s: Store, k: nat)
    requires Reachable(s) && k < |s.claims| && s.claims[k].copy.Some?
    ensures var t := s.claims[k].token; var (f, finished) := Finish(s, k); var (r, recorded) := RecordFailure(s, k);
      && (finished <==> Holds(s, s.claims[k]) && RecordLive(s, t)) && (recorded <==> finished)
      && (finished ==> Count(f.log, Done(t)) == Count(s.log, Done(t)) + 1 && t !in f.records && t !in f.locks)
      && (recorded ==> Count(r.log, Failed(t)) == Count(s.log, Failed(t)) + 1 && t !in r.locks)
      && (recorded ==> (t in r.records <==> Count(s.log, Failed(t)) < MAX_ATTEMPTS - 1))
      && (!Holds(s, s.claims[k]) ==> f == s && r == s)
  {
    ReachableInv(s);
    var t := s.claims[k].token;
    CountAppend(s.log, Done(t), Done(t));
    CountAppend(s.log, Failed(t), Failed(t));
    if Holds(s, s.claims[k]) { assert LockOk(s, t) && TokenOk(s, t); }
  }

  /** The record of a token has been deleted or has expired. */
  predicate Closed(s: Store, t: nat) { t < s.tokens && !RecordLive(s, t) }

  /** The token stays closed, and nothing is recorded or finished on it. */
  predicate StaysClosed(s: Store, s': Store, t: nat) {
    && Closed(s', t) && (t !in s.records ==> t !in s'.records)
    && Count(s'.log, Failed(t)) == Count(s.log, Failed(t)) && Count(s'.log, Done(t)) == Count(s.log, Done(t))
  }

  lemma NextClosed(s: Store, step: Step, t: nat)
    requires Inv(s) && Closed(s, t)
    ensures StaysClosed(s, Next(s, step), t)
  {
    match step
    case FinishStep(k) =>
      if Finish(s, k).1 {
        CountAppend(s.log, Failed(t), Done(s.claims[k].token));
        CountAppend(s.log, Done(t), Done(s.claims[k].token));
      }
    case FailureStep(k) =>
      if RecordFailure(s, k).1 {
        CountAppend(s.log, Failed(t), Failed(s.claims[k].token));
        CountAppend(s.log, Done(t), Failed(s.claims[k].token));
      }
    case _ =>
  }

  /** A token whose record was deleted or has expired never gains a failure or a finish. */
  lemma {:induction false} ClosedForEver(s: Store, steps: seq<Step>, t: nat)
    requires Inv(s) && Closed(s, t)
    ensures StaysClosed(s, Run(s, steps), t)
    decreases |steps|
  {
    if steps != [] {
      NextClosed(s, steps[0], t);
      NextInv(s, steps[0]);
      ClosedForEver(Next(s, steps[0]), steps[1..], t);
    }
  }

  /** After a finish no later claim can fail or finish the token, whatever else happens. */
  lemma FinishIsFinal(s: Store, k: nat, steps: seq<Step>)
    requires Reachable(s) && Finish(s, k).1
    ensures k < |s.claims|
    ensures var t := s.claims[k].token; var s' := Run(Finish(s, k).0, steps);
      t !in s'.records && Count(s'.log, Done(t)) == 1 &&
        Count(s'.log, Failed(t)) == Count(s.log, Failed(t)) < MAX_ATTEMPTS
  {
    ReachableInv(s);
    var t := s.claims[k].token;
    var f := Finish(s, k).0;
    assert TokenOk(s, t);
    FinishInv(s, k);
    CountAppend(s.log, Done(t), Done(t));
    CountAppend(s.log, Failed(t), Done(t));
    ClosedForEver(f, steps, t);
  }

  // The service.

  datatype StateError = StateInvalid

  class GoogleOAuthState {
    var clock: int
    var tokens: nat
    var records: map<nat, Entry>
    var locks: map<nat, Lock>
    var claims: seq<Claim>
    var log: seq<Event>

    function Tables(): Store
      reads this
    {
      Store(clock, tokens, records, locks, claims, log)
    }

    constructor ()
      ensures Tables() == Empty
    {
      clock, tokens, records, locks, claims, log := 0, 0, map[], map[], [], [];
    }

    method CreateOnboarding(profile: int, ttl: nat) returns (token: nat)
      modifies this
      ensures Tables() == Create(old(Tables()), profile, ttl) && token == old(tokens)
    {
      token := tokens;
      tokens := tokens + 1;
      records := records[token := Entry(Record(0, profile), clock + ttl)];
    }

    method AcquireLock(token: nat) returns (claim: Option<nat>)
      modifies this
      ensures Tables() == Acquire(old(Tables()), token)
      ensures claim == if LockLive(old(Tables()), token) then None else Some(|old(claims)|)
    {
      if token in locks && locks[token].expiresAt > clock { return None; }
      var value := |claims|;
      locks := locks[token := Lock(value, clock + LOCK_SECONDS)];
      claims := claims + [Claim(token, value, None)];
      return Some(value);
    }

    method ReleaseLock(claim: nat)
      requires claim < |claims|
      modifies this
      ensures Tables() == Release(old(Tables()), claim)
    {
      var c := claims[claim];
      if Holds(Tables(), c) { locks := locks - {c.token}; }
    }

    /** The whole claim when nothing comes between its lock and its read. */
    method ClaimOnboarding(token: nat, timeLeft: bool) returns (r: Result<Claim, StateError>)
      modifies this
      ensures LockLive(old(Tables()), token) ==> r == Err(StateInvalid) && Tables() == old(Tables())
      ensures !LockLive(old(Tables()), token) ==>
        Tables() == Read(Acquire(old(Tables()), token), |old(claims)|, timeLeft)
      ensures r.Ok? <==> !LockLive(old(Tables()), token) && RecordLive(old(Tables()), token) && timeLeft
      ensures r.Ok? ==>
        Holds(Tables(), r.value) && r.value == claims[|old(claims)|] && r.value.copy == Some(records[token].record)
      ensures r.Err? ==> records == old(records) && (!LockLive(old(Tables()), token) ==> token !in locks)
    {
      var claim := AcquireLock(token);
      if claim.None? { return Err(StateInvalid); }
      if token !in records || records[token].expiresAt <= clock || !timeLeft {
        ReleaseLock(claim.value);
        return Err(StateInvalid);
      }
      claims := claims[claim.value := claims[claim.value].(copy := Some(records[token].record))];
      return Ok(claims[claim.value]);
    }

    method FinishOnboarding(claim: nat) returns (r: Result<(), StateError>)
      requires claim < |claims| && claims[claim].copy.Some?
      modifies this
      ensures Tables() == Finish(old(Tables()), claim).0 && (r.Ok? <==> Finish(old(Tables()), claim).1)
    {
      var c := claims[claim];
      if !Holds(Tables(), c) { return Err(StateInvalid); }
      if !RecordLive(Tables(), c.token) {
        locks := locks - {c.token};
        return Err(StateInvalid);
      }
      records, locks := records - {c.token}, locks - {c.token};
      log := log + [Done(c.token)];
      return Ok(());
    }

    method RecordFailedLink(claim: nat) returns (r: Result<(), StateError>)
      requires claim < |claims| && claims[claim].copy.Some?
      modifies this
      ensures Tables() == RecordFailure(old(Tables()), claim).0 && (r.Ok? <==> RecordFailure(old(Tables()), claim).1)
    {
      var c := claims[claim];
      var attempts := c.copy.value.attempts + 1;
      var exhausted := attempts >= MAX_ATTEMPTS;
      if !Holds(Tables(), c) { return Err(StateInvalid); }
      if !RecordLive(Tables(), c.token) {
        locks := locks - {c.token};
        return Err(StateInvalid);
      }
      if exhausted {
        records := records - {c.token};
      } else {
        records := records[c.token := records[c.token].(record := c.copy.value.(attempts := attempts))];
      }
      locks := locks - {c.token};
      log := log + [Failed(c.token)];
      return Ok(());
    }
  }
}
