/** What each script of an onboarding token writes, on the records and locks themselves. */
module OnboardingEffects {
  import opened Wrappers
  import opened Onboarding

  /** The record of the token is there and its time is not up. */
  predicate Standing(s: Store, t: nat) { t in s.records && s.clock < s.records[t].expiresAt }

  predicate Locked(s: Store, t: nat) { t in s.locks && s.clock < s.locks[t].expiresAt }

  /** The client has read the record, and its value is in the lock. */
  predicate InCharge(s: Store, k: nat) {
    && k < |s.claims| && s.claims[k].copy.Some?
    && Locked(s, s.claims[k].token) && s.locks[s.claims[k].token].value == s.claims[k].value
  }

  /** A new token starts without attempts, with the time it is given, and replaces nothing. */
  lemma CreationWrites(s: Store, profile: int, ttl: nat)
    requires Reachable(s)
    ensures s.tokens !in s.records
    ensures Create(s, profile, ttl) == s.(tokens := s.tokens + 1,
      records := s.records[s.tokens := Entry(Record(0, profile), s.clock + ttl)])
  {
    ReachableInv(s);
    assert TokenOk(s, s.tokens);
  }

  /** A lock goes to one client, for half a minute; nobody else remembers it. */
  lemma LockWrites(s: Store, t: nat)
    requires Reachable(s)
    ensures var k := |s.claims|;
      Acquire(s, t) == if Locked(s, t) then s
        else s.(locks := s.locks[t := Lock(k, s.clock + 30)], claims := s.claims + [Claim(t, k, None)])
    ensures forall j | 0 <= j < |s.claims| :: s.claims[j].value != |s.claims|
  {
    ReachableInv(s);
  }

  /** A client reads what is stored, once; without a record, or without time, it gives up its own lock. */
  lemma ReadWrites(s: Store, k: nat, timeLeft: bool)
    requires k < |s.claims| && s.claims[k].copy.None?
    ensures var c := s.claims[k]; var t := Read(s, k, timeLeft);
      if Standing(s, c.token) && timeLeft
      then t == s.(claims := s.claims[k := Claim(c.token, c.value, Some(s.records[c.token].record))])
      else t == ReleaseOf(s, k)
  {
  }

  /** Only the client whose value is in the lock removes it. */
  function ReleaseOf(s: Store, k: nat): Store
    requires k < |s.claims|
  {
    var t := s.claims[k].token;
    if Locked(s, t) && s.locks[t].value == s.claims[k].value then s.(locks := s.locks - {t}) else s
  }

  lemma ReleaseWrites(s: Store, k: nat)
    requires k < |s.claims|
    ensures Release(s, k) == ReleaseOf(s, k)
  {
  }

  /** A finish deletes the record and the lock of its token and is remembered once. */
  lemma FinishWrites(s: Store, k: nat)
    ensures var (t, finished) := Finish(s, k);
      if !InCharge(s, k) then !finished && t == s
      else
        var token := s.claims[k].token;
        && (finished <==> Standing(s, token))
        && t == s.(locks := s.locks - {token}, records := t.records, log := t.log)
        && t.records == (if finished then s.records - {token} else s.records)
        && t.log == (if finished then s.log + [Done(token)] else s.log)
  {
  }

  /** A failed link adds one attempt to the stored record, which keeps its profile and its time; with
      the fifth the record is gone. The lock is free either way. */
  lemma FailureWrites(s: Store, k: nat)
    requires Reachable(s)
    ensures var (t, recorded) := RecordFailure(s, k);
      if !InCharge(s, k) then !recorded && t == s
      else
        var token := s.claims[k].token;
        && (recorded <==> Standing(s, token))
        && t == s.(locks := s.locks - {token}, records := t.records, log := t.log)
        && t.log == (if recorded then s.log + [Failed(token)] else s.log)
        && if !recorded then t.records == s.records
           else
             var entry := s.records[token];
             if entry.record.attempts >= 4 then t.records == s.records - {token}
             else t.records == s.records[token :=
               Entry(Record(entry.record.attempts + 1, entry.record.profile), entry.expiresAt)]
  {
    ReachableInv(s);
    if InCharge(s, k) { assert LockOk(s, s.claims[k].token); }
  }

  // Over a run.

  /** The record of the token is the earlier one, with no fewer attempts. */
  predicate Kept(s: Store, s': Store, t: nat) {
    t in s.records && t in s'.records ==>
      && s'.records[t].record.profile == s.records[t].record.profile
      && s'.records[t].expiresAt == s.records[t].expiresAt
      && s'.records[t].record.attempts >= s.records[t].record.attempts
  }

  predicate Deleted(s: Store, t: nat) { t < s.tokens && t !in s.records }

  lemma NextKeeps(s: Store, step: Step, t: nat)
    requires Reachable(s)
    ensures Kept(s, Next(s, step), t) && (Deleted(s, t) ==> Deleted(Next(s, step), t))
    ensures t in s.records ==> t in Next(s, step).records || Deleted(Next(s, step), t)
  {
    ReachableInv(s);
    assert TokenOk(s, t) && TokenOk(s, s.tokens);
    match step
    case FailureStep(k) => FailureWrites(s, k);
    case FinishStep(k) => FinishWrites(s, k);
    case _ =>
  }

  lemma {:induction false} RunConcat(s: Store, a: seq<Step>, b: seq<Step>)
    ensures Run(s, a + b) == Run(Run(s, a), b)
    decreases |a|
  {
    if a == [] {
      assert a + b == b;
    } else {
      RunConcat(Next(s, a[0]), a[1..], b);
      assert (a + b)[1..] == a[1..] + b;
    }
  }

  lemma RunReachable(s: Store, steps: seq<Step>)
    requires Reachable(s)
    ensures Reachable(Run(s, steps))
  {
    var before: seq<Step> :| s == Run(Empty, before);
    RunConcat(Empty, before, steps);
  }

  /** As long as a token has a record, it is about the same profile and ends at the same time: no
      failed link prolongs it, and a deleted record never comes back. */
  lemma {:induction false} RecordKept(s: Store, steps: seq<Step>, t: nat)
    requires Reachable(s)
    ensures Kept(s, Run(s, steps), t) && (Deleted(s, t) ==> Deleted(Run(s, steps), t))
    ensures t in s.records ==> t in Run(s, steps).records || Deleted(Run(s, steps), t)
    decreases |steps|
  {
    if steps != [] {
      var n := |steps| - 1;
      var s' := Run(s, steps[..n]);
      RecordKept(s, steps[..n], t);
      RunReachable(s, steps[..n]);
      RunConcat(s, steps[..n], [steps[n]]);
      assert steps == steps[..n] + [steps[n]];
      NextKeeps(s', steps[n], t);
    }
  }
}
