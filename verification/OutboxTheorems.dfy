/** The guarantees of the outbox and of notification delivery, over every run from an empty store. */
module OutboxTheorems {
  import opened Wrappers
  import opened OutboxTypes
  import opened OutboxProof

  ghost predicate Reachable(c: Config, s: Store) {
    ConfigOk(c) && exists steps: seq<Step> :: Run(c, EmptyStore, steps) == s
  }

  lemma ReachableInv(c: Config, s: Store)
    requires Reachable(c, s)
    ensures Inv(c, s)
  {
    var steps: seq<Step> :| Run(c, EmptyStore, steps) == s;
    RunInv(c, EmptyStore, steps);
  }

  // Notification fencing.

  /** Attempts of a notification are numbered 1 to n, at most one is in progress, and it is the last. */
  lemma AttemptsFenced(c: Config, s: Store, n: nat, i: nat, j: nat)
    requires Reachable(c, s) && n < |s.notifications| && i < |s.notifications[n].attempts| &&
      j < |s.notifications[n].attempts|
    ensures s.notifications[n].attempts[i].number == i + 1
    ensures s.notifications[n].attempts[i].status == NotificationProcessing ==>
      i == |s.notifications[n].attempts| - 1 && s.notifications[n].status == NotificationProcessing
    ensures
      && s.notifications[n].attempts[i].status == NotificationProcessing
      && s.notifications[n].attempts[j].status == NotificationProcessing
      ==> i == j
  {
    ReachableInv(c, s);
    assert AttemptsOk(s.notifications[n]);
  }

  /** The attempt of the work record is no longer the one in progress. */
  predicate Superseded(s: Store, w: Work) {
    && Findable(s, w)
    && (w.attempt + 1 < |s.notifications[w.notification].attempts|
        || s.notifications[w.notification].attempts[w.attempt].status != NotificationProcessing)
  }

  /** Every issued work record points at rows that exist. */
  lemma IssuedFindable(c: Config, s: Store, w: Work)
    requires Reachable(c, s) && w in s.issued
    ensures Findable(s, w) && s.events[w.event].key == NotificationKey(w.notification)
  {
    ReachableInv(c, s);
    assert WorkOk(s, w);
  }

  /** A worker whose attempt has been superseded, or is over, cannot change any notification's
      status, whatever it reports; and its success is lost unless the notification is closed. */
  lemma SupersededHarmless(c: Config, s: Store, w: Work, provider: string, n: nat)
    requires Reachable(c, s) && n < |s.notifications| && Superseded(s, w)
    ensures FinalizeSuccess(s, w, provider).notifications[n].status == s.notifications[n].status
    ensures FinalizeFailure(c, s, w).notifications[n].status == s.notifications[n].status
    ensures
      && s.notifications[w.notification].status != Delivered
      && s.notifications[w.notification].status != NotificationCancelled
      ==> FinalizeSuccess(s, w, provider) == s
  {
    ReachableInv(c, s);
    assert WorkOk(s, w) && AttemptsOk(s.notifications[w.notification]);
  }

  /** DELIVERED goes with a PROCESSED event, a PROCESSED event with DELIVERED or CANCELLED, and a
      dead-lettered notification with a dead-lettered event. */
  lemma StatusesAgree(c: Config, s: Store, i: nat, n: nat)
    requires Reachable(c, s) && i < |s.events| && n < |s.notifications| && s.events[i].key == NotificationKey(n)
    ensures s.notifications[n].status == Delivered ==> s.events[i].status == Processed
    ensures s.events[i].status == Processed ==>
      s.notifications[n].status == Delivered || s.notifications[n].status == NotificationCancelled
    ensures s.notifications[n].status == NotificationCancelled ==> s.events[i].status == Processed
    ensures s.notifications[n].status == NotificationDeadLetter ==> s.events[i].status == DeadLetter
  {
    ReachableInv(c, s);
    assert IsDispatch(s.events[i], n);
  }

  /** A notification that has left its queue has exactly one dispatch event. */
  lemma OneDispatchEach(c: Config, s: Store, n: nat) returns (i: nat)
    requires Reachable(c, s) && n < |s.notifications| && s.notifications[n].status != Queued
    ensures i < |s.events| && s.events[i].key == NotificationKey(n)
    ensures forall j | 0 <= j < |s.events| && s.events[j].key == NotificationKey(n) :: j == i
  {
    ReachableInv(c, s);
    assert HasDispatch(s, n);
    i :| 0 <= i < |s.events| && IsDispatch(s.events[i], n);
  }

  // What is final.

  predicate EventAdvances(e: Event, e': Event) {
    && SameIdentity(e, e')
    && (e.status == Processed ==> e' == e)
    && (e.status == DeadLetter || e.status == Cancelled ==> e'.status == e.status || e'.status == Processed)
  }

  predicate Closed(s: NotificationStatus) {
    s == Delivered || s == NotificationCancelled || s == NotificationDeadLetter
  }

  predicate NotificationAdvances(row: Notification, row': Notification) {
    && (Closed(row.status) ==> row'.status == row.status)
    && |row.attempts| <= |row'.attempts|
    && (forall i | 0 <= i < |row.attempts| ::
      row'.attempts[i].number == row.attempts[i].number && row'.attempts[i].provider == row.attempts[i].provider)
  }

  predicate Advances(s: Store, s': Store) {
    && |s.events| <= |s'.events| && |s.notifications| <= |s'.notifications|
    && (forall i | 0 <= i < |s.events| :: EventAdvances(s.events[i], s'.events[i]))
    && (forall n | 0 <= n < |s.notifications| :: NotificationAdvances(s.notifications[n], s'.notifications[n]))
    && s.deleted <= s'.deleted && s.issued <= s'.issued
  }

  lemma SuccessAdvances(c: Config, s: Store, w: Work, provider: string, i: nat, n: nat)
    requires Inv(c, s) && i < |s.events| && n < |s.notifications|
    ensures EventAdvances(s.events[i], FinalizeSuccess(s, w, provider).events[i])
    ensures NotificationAdvances(s.notifications[n], FinalizeSuccess(s, w, provider).notifications[n])
  {
    if Findable(s, w) { WorkSound(c, s, w); }
  }

  lemma FailureAdvancesEvent(c: Config, s: Store, w: Work, i: nat)
    requires Inv(c, s) && i < |s.events|
    ensures EventAdvances(s.events[i], FinalizeFailure(c, s, w).events[i])
  {
    if Findable(s, w) { WorkSound(c, s, w); }
  }

  lemma FailureAdvancesNotification(c: Config, s: Store, w: Work, n: nat)
    requires Inv(c, s) && n < |s.notifications|
    ensures NotificationAdvances(s.notifications[n], FinalizeFailure(c, s, w).notifications[n])
  {
    if Findable(s, w) { WorkSound(c, s, w); }
  }

  lemma ClaimAdvances(c: Config, s: Store, job: Job, worker: nat, provider: Option<string>, i: nat, n: nat)
    requires Inv(c, s) && i < |s.events| && n < |s.notifications|
    ensures EventAdvances(s.events[i], ClaimNotification(c, s, job, worker, provider).events[i])
    ensures NotificationAdvances(s.notifications[n], ClaimNotification(c, s, job, worker, provider).notifications[n])
  {
    if Accepts(s, job) && job.eventType == NotificationType { ClaimMeetsOpen(c, s, job); }
  }

  predicate TouchesNotifications(step: Step) {
    step.FinalizeSuccessStep? || step.FinalizeFailureStep? || step.ClaimNotificationStep?
  }

  lemma OtherAdvances(c: Config, s: Store, step: Step, i: nat)
    requires Inv(c, s) && i < |s.events| && !TouchesNotifications(step)
    ensures i < |Next(c, s, step).events| && EventAdvances(s.events[i], Next(c, s, step).events[i])
  {
    assert EventOk(c, s.clock, s.events[i]);
  }

  lemma NotificationsKept(c: Config, s: Store, step: Step)
    requires !TouchesNotifications(step)
    ensures s.notifications <= Next(c, s, step).notifications
  {}

  lemma NextAdvancesEvent(c: Config, s: Store, step: Step, i: nat)
    requires Inv(c, s) && i < |s.events|
    ensures i < |Next(c, s, step).events| && EventAdvances(s.events[i], Next(c, s, step).events[i])
  {
    NextKeepsRecords(c, s, step);
    if !TouchesNotifications(step) {
      OtherAdvances(c, s, step, i);
    } else if s.notifications == [] {
      assert EventAdvances(s.events[i], s.events[i]);
    } else {
      match step
      case FinalizeSuccessStep(w, deliveredBy) => SuccessAdvances(c, s, w, deliveredBy, i, 0);
      case FinalizeFailureStep(w) => FailureAdvancesEvent(c, s, w, i);
      case ClaimNotificationStep(job, worker, provider) => ClaimAdvances(c, s, job, worker, provider, i, 0);
    }
  }

  lemma NextAdvancesNotification(c: Config, s: Store, step: Step, n: nat)
    requires Inv(c, s) && n < |s.notifications|
    ensures n < |Next(c, s, step).notifications| &&
      NotificationAdvances(s.notifications[n], Next(c, s, step).notifications[n])
  {
    NextKeepsRecords(c, s, step);
    if !TouchesNotifications(step) {
      NotificationsKept(c, s, step);
      assert Next(c, s, step).notifications[n] == s.notifications[n];
    } else if s.events == [] {
      assert NotificationAdvances(s.notifications[n], s.notifications[n]);
    } else {
      match step
      case FinalizeSuccessStep(w, deliveredBy) => SuccessAdvances(c, s, w, deliveredBy, 0, n);
      case FinalizeFailureStep(w) => FailureAdvancesNotification(c, s, w, n);
      case ClaimNotificationStep(job, worker, provider) => ClaimAdvances(c, s, job, worker, provider, 0, n);
    }
  }

  lemma NextAdvances(c: Config, s: Store, step: Step)
    requires Inv(c, s)
    ensures Advances(s, Next(c, s, step))
  {
    var s' := Next(c, s, step);
    forall i | 0 <= i < |s.events| ensures i < |s'.events| && EventAdvances(s.events[i], s'.events[i]) {
      NextAdvancesEvent(c, s, step, i);
    }
    forall n | 0 <= n < |s.notifications|
      ensures n < |s'.notifications| && NotificationAdvances(s.notifications[n], s'.notifications[n])
    {
      NextAdvancesNotification(c, s, step, n);
    }
    NextKeepsRecords(c, s, step);
    assert |s.events| <= |s'.events| && |s.notifications| <= |s'.notifications|;
  }

  lemma NextKeepsRecords(c: Config, s: Store, step: Step)
    ensures s.deleted <= Next(c, s, step).deleted && s.issued <= Next(c, s, step).issued
    ensures |s.events| <= |Next(c, s, step).events| && |s.notifications| <= |Next(c, s, step).notifications|
  {}

  lemma AdvancesTransitive(s: Store, t: Store, u: Store)
    requires Advances(s, t) && Advances(t, u)
    ensures Advances(s, u)
  {
    forall i | 0 <= i < |s.events| ensures EventAdvances(s.events[i], u.events[i]) {
      assert EventAdvances(s.events[i], t.events[i]) && EventAdvances(t.events[i], u.events[i]);
    }
    forall n | 0 <= n < |s.notifications| ensures NotificationAdvances(s.notifications[n], u.notifications[n]) {
      assert NotificationAdvances(s.notifications[n], t.notifications[n]) &&
        NotificationAdvances(t.notifications[n], u.notifications[n]);
    }
  }

  /** Over any run: PROCESSED is absorbing, DEAD_LETTER and CANCELLED events are left only to
      PROCESSED, DELIVERED, CANCELLED and DEAD_LETTER notifications never change status, and
      attempts are only added. */
  lemma {:induction false} RunAdvances(c: Config, s: Store, steps: seq<Step>)
    requires Inv(c, s)
    ensures Advances(s, Run(c, s, steps))
    decreases |steps|
  {
    if steps != [] {
      NextInv(c, s, steps[0]);
      NextAdvances(c, s, steps[0]);
      RunAdvances(c, Next(c, s, steps[0]), steps[1..]);
      AdvancesTransitive(s, Next(c, s, steps[0]), Run(c, s, steps));
    }
  }

  /** Publishing and rescheduling never revive a finished event. */
  lemma NoRevival(c: Config, s: Store, i: nat, worker: nat)
    requires i < |s.events| && Terminal(s.events[i].status)
    ensures MarkPublished(c, s, i, worker).events[i] == s.events[i]
    ensures ScheduleRetry(c, s, i).events[i] == s.events[i]
    ensures ClaimAvailable(c, s, worker).events[i] == s.events[i]
  {}

  /** A dead-lettered or cancelled event becomes PROCESSED only in the hands of a completing worker:
      a finished delivery or a finished media clean-up. */
  lemma OnlyCompletionRevives(c: Config, s: Store, step: Step, i: nat)
    requires Inv(c, s) && i < |s.events| && Terminal(s.events[i].status) && s.events[i].status != Processed
    requires Next(c, s, step).events[i].status == Processed
    ensures
      || (step.CompleteMediaStep? && step.m < |s.media| && s.media[step.m].job.event == i &&
        s.media[step.m].done == |s.media[step.m].keys|)
      || (step.FinalizeSuccessStep? && Findable(s, step.w) && step.w.event == i)
  {
    if step.FinalizeFailureStep? && Findable(s, step.w) { WorkSound(c, s, step.w); }
    if step.CompleteMediaStep? && step.m < |s.media| {
      assert s.media[step.m] in s.media && MediaOk(s, s.media[step.m]);
    }
  }

  /** A media event is PROCESSED only once every object of its payload is gone. */
  lemma MediaDeleted(c: Config, s: Store, i: nat, k: string)
    requires Reachable(c, s) && i < |s.events| && s.events[i].eventType == MediaType && s.events[i].status == Processed
    ensures s.events[i].payload.MediaDelete? && (k in s.events[i].payload.keys ==> k in s.deleted)
  {
    ReachableInv(c, s);
    assert EventOk(c, s.clock, s.events[i]) && MediaDone(s, s.events[i]);
  }

  // Claims.

  /** The time from which an unfinished event can be claimed. */
  function Deadline(e: Event): Option<int> {
    if e.status == Pending || e.status == Retry then Some(e.availableAt)
    else if Held(e.status) then e.leaseExpiresAt
    else None
  }

  /** Every unfinished event has a deadline, and a poll made after it leases or dead-letters the
      event unless a full batch of due events comes before it. */
  lemma NeverStuck(c: Config, s: Store, i: nat, worker: nat)
    requires Reachable(c, s) && i < |s.events| && !Terminal(s.events[i].status)
    ensures Deadline(s.events[i]).Some?
    ensures s.clock >= Deadline(s.events[i]).value ==>
      var e' := ClaimAvailable(c, s, worker).events[i];
      || e'.status == DeadLetter
      || (e'.status == Leased && e'.leaseOwner == Some(worker) && e'.attempts == s.events[i].attempts + 1)
      || |AheadOf(SweepAll(s.events), i, s.clock)| >= c.batchSize
  {
    ReachableInv(c, s);
    assert EventOk(c, s.clock, s.events[i]);
  }

  /** A poll never passes over a due event in favour of a later one. */
  lemma ClaimsInOrder(c: Config, events: seq<Event>, i: nat, j: nat, now: int)
    requires i < |events| && j < |events| && InBatch(c, events, i, now) && Due(events[j], now) && Ahead(events, j, i)
    ensures InBatch(c, events, j, now)
  {
    var before := AheadOf(events, j, now);
    assert before <= AheadOf(events, i, now);
    SubsetSize(before, AheadOf(events, i, now));
  }

  lemma SubsetSize(a: set<nat>, b: set<nat>)
    requires a <= b
    ensures |a| <= |b|
  {
    assert b == a + (b - a);
  }

  function Batch(c: Config, events: seq<Event>, now: int): set<nat> {
    set i: nat | i < |events| && InBatch(c, events, i, now)
  }

  lemma {:induction false} LastOf(events: seq<Event>, chosen: set<nat>) returns (m: nat)
    requires chosen != {} && forall i | i in chosen :: i < |events|
    ensures m in chosen && forall i | i in chosen && i != m :: Ahead(events, i, m)
    decreases |chosen|
  {
    m :| m in chosen;
    var first := m;
    var rest := chosen - {first};
    assert forall i | i in chosen && i != first :: i in rest;
    if rest != {} {
      var q := LastOf(events, rest);
      if Ahead(events, m, q) {
        m := q;
      } else {
        assert Ahead(events, q, first);
        forall i | i in rest ensures Ahead(events, i, first) { assert i == q || Ahead(events, i, q); }
      }
    }
  }

  /** A poll leases at most a batch. */
  lemma BatchBounded(c: Config, events: seq<Event>, now: int)
    ensures |Batch(c, events, now)| <= c.batchSize
  {
    var chosen := Batch(c, events, now);
    if chosen != {} {
      var m := LastOf(events, chosen);
      SubsetSize(chosen - {m}, AheadOf(events, m, now));
      assert |chosen| == |chosen - {m}| + 1;
    }
  }

  /** The step claims event i. */
  predicate ClaimsEvent(c: Config, s: Store, step: Step, i: nat) {
    step.ClaimAvailableStep? && i < |s.events| && InBatch(c, SweepAll(s.events), i, s.clock)
  }

  /** Each claim raises the attempt count by exactly one and never past the maximum; nothing else
      changes it. */
  lemma ClaimCounts(c: Config, s: Store, step: Step, i: nat)
    requires Inv(c, s) && i < |s.events|
    ensures i < |Next(c, s, step).events|
    ensures Next(c, s, step).events[i].attempts ==
      s.events[i].attempts + (if ClaimsEvent(c, s, step, i) then 1 else 0)
    ensures Next(c, s, step).events[i].attempts <= s.events[i].maxAttempts
  {
    NextAdvancesEvent(c, s, step, i);
    if step.ClaimAvailableStep? {
      assert EventOk(c, s.clock, s.events[i]);
    } else {
      OthersKeepCount(c, s, step, i);
      assert EventOk(c, s.clock, s.events[i]);
    }
  }

  lemma OthersKeepCount(c: Config, s: Store, step: Step, i: nat)
    requires i < |s.events| && i < |Next(c, s, step).events| && !step.ClaimAvailableStep?
    ensures Next(c, s, step).events[i].attempts == s.events[i].attempts
  {
  }

  /** How often event i is claimed in the course of a run. */
  function Claims(c: Config, s: Store, steps: seq<Step>, i: nat): nat
    decreases |steps|
  {
    if steps == [] then 0
    else
      (if ClaimsEvent(c, s, steps[0], i) then 1 else 0)
      + Claims(c, Next(c, s, steps[0]), steps[1..], i)
  }

  /** Claiming terminates: over any run an event is claimed at most its maximum number of times. */
  lemma {:induction false} ClaimsBounded(c: Config, s: Store, steps: seq<Step>, i: nat)
    requires Inv(c, s) && i < |s.events|
    ensures i < |Run(c, s, steps).events|
    ensures Run(c, s, steps).events[i].attempts == s.events[i].attempts + Claims(c, s, steps, i)
    ensures s.events[i].attempts + Claims(c, s, steps, i) <= s.events[i].maxAttempts
    decreases |steps|
  {
    if steps == [] {
      assert EventOk(c, s.clock, s.events[i]);
    } else {
      NextInv(c, s, steps[0]);
      ClaimCounts(c, s, steps[0], i);
      NextAdvancesEvent(c, s, steps[0], i);
      ClaimsBounded(c, Next(c, s, steps[0]), steps[1..], i);
    }
  }

  /** The step gives event i a new date: a deferral, or the report of a failed delivery. */
  predicate Reschedules(step: Step, i: nat) {
    step == ScheduleRetryStep(i) || (step.FinalizeFailureStep? && step.w.event == i)
  }

  /** Event i was claimed at this time or later, and nothing has given it a new date since. */
  predicate ClaimedSince(s: Store, i: nat, from: int) {
    && i < |s.events| && from <= s.clock && s.events[i].status != Retry
    && s.events[i].lastAttemptAt.Some? && from <= s.events[i].lastAttemptAt.value
  }

  lemma NextClaimedSince(c: Config, s: Store, step: Step, i: nat, from: int)
    requires Inv(c, s) && ClaimedSince(s, i, from) && !Reschedules(step, i)
    ensures ClaimedSince(Next(c, s, step), i, from)
  {
    NextKeepsRecords(c, s, step);
  }

  lemma {:induction false} RunClaimedSince(c: Config, s: Store, steps: seq<Step>, i: nat, from: int)
    requires Inv(c, s) && ClaimedSince(s, i, from)
    requires forall k | 0 <= k < |steps| :: !Reschedules(steps[k], i)
    ensures ClaimedSince(Run(c, s, steps), i, from) && Inv(c, Run(c, s, steps))
    decreases |steps|
  {
    if steps != [] {
      NextInv(c, s, steps[0]);
      NextClaimedSince(c, s, steps[0], i, from);
      RunClaimedSince(c, Next(c, s, steps[0]), steps[1..], i, from);
    }
  }

  lemma ClaimWaits(c: Config, s: Store, step: Step, i: nat, from: int)
    requires Inv(c, s) && ClaimedSince(s, i, from) && ClaimsEvent(c, s, step, i)
    ensures s.clock >= from + c.lease
  {
    assert EventOk(c, s.clock, s.events[i]);
  }

  /** Two claims of one event are a full lease apart, whatever happens in between except that the
      event is rescheduled. */
  lemma ClaimsApart(c: Config, s: Store, claim: Step, between: seq<Step>, again: Step, i: nat)
    requires Reachable(c, s) && ClaimsEvent(c, s, claim, i)
    requires forall k | 0 <= k < |between| :: !Reschedules(between[k], i)
    requires ClaimsEvent(c, Run(c, Next(c, s, claim), between), again, i)
    ensures Run(c, Next(c, s, claim), between).clock >= s.clock + c.lease
  {
    ReachableInv(c, s);
    NextInv(c, s, claim);
    RunClaimedSince(c, Next(c, s, claim), between, i, s.clock);
    ClaimWaits(c, Run(c, Next(c, s, claim), between), again, i, s.clock);
  }

  /** A dead-lettered event has used up its attempts. */
  lemma DeadLetterExhausted(c: Config, s: Store, i: nat)
    requires Reachable(c, s) && i < |s.events| && s.events[i].status == DeadLetter
    ensures s.events[i].attempts == s.events[i].maxAttempts
  {
    ReachableInv(c, s);
    assert EventOk(c, s.clock, s.events[i]);
  }

  /** A delivery claim never meets a closed notification: those branches cannot be reached. */
  lemma ClosedBranchesDead(c: Config, s: Store, job: Job)
    requires Reachable(c, s) && Accepts(s, job) && job.eventType == NotificationType
    ensures var n := s.events[job.event].payload.notification;
      n < |s.notifications| && !Closed(s.notifications[n].status)
  {
    ReachableInv(c, s);
    ClaimMeetsOpen(c, s, job);
  }
}
