/** What holds of the outbox under every interleaving of workers, late ones included. */
module OutboxProof {
  import opened Wrappers
  import opened OutboxTypes

  // The invariant, event by event and notification by notification.

  predicate EventOk(c: Config, now: int, e: Event) {
    && e.attempts <= e.maxAttempts
    && (e.attempts > 0 <==> e.lastAttemptAt.Some?)
    && (e.lastAttemptAt.Some? ==> e.lastAttemptAt.value <= now)
    && (e.status == Pending ==> e.attempts == 0)
    && (Held(e.status) ==>
      e.lastAttemptAt.Some? && e.leaseExpiresAt.Some? && e.leaseExpiresAt.value >= e.lastAttemptAt.value + c.lease)
    && (e.status == DeadLetter ==> e.attempts == e.maxAttempts)
    && (Terminal(e.status) ==> e.leaseOwner.None? && e.leaseExpiresAt.None?)
    && e.status != Cancelled
    && (e.key.NotificationKey? ==>
          && e.eventType == NotificationType && e.payload == NotificationDispatch(e.key.notification)
          && e.aggregate == NotificationAggregate(e.key.notification))
    && (e.eventType == NotificationType ==> e.key.NotificationKey?)
    && (e.eventType == MediaType ==> e.payload.MediaDelete?)
  }

  /** Attempts are numbered 1 to n and only the last one can be in progress. */
  predicate AttemptsOk(row: Notification) {
    && (forall i | 0 <= i < |row.attempts| :: row.attempts[i].number == i + 1)
    && (forall i | 0 <= i < |row.attempts| && row.attempts[i].status == NotificationProcessing ::
          i == |row.attempts| - 1 && row.status == NotificationProcessing)
    && (row.status == Queued ==> row.attempts == [])
  }

  predicate IsDispatch(e: Event, n: nat) { e.key == NotificationKey(n) }

  /** How the statuses of a notification and of its dispatch event go together. */
  predicate Agree(e: Event, row: Notification) {
    && (row.status == Delivered || row.status == NotificationCancelled <==> e.status == Processed)
    && (row.status == NotificationDeadLetter ==> e.status == DeadLetter)
  }

  /** A notification past its queue has its dispatch event. */
  predicate HasDispatch(s: Store, n: nat) { exists i | 0 <= i < |s.events| :: IsDispatch(s.events[i], n) }

  predicate WorkOk(s: Store, w: Work) {
    && w.event < |s.events| && w.notification < |s.notifications|
    && IsDispatch(s.events[w.event], w.notification)
    && w.attempt < |s.notifications[w.notification].attempts|
    && w.number == w.attempt + 1
  }

  predicate JobOk(s: Store, job: Job) {
    && job.event < |s.events| && s.events[job.event].attempts > 0
    && s.events[job.event].eventType == job.eventType && s.events[job.event].version == job.version
  }

  predicate MediaOk(s: Store, m: MediaWork) {
    && JobOk(s, m.job) && m.job.eventType == MediaType
    && s.events[m.job.event].payload == MediaDelete(m.keys)
    && m.done <= |m.keys|
    && (forall k | 0 <= k < m.done :: m.keys[k] in s.deleted)
  }

  predicate MediaDone(s: Store, e: Event) {
    e.eventType == MediaType && e.status == Processed && e.payload.MediaDelete? ==>
      forall k | k in e.payload.keys :: k in s.deleted
  }

  predicate UniqueKeys(events: seq<Event>) {
    forall i, j | 0 <= i < j < |events| :: events[i].key != events[j].key
  }

  predicate EventsOk(c: Config, s: Store) {
    forall i | 0 <= i < |s.events| :: EventOk(c, s.clock, s.events[i]) && MediaDone(s, s.events[i])
  }

  predicate NotificationsOk(s: Store) {
    forall n | 0 <= n < |s.notifications| ::
      AttemptsOk(s.notifications[n]) && (s.notifications[n].status != Queued ==> HasDispatch(s, n))
  }

  predicate PairsOk(s: Store) {
    forall i, n | 0 <= i < |s.events| && 0 <= n < |s.notifications| && IsDispatch(s.events[i], n) ::
      Agree(s.events[i], s.notifications[n])
  }

  predicate DispatchesOk(s: Store) {
    forall i | 0 <= i < |s.events| && s.events[i].key.NotificationKey? ::
      s.events[i].key.notification < |s.notifications|
  }

  predicate RecordsOk(s: Store) {
    && (forall job | job in s.jobs :: JobOk(s, job))
    && (forall w | w in s.issued :: WorkOk(s, w))
    && (forall m | m in s.media :: MediaOk(s, m))
  }

  predicate Inv(c: Config, s: Store) {
    ConfigOk(c) && UniqueKeys(s.events) && DispatchesOk(s) && EventsOk(c, s) && NotificationsOk(s) && PairsOk(s) &&
      RecordsOk(s)
  }

  // Changes that keep the columns no worker writes.

  predicate SameIdentity(e: Event, e': Event) {
    && e'.key == e.key && e'.aggregate == e.aggregate && e'.eventType == e.eventType && e'.version == e.version
    && e'.payload == e.payload && e'.maxAttempts == e.maxAttempts && e.attempts <= e'.attempts
  }

  predicate SameEvents(s: Store, s': Store) {
    |s'.events| >= |s.events| && forall i | 0 <= i < |s.events| :: SameIdentity(s.events[i], s'.events[i])
  }

  predicate SameNotifications(s: Store, s': Store) {
    && |s'.notifications| >= |s.notifications|
    && (forall n | 0 <= n < |s.notifications| :: |s'.notifications[n].attempts| >= |s.notifications[n].attempts|)
  }

  lemma RecordsKept(c: Config, s: Store, s': Store)
    requires Inv(c, s) && SameEvents(s, s') && SameNotifications(s, s') && s.deleted <= s'.deleted
    ensures forall job | JobOk(s, job) :: JobOk(s', job)
    ensures forall w | WorkOk(s, w) :: WorkOk(s', w)
    ensures forall m | MediaOk(s, m) :: MediaOk(s', m)
    ensures forall n | HasDispatch(s, n) :: HasDispatch(s', n)
  {
    forall n | HasDispatch(s, n) ensures HasDispatch(s', n) {
      var i :| 0 <= i < |s.events| && IsDispatch(s.events[i], n);
      assert IsDispatch(s'.events[i], n);
    }
  }

  /** A step that only rewrites events, each keeping its identity and its agreement. */
  lemma EventsInv(c: Config, s: Store, s': Store)
    requires Inv(c, s) && s'.notifications == s.notifications && s'.issued == s.issued && s'.clock == s.clock
    requires |s'.events| == |s.events| && SameEvents(s, s') && s.deleted == s'.deleted
    requires forall i | 0 <= i < |s.events| :: EventStep(c, s, s.events[i], s'.events[i])
    requires forall job | job in s'.jobs :: job in s.jobs || JobOk(s', job)
    requires forall m | m in s'.media :: m in s.media || MediaOk(s', m)
    ensures Inv(c, s')
  {
    RecordsKept(c, s, s');
    forall i, n | 0 <= i < |s'.events| && 0 <= n < |s'.notifications| && IsDispatch(s'.events[i], n)
      ensures Agree(s'.events[i], s'.notifications[n])
    {
      assert IsDispatch(s.events[i], n) && EventStep(c, s, s.events[i], s'.events[i]);
    }
    forall n | 0 <= n < |s'.notifications|
      ensures AttemptsOk(s'.notifications[n]) && (s'.notifications[n].status != Queued ==> HasDispatch(s', n))
    {
      assert AttemptsOk(s.notifications[n]);
    }
    forall i | 0 <= i < |s'.events| ensures EventOk(c, s'.clock, s'.events[i]) && MediaDone(s', s'.events[i]) {
      assert EventStep(c, s, s.events[i], s'.events[i]);
      assert EventOk(c, s.clock, s.events[i]) && MediaDone(s, s.events[i]);
    }
  }

  /** A rewritten event is sound by itself and keeps or rightly changes what it says of the
      notification it dispatches. */
  predicate EventStep(c: Config, s: Store, e: Event, e': Event) {
    && SameIdentity(e, e') && EventOk(c, s.clock, e') && MediaDone(s, e')
    && (e'.key.NotificationKey? ==>
      (e'.status == Processed <==> e.status == Processed) && (e.status == DeadLetter ==> e'.status == DeadLetter))
  }

  lemma SelfStep(c: Config, s: Store)
    requires Inv(c, s)
    ensures forall i | 0 <= i < |s.events| :: EventStep(c, s, s.events[i], s.events[i])
  {}

  // Each worker transaction keeps the invariant.

  lemma ClaimAvailableInv(c: Config, s: Store, worker: nat)
    requires Inv(c, s)
    ensures Inv(c, ClaimAvailable(c, s, worker))
  {
    var s' := ClaimAvailable(c, s, worker);
    forall i | 0 <= i < |s.events| ensures EventStep(c, s, s.events[i], s'.events[i]) {
      assert EventOk(c, s.clock, s.events[i]) && MediaDone(s, s.events[i]);
    }
    EventsInv(c, s, s');
  }

  lemma OneEventInv(c: Config, s: Store, i: nat, e': Event)
    requires Inv(c, s) && i < |s.events| && EventStep(c, s, s.events[i], e')
    ensures Inv(c, s.(events := s.events[i := e']))
  {
    SelfStep(c, s);
    EventsInv(c, s, s.(events := s.events[i := e']));
  }

  lemma MarkPublishedInv(c: Config, s: Store, i: nat, worker: nat)
    requires Inv(c, s)
    ensures Inv(c, MarkPublished(c, s, i, worker))
  {
    if MarkPublished(c, s, i, worker) != s {
      assert EventOk(c, s.clock, s.events[i]);
      OneEventInv(c, s, i, PublishedRow(c, s.events[i], s.clock));
    }
  }

  lemma ScheduleRetryInv(c: Config, s: Store, i: nat)
    requires Inv(c, s)
    ensures Inv(c, ScheduleRetry(c, s, i))
  {
    if i < |s.events| {
      assert EventOk(c, s.clock, s.events[i]) && MediaDone(s, s.events[i]);
      OneEventInv(c, s, i, RetriedRow(c, s.events[i], s.clock));
    }
  }

  // Producers.

  lemma AppendEvent(c: Config, s: Store, e: Event)
    requires Inv(c, s) && !KeyTaken(s.events, e.key) && EventOk(c, s.clock, e) && e.status == Pending
    requires e.key.NotificationKey? ==>
      e.key.notification < |s.notifications| && s.notifications[e.key.notification].status == Queued
    ensures Inv(c, s.(events := s.events + [e]))
  {
    var s' := s.(events := s.events + [e]);
    RecordsKept(c, s, s');
    forall i, n | 0 <= i < |s'.events| && 0 <= n < |s'.notifications| && IsDispatch(s'.events[i], n)
      ensures Agree(s'.events[i], s'.notifications[n])
    {
      if i < |s.events| { assert IsDispatch(s.events[i], n); }
    }
    forall n | 0 <= n < |s'.notifications|
      ensures AttemptsOk(s'.notifications[n]) && (s'.notifications[n].status != Queued ==> HasDispatch(s', n))
    {
      assert AttemptsOk(s.notifications[n]);
    }
    forall i, j | 0 <= i < j < |s'.events| ensures s'.events[i].key != s'.events[j].key {
      if j == |s.events| { assert s.events[i] in s.events; }
    }
  }

  lemma CreateNotificationInv(c: Config, s: Store, channelSupported: bool)
    requires Inv(c, s)
    ensures Inv(c, CreateNotification(s, channelSupported))
  {
    var s' := CreateNotification(s, channelSupported);
    RecordsKept(c, s, s');
    forall i, n | 0 <= i < |s'.events| && 0 <= n < |s'.notifications| && IsDispatch(s'.events[i], n)
      ensures Agree(s'.events[i], s'.notifications[n])
    {
      assert s.events[i].key.NotificationKey? && n < |s.notifications|;
      assert IsDispatch(s.events[i], n);
    }
    forall n | 0 <= n < |s'.notifications|
      ensures AttemptsOk(s'.notifications[n]) && (s'.notifications[n].status != Queued ==> HasDispatch(s', n))
    {
      if n < |s.notifications| { assert AttemptsOk(s.notifications[n]); }
    }
    forall i | 0 <= i < |s'.events| ensures EventOk(c, s'.clock, s'.events[i]) && MediaDone(s', s'.events[i]) {
      assert EventOk(c, s.clock, s.events[i]) && MediaDone(s, s.events[i]);
    }
  }

  lemma TickInv(c: Config, s: Store, elapsed: nat)
    requires Inv(c, s)
    ensures Inv(c, s.(clock := s.clock + elapsed))
  {
    var s' := s.(clock := s.clock + elapsed);
    RecordsKept(c, s, s');
    forall i, n | 0 <= i < |s'.events| && 0 <= n < |s'.notifications| && IsDispatch(s'.events[i], n)
      ensures Agree(s'.events[i], s'.notifications[n]) { assert IsDispatch(s.events[i], n); }
    forall n | 0 <= n < |s'.notifications|
      ensures AttemptsOk(s'.notifications[n]) && (s'.notifications[n].status != Queued ==> HasDispatch(s', n))
    {
      assert AttemptsOk(s.notifications[n]);
    }
    forall i | 0 <= i < |s'.events| ensures EventOk(c, s'.clock, s'.events[i]) && MediaDone(s', s'.events[i]) {
      assert EventOk(c, s.clock, s.events[i]) && MediaDone(s, s.events[i]);
    }
  }

  lemma EnqueueInv(c: Config, s: Store, step: Step)
    requires Inv(c, s) && (step.EnqueueExpiryStep? || step.BridgeStep? || step.EnqueueMediaStep?)
    ensures Inv(c, Next(c, s, step))
  {
    var s' := Next(c, s, step);
    if s'.events != s.events { AppendEvent(c, s, s'.events[|s.events|]); }
  }

  // Queue, reservation and media processing.

  lemma AddJobInv(c: Config, s: Store, i: nat)
    requires Inv(c, s)
    ensures Inv(c, AddJob(s, i))
  {
    SelfStep(c, s);
    EventsInv(c, s, AddJob(s, i));
  }

  lemma ProcessReservationInv(c: Config, s: Store, job: Job, handlerOk: bool)
    requires Inv(c, s)
    ensures Inv(c, ProcessReservation(s, job, handlerOk))
  {
    if ProcessReservation(s, job, handlerOk) != s {
      assert EventOk(c, s.clock, s.events[job.event]);
      OneEventInv(c, s, job.event, ProcessedRow(s.events[job.event]));
    }
  }

  lemma ClaimMediaInv(c: Config, s: Store, job: Job, worker: nat)
    requires Inv(c, s)
    ensures Inv(c, ClaimMedia(c, s, job, worker))
  {
    var s' := ClaimMedia(c, s, job, worker);
    if s' != s {
      var e := s.events[job.event];
      assert EventOk(c, s.clock, e) && JobOk(s, job);
      SelfStep(c, s);
      assert EventStep(c, s, e, ProcessingRow(c, e, worker, s.clock));
      assert MediaOk(s', s'.media[|s.media|]);
      EventsInv(c, s, s');
    }
  }

  lemma DeleteObjectInv(c: Config, s: Store, m: nat)
    requires Inv(c, s)
    ensures Inv(c, DeleteObject(s, m))
  {
    var s' := DeleteObject(s, m);
    if s' != s {
      RecordsKept(c, s, s');
      assert MediaOk(s, s.media[m]);
      assert MediaOk(s', s'.media[m]);
      forall i, n | 0 <= i < |s'.events| && 0 <= n < |s'.notifications| && IsDispatch(s'.events[i], n)
        ensures Agree(s'.events[i], s'.notifications[n]) { assert IsDispatch(s.events[i], n); }
      forall n | 0 <= n < |s'.notifications|
        ensures AttemptsOk(s'.notifications[n]) && (s'.notifications[n].status != Queued ==> HasDispatch(s', n))
      {
        assert AttemptsOk(s.notifications[n]);
      }
      forall i | 0 <= i < |s'.events| ensures EventOk(c, s'.clock, s'.events[i]) && MediaDone(s', s'.events[i]) {
        assert EventOk(c, s.clock, s.events[i]) && MediaDone(s, s.events[i]);
      }
    }
  }

  lemma CompleteMediaInv(c: Config, s: Store, m: nat)
    requires Inv(c, s)
    ensures Inv(c, CompleteMedia(s, m))
  {
    if CompleteMedia(s, m) != s {
      var i := s.media[m].job.event;
      assert MediaOk(s, s.media[m]) && EventOk(c, s.clock, s.events[i]);
      OneEventInv(c, s, i, ProcessedRow(s.events[i]));
    }
  }

  // Notifications.

  /** A step on one notification and its dispatch event. */
  lemma DispatchInv(c: Config, s: Store, s': Store, i: nat, n: nat)
    requires Inv(c, s) && i < |s.events| && n < |s.notifications| && IsDispatch(s.events[i], n)
    requires |s'.events| == |s.events| && |s'.notifications| == |s.notifications|
    requires s' ==
      s.(events := s.events[i := s'.events[i]], notifications := s.notifications[n := s'.notifications[n]],
        issued := s'.issued)
    requires SameIdentity(s.events[i], s'.events[i]) && EventOk(c, s.clock, s'.events[i])
    requires |s'.notifications[n].attempts| >= |s.notifications[n].attempts| && AttemptsOk(s'.notifications[n])
    requires Agree(s'.events[i], s'.notifications[n])
    requires forall w | w in s'.issued :: w in s.issued || WorkOk(s', w)
    ensures Inv(c, s')
  {
    RecordsKept(c, s, s');
    assert EventOk(c, s.clock, s.events[i]);
    forall j, m | 0 <= j < |s'.events| && 0 <= m < |s'.notifications| && IsDispatch(s'.events[j], m)
      ensures Agree(s'.events[j], s'.notifications[m])
    {
      assert IsDispatch(s.events[j], m);
      if j == i || m == n { assert j == i && m == n; }
    }
    assert IsDispatch(s'.events[i], n);
    forall m | 0 <= m < |s'.notifications|
      ensures AttemptsOk(s'.notifications[m]) && (s'.notifications[m].status != Queued ==> HasDispatch(s', m))
    {
      assert AttemptsOk(s.notifications[m]);
    }
    forall j | 0 <= j < |s'.events| ensures EventOk(c, s'.clock, s'.events[j]) && MediaDone(s', s'.events[j]) {
      assert EventOk(c, s.clock, s.events[j]) && MediaDone(s, s.events[j]);
    }
  }

  lemma {:induction false} NextNumberIs(attempts: seq<Attempt>)
    requires forall i | 0 <= i < |attempts| :: attempts[i].number == i + 1
    ensures NextNumber(attempts) == |attempts| + 1
  {
    if attempts != [] { NextNumberIs(attempts[..|attempts| - 1]); }
  }

  /** In a sound store a delivery claim never meets a notification that is already closed. */
  lemma ClaimMeetsOpen(c: Config, s: Store, job: Job)
    requires Inv(c, s) && Accepts(s, job) && job.eventType == NotificationType
    ensures var n := s.events[job.event].payload.notification;
      && n < |s.notifications| && IsDispatch(s.events[job.event], n)
      && s.notifications[n].status != Delivered && s.notifications[n].status != NotificationCancelled &&
        s.notifications[n].status != NotificationDeadLetter
  {
    assert EventOk(c, s.clock, s.events[job.event]);
    var n := s.events[job.event].key.notification;
    assert IsDispatch(s.events[job.event], n);
    assert Agree(s.events[job.event], s.notifications[n]);
  }

  /** Closing what was in progress and adding the next attempt keeps the numbering. */
  lemma NextAttempt(row: Notification, next: Attempt, status: NotificationStatus)
    requires AttemptsOk(row) && next.number == NextNumber(row.attempts)
    requires status != Queued && (next.status == NotificationProcessing ==> status == NotificationProcessing)
    ensures next.number == |row.attempts| + 1
    ensures AttemptsOk(row.(status := status, attempts := FailProcessing(row.attempts) + [next]))
  {
    NextNumberIs(row.attempts);
  }

  lemma ClaimNotificationInv(c: Config, s: Store, job: Job, worker: nat, provider: Option<string>)
    requires Inv(c, s)
    ensures Inv(c, ClaimNotification(c, s, job, worker, provider))
  {
    var s' := ClaimNotification(c, s, job, worker, provider);
    if s' != s {
      ClaimMeetsOpen(c, s, job);
      var n := s.events[job.event].payload.notification;
      var row := s.notifications[n];
      assert EventOk(c, s.clock, s.events[job.event]) && AttemptsOk(row) && JobOk(s, job);
      var status := if provider.None? then NotificationCancelled else NotificationProcessing;
      NextAttempt(row, Attempt(NextNumber(row.attempts), provider.GetOr("disabled"), status), status);
      DispatchInv(c, s, s', job.event, n);
    }
  }

  /** In a sound store an attempt in progress belongs to a notification in progress. */
  lemma WorkSound(c: Config, s: Store, w: Work)
    requires Inv(c, s) && Findable(s, w)
    ensures IsDispatch(s.events[w.event], w.notification) && EventOk(c, s.clock, s.events[w.event])
    ensures Agree(s.events[w.event], s.notifications[w.notification]) && AttemptsOk(s.notifications[w.notification])
  {
    assert WorkOk(s, w);
  }

  lemma FinalizeSuccessInv(c: Config, s: Store, w: Work, provider: string)
    requires Inv(c, s)
    ensures Inv(c, FinalizeSuccess(s, w, provider))
  {
    var s' := FinalizeSuccess(s, w, provider);
    if s' != s {
      WorkSound(c, s, w);
      assert AttemptsOk(s'.notifications[w.notification]);
      DispatchInv(c, s, s', w.event, w.notification);
    }
  }

  lemma FinalizeFailureInv(c: Config, s: Store, w: Work)
    requires Inv(c, s)
    ensures Inv(c, FinalizeFailure(c, s, w))
  {
    var s' := FinalizeFailure(c, s, w);
    if s' != s {
      WorkSound(c, s, w);
      assert AttemptsOk(s'.notifications[w.notification]);
      assert s'.events == s.events[w.event := s'.events[w.event]];
      DispatchInv(c, s, s', w.event, w.notification);
    }
  }

  lemma NextInv(c: Config, s: Store, step: Step)
    requires Inv(c, s)
    ensures Inv(c, Next(c, s, step))
  {
    match step
    case Tick(elapsed) => TickInv(c, s, elapsed);
    case EnqueueExpiryStep(_, _, _) => EnqueueInv(c, s, step);
    case CreateNotificationStep(channelSupported) => CreateNotificationInv(c, s, channelSupported);
    case BridgeStep(_, _) => EnqueueInv(c, s, step);
    case EnqueueMediaStep(_, _, _) => EnqueueInv(c, s, step);
    case ClaimAvailableStep(worker) => ClaimAvailableInv(c, s, worker);
    case MarkPublishedStep(i, worker) => MarkPublishedInv(c, s, i, worker);
    case ScheduleRetryStep(i) => ScheduleRetryInv(c, s, i);
    case AddJobStep(i) => AddJobInv(c, s, i);
    case ProcessReservationStep(job, handlerOk) => ProcessReservationInv(c, s, job, handlerOk);
    case ClaimMediaStep(job, worker) => ClaimMediaInv(c, s, job, worker);
    case DeleteObjectStep(m) => DeleteObjectInv(c, s, m);
    case CompleteMediaStep(m) => CompleteMediaInv(c, s, m);
    case ClaimNotificationStep(job, worker, provider) => ClaimNotificationInv(c, s, job, worker, provider);
    case FinalizeSuccessStep(w, deliveredBy) => FinalizeSuccessInv(c, s, w, deliveredBy);
    case FinalizeFailureStep(w) => FinalizeFailureInv(c, s, w);
  }

  lemma {:induction false} RunInv(c: Config, s: Store, steps: seq<Step>)
    requires Inv(c, s)
    ensures Inv(c, Run(c, s, steps))
    decreases |steps|
  {
    if steps != [] {
      NextInv(c, s, steps[0]);
      RunInv(c, Next(c, s, steps[0]), steps[1..]);
    }
  }
}
