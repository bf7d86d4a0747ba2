/** What each transaction of the outbox writes, column by column, in every reachable store. A row that
    is not mentioned is as it was. */
module OutboxEffects {
  import opened Wrappers
  import opened OutboxTypes
  import opened OutboxProof
  import opened OutboxTheorems
  import W = OutboxWorker

  predicate Unfinished(e: Event) {
    e.status == Pending || e.status == Leased || e.status == Published || e.status == Processing || e.status == Retry
  }

  function Freed(e: Event, status: EventStatus): Event {
    Event(e.key, e.aggregate, e.eventType, e.version, e.payload, status, e.availableAt, None, None, e.attempts,
      e.maxAttempts, e.lastAttemptAt)
  }

  // The delay of a retry.

  /** The base after the first attempt, twice as long after each of the next twenty, never above the
      maximum. */
  function Backoff(attempts: nat, base: int, maximum: int): int {
    if attempts <= 1 then (if base < maximum then base else maximum)
    else if attempts > 21 then Backoff(21, base, maximum)
    else
      var twice := 2 * Backoff(attempts - 1, base, maximum);
      if twice < maximum then twice else maximum
  }

  lemma {:induction false} BackoffIs(attempts: nat, base: int, maximum: int)
    requires 0 < base <= maximum
    ensures RetryDelay(attempts, base, maximum) == Backoff(attempts, base, maximum)
  {
    if attempts > 21 {
      BackoffIs(21, base, maximum);
    } else if attempts > 1 {
      BackoffIs(attempts - 1, base, maximum);
      DoubledGrows(base, 0, attempts - 1);
    }
  }

  /** A rescheduled event: finished ones stay, exhausted ones are dead letters, the others wait. */
  function Rescheduled(c: Config, e: Event, now: int): Event {
    if !Unfinished(e) then e
    else if e.attempts >= e.maxAttempts then Freed(e, DeadLetter)
    else Freed(e, Retry).(availableAt := now + Backoff(e.attempts, c.retryBase, c.retryMax))
  }

  lemma RescheduledIs(c: Config, s: Store, i: nat)
    requires Inv(c, s) && i < |s.events|
    ensures RetriedRow(c, s.events[i], s.clock) == Rescheduled(c, s.events[i], s.clock)
  {
    BackoffIs(s.events[i].attempts, c.retryBase, c.retryMax);
    assert EventOk(c, s.clock, s.events[i]);
  }

  lemma RetryWrites(c: Config, s: Store, i: nat)
    requires Reachable(c, s)
    ensures ScheduleRetry(c, s, i) ==
      if i < |s.events| then s.(events := s.events[i := Rescheduled(c, s.events[i], s.clock)]) else s
  {
    ReachableInv(c, s);
    if i < |s.events| { RescheduledIs(c, s, i); }
  }

  // Reports of a delivery.

  function Attempted(row: Notification, i: nat, status: NotificationStatus): seq<Attempt>
    requires i < |row.attempts|
  {
    row.attempts[i := Attempt(row.attempts[i].number, row.attempts[i].provider, status)]
  }

  /** A reported delivery is recorded: by the attempt in progress on an open notification, which is
      delivered and its event done; by any attempt on a closed one, where nothing else changes. */
  lemma DeliveredWrites(c: Config, s: Store, w: Work, provider: string)
    requires Reachable(c, s) && w in s.issued
    ensures w.event < |s.events| && w.notification < |s.notifications|
    ensures w.attempt < |s.notifications[w.notification].attempts|
    ensures
      var s' := FinalizeSuccess(s, w, provider);
      var n, i, row := w.notification, w.attempt, s.notifications[w.notification];
      if provider != w.provider then s' == s
      else if row.status == Delivered || row.status == NotificationCancelled then
        && s.events[w.event].status == Processed
        && s' == s.(notifications := s.notifications[n :=
             Notification(row.status, row.channelSupported, Attempted(row, i, Delivered))])
      else if row.attempts[i].status == NotificationProcessing then
        && i == |row.attempts| - 1
        && s' == s.(events := s.events[w.event := Freed(s.events[w.event], Processed)],
             notifications := s.notifications[n :=
               Notification(Delivered, row.channelSupported, Attempted(row, i, Delivered))])
      else s' == s
  {
    ReachableInv(c, s);
    assert WorkOk(s, w);
    WorkSound(c, s, w);
  }

  /** A reported failure: on a finished event only the attempt is marked; otherwise the attempt in
      progress fails and its event waits for the next, or both are dead letters after the last. */
  lemma FailedWrites(c: Config, s: Store, w: Work)
    requires Reachable(c, s) && w in s.issued
    ensures w.event < |s.events| && w.notification < |s.notifications|
    ensures w.attempt < |s.notifications[w.notification].attempts|
    ensures
      var s' := FinalizeFailure(c, s, w);
      var n, i, row, e := w.notification, w.attempt, s.notifications[w.notification], s.events[w.event];
      if !Unfinished(e) then
        s' == s.(notifications := s.notifications[n :=
          Notification(row.status, row.channelSupported, Attempted(row, i, Failed))])
      else if row.attempts[i].status != NotificationProcessing then s' == s
      else
        var status := if e.attempts >= e.maxAttempts then NotificationDeadLetter else Failed;
        && i == |row.attempts| - 1
        && s' == s.(events := s.events[w.event := Rescheduled(c, e, s.clock)],
             notifications := s.notifications[n :=
               Notification(status, row.channelSupported, Attempted(row, i, status))])
  {
    ReachableInv(c, s);
    assert WorkOk(s, w);
    WorkSound(c, s, w);
    RescheduledIs(c, s, w.event);
  }

  // Claims of jobs.

  /** Attempts that were in progress have failed, and the next one has been added. */
  predicate NextAttemptAdded(attempts: seq<Attempt>, attempts': seq<Attempt>, provider: string,
    status: NotificationStatus) {
    && |attempts'| == |attempts| + 1
    && attempts'[|attempts|] == Attempt(|attempts| + 1, provider, status)
    && forall i | 0 <= i < |attempts| ::
         attempts'[i] == Attempt(attempts[i].number, attempts[i].provider,
           if attempts[i].status == NotificationProcessing then Failed else attempts[i].status)
  }

  function Taken(c: Config, e: Event, worker: nat, now: int): Event {
    Event(e.key, e.aggregate, e.eventType, e.version, e.payload, Processing, e.availableAt, Some(worker),
      Some(now + c.lease), e.attempts, e.maxAttempts, e.lastAttemptAt)
  }

  /** A delivery is claimed for an unfinished event of a supported channel: the next attempt is in
      progress under a new lease and the worker has its record; or, without a provider, the
      notification is cancelled and its event done. */
  lemma DeliveryClaimWrites(c: Config, s: Store, job: Job, worker: nat, provider: Option<string>)
    requires Reachable(c, s) && job in s.jobs && job.eventType == NotificationType
    ensures job.event < |s.events| && s.events[job.event].key.NotificationKey?
    ensures s.events[job.event].key.notification < |s.notifications|
    ensures
      var s', e := ClaimNotification(c, s, job, worker, provider), s.events[job.event];
      var n := e.key.notification;
      var row := s.notifications[n];
      if !Unfinished(e) || e.version != 1 || !row.channelSupported then s' == s
      else
        var row' := s'.notifications[n];
        && |s'.notifications| == |s.notifications| && row'.channelSupported
        && s' == s.(events := s'.events, notifications := s.notifications[n := row'], issued := s'.issued)
        && (match provider
            case None =>
              && row'.status == NotificationCancelled
              && NextAttemptAdded(row.attempts, row'.attempts, "disabled", NotificationCancelled)
              && s'.events == s.events[job.event := Freed(e, Processed)] && s'.issued == s.issued
            case Some(p) =>
              && row'.status == NotificationProcessing
              && NextAttemptAdded(row.attempts, row'.attempts, p, NotificationProcessing)
              && s'.events == s.events[job.event := Taken(c, e, worker, s.clock)]
              && s'.issued == s.issued + {Work(job.event, n, |row.attempts|, |row.attempts| + 1, p)})
  {
    ReachableInv(c, s);
    var e := s.events[job.event];
    assert JobOk(s, job) && EventOk(c, s.clock, e);
    var n := e.key.notification;
    assert AttemptsOk(s.notifications[n]);
    NextNumberIs(s.notifications[n].attempts);
    if Unfinished(e) && e.version == 1 { ClaimMeetsOpen(c, s, job); }
  }

  /** A reservation job that does not throw finishes its event. */
  lemma ReservationWrites(c: Config, s: Store, job: Job, handlerOk: bool)
    requires Reachable(c, s) && job in s.jobs && job.eventType == ReservationType
    ensures job.event < |s.events|
    ensures
      var e := s.events[job.event];
      ProcessReservation(s, job, handlerOk) ==
        if handlerOk && Unfinished(e) && e.version == 1 && e.payload.ReservationExpiry? &&
           1 <= e.payload.batchSize <= 200
        then s.(events := s.events[job.event := Freed(e, Processed)]) else s
  {
    ReachableInv(c, s);
    assert JobOk(s, job) && EventOk(c, s.clock, s.events[job.event]);
  }

  /** One key in version 1, up to seventeen in version 2. */
  predicate MediaReadable(e: Event) {
    e.payload.MediaDelete? &&
      ((e.version == 1 && |e.payload.keys| == 1) || (e.version == 2 && 1 <= |e.payload.keys| <= 17))
  }

  /** A media job is claimed for an unfinished event of its own image. */
  lemma MediaClaimWrites(c: Config, s: Store, job: Job, worker: nat)
    requires Reachable(c, s) && job in s.jobs && job.eventType == MediaType
    ensures job.event < |s.events|
    ensures
      var e := s.events[job.event];
      ClaimMedia(c, s, job, worker) ==
        if Unfinished(e) && MediaReadable(e) && e.aggregate.ProductImage? &&
           e.key == MediaKey(e.version, e.aggregate.image)
        then s.(events := s.events[job.event := Taken(c, e, worker, s.clock)],
                media := s.media + [MediaWork(job, e.payload.keys, 0)])
        else s
  {
    ReachableInv(c, s);
    assert JobOk(s, job) && EventOk(c, s.clock, s.events[job.event]);
  }

  /** The next key of a clean-up, and its end: every key gone, the event done unless it already is. */
  lemma CleanUpWrites(c: Config, s: Store, m: nat)
    requires Reachable(c, s) && m < |s.media|
    ensures s.media[m].done <= |s.media[m].keys| && s.media[m].job.event < |s.events|
    ensures
      var x := s.media[m];
      var e := s.events[x.job.event];
      && DeleteObject(s, m) == (if x.done == |x.keys| then s else
           s.(deleted := s.deleted + {x.keys[x.done]}, media := s.media[m := MediaWork(x.job, x.keys, x.done + 1)]))
      && CompleteMedia(s, m) == (if x.done < |x.keys| || e.status == Processed then s else
           s.(events := s.events[x.job.event := Freed(e, Processed)]))
  {
    ReachableInv(c, s);
    assert s.media[m] in s.media && MediaOk(s, s.media[m]);
  }

  // Claims of events.

  /** Not exhausted, and either waiting since its time or held beyond its lease. */
  predicate Claimable(e: Event, now: int) {
    && e.attempts < e.maxAttempts
    && (((e.status == Pending || e.status == Retry) && e.availableAt <= now)
        || ((e.status == Leased || e.status == Published || e.status == Processing) &&
            e.leaseExpiresAt.Some? && e.leaseExpiresAt.value <= now))
  }

  /** The claimable events before event i, by availability and then by id. */
  function Before(events: seq<Event>, i: nat, now: int): set<nat>
    requires i < |events|
  {
    set j: nat | j < |events| && Claimable(events[j], now) &&
      (events[j].availableAt < events[i].availableAt ||
       (events[j].availableAt == events[i].availableAt && j < i))
  }

  lemma BeforeIs(events: seq<Event>, i: nat, now: int)
    requires i < |events|
    ensures AheadOf(SweepAll(events), i, now) == Before(events, i, now)
  {
    assert forall j: nat | j < |events| :: Due(SweepAll(events)[j], now) <==> Claimable(events[j], now);
  }

  /** What a poll makes of event i. */
  function AfterPoll(c: Config, events: seq<Event>, i: nat, worker: nat, now: int): Event
    requires i < |events|
  {
    var e := events[i];
    if Unfinished(e) && e.attempts >= e.maxAttempts then Freed(e, DeadLetter)
    else if Claimable(e, now) && |Before(events, i, now)| < c.batchSize then
      Event(e.key, e.aggregate, e.eventType, e.version, e.payload, Leased, e.availableAt, Some(worker),
        Some(now + c.lease), e.attempts + 1, e.maxAttempts, Some(now))
    else e
  }

  lemma PolledRow(c: Config, s: Store, i: nat, worker: nat)
    requires Inv(c, s) && i < |s.events|
    ensures ClaimAvailable(c, s, worker).events[i] == AfterPoll(c, s.events, i, worker, s.clock)
  {
    assert EventOk(c, s.clock, s.events[i]);
    BeforeIs(s.events, i, s.clock);
  }

  /** A poll dead-letters what is exhausted and leases the first batch of what is claimable. */
  lemma PollWrites(c: Config, s: Store, worker: nat)
    requires Reachable(c, s)
    ensures
      var s' := ClaimAvailable(c, s, worker);
      && s' == s.(events := s'.events) && |s'.events| == |s.events|
      && forall i: nat | i < |s.events| :: s'.events[i] == AfterPoll(c, s.events, i, worker, s.clock)
  {
    ReachableInv(c, s);
    forall i: nat | i < |s.events|
      ensures ClaimAvailable(c, s, worker).events[i] == AfterPoll(c, s.events, i, worker, s.clock)
    {
      PolledRow(c, s, i, worker);
    }
  }

  /** The stored type, version and payload belong together. */
  predicate Readable(e: Event) {
    match e.eventType
    case ReservationType => e.version == 1 && e.payload.ReservationExpiry? && 1 <= e.payload.batchSize <= 200
    case NotificationType => e.version == 1 && e.payload.NotificationDispatch?
    case MediaType => MediaReadable(e)
  }

  /** Marking and queueing, by the worker that holds the event. */
  lemma PublishWrites(c: Config, s: Store, i: nat, worker: nat)
    requires Reachable(c, s) && i < |s.events|
    ensures
      var e := s.events[i];
      && MarkPublished(c, s, i, worker) == (if e.status == Leased && e.leaseOwner == Some(worker)
           then s.(events := s.events[i := e.(status := Published, leaseExpiresAt := Some(s.clock + c.publishedLease))])
           else s)
      && (e.attempts > 0 && Readable(e) ==> AddJob(s, i) == s.(jobs := s.jobs + {Job(i, e.eventType, e.version)}))
      && (e.attempts == 0 || !Readable(e) ==> AddJob(s, i) == s)
  {
  }

  /** A claimed event when its turn in a poll is over: published, if it can be read, the queue takes
      its job and its row is marked; otherwise rescheduled. */
  function AfterTurn(c: Config, leased: Event, i: nat, fate: W.Fate, now: int): Event {
    if Readable(leased) && i in fate.queueTakes && i !in fate.markFails
    then leased.(status := Published, leaseExpiresAt := Some(now + c.publishedLease))
    else Rescheduled(c, leased, now)
  }

  /** A poll that nothing interrupts leaves each event as its turn leaves it. */
  lemma PollAloneWrites(c: Config, s: Store, i: nat, worker: nat, fate: W.Fate)
    requires Reachable(c, s) && i < |s.events|
    ensures W.PollRow(c, SweepAll(s.events), i, worker, s.clock, fate, true) ==
      var row := AfterPoll(c, s.events, i, worker, s.clock);
      if Claimable(s.events[i], s.clock) && |Before(s.events, i, s.clock)| < c.batchSize
      then AfterTurn(c, row, i, fate, s.clock) else row
  {
    ReachableInv(c, s);
    PolledRow(c, s, i, worker);
    BeforeIs(s.events, i, s.clock);
    assert EventOk(c, s.clock, s.events[i]);
    BackoffIs(s.events[i].attempts + 1, c.retryBase, c.retryMax);
  }

  // Producers.

  /** A new event waits with no attempt made. */
  function NewEvent(key: Key, aggregate: Aggregate, eventType: EventType, version: nat, payload: Payload,
    maxAttempts: nat, now: int): Event {
    Event(key, aggregate, eventType, version, payload, Pending, now, None, None, 0, maxAttempts, None)
  }

  predicate HasKey(s: Store, key: Key) { exists i | 0 <= i < |s.events| :: s.events[i].key == key }

  lemma HasKeyIs(s: Store, key: Key)
    ensures HasKey(s, key) <==> KeyTaken(s.events, key)
  {
    if i :| 0 <= i < |s.events| && s.events[i].key == key { assert s.events[i] in s.events; }
  }

  /** One expiry event for each bucket of time, one dispatch for each queued notification, one
      clean-up for each image. */
  lemma ProducersWrite(s: Store, interval: int, batchSize: nat, n: nat, image: nat, keys: seq<string>, maxAttempts: nat)
    requires interval > 0
    ensures
      var bucket, dispatch, media := ReservationBucket(s.clock / interval), NotificationKey(n), MediaKey(2, image);
      && EnqueueExpiry(s, interval, batchSize, maxAttempts) == (if HasKey(s, bucket) then s else
           s.(events := s.events + [NewEvent(bucket, Inventory, ReservationType, 1,
             ReservationExpiry(s.clock, batchSize), maxAttempts, s.clock)]))
      && Bridge(s, n, maxAttempts) ==
           (if n >= |s.notifications| || s.notifications[n].status != Queued || HasKey(s, dispatch) then s else
           s.(events := s.events + [NewEvent(dispatch, NotificationAggregate(n), NotificationType, 1,
             NotificationDispatch(n), maxAttempts, s.clock)]))
      && EnqueueMedia(s, image, keys, maxAttempts) == (if HasKey(s, media) then s else
           s.(events := s.events + [NewEvent(media, ProductImage(image), MediaType, 2, MediaDelete(keys), maxAttempts,
             s.clock)]))
  {
    HasKeyIs(s, ReservationBucket(s.clock / interval));
    HasKeyIs(s, NotificationKey(n));
    HasKeyIs(s, MediaKey(2, image));
  }
}
