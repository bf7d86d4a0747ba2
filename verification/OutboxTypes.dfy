/** The rows of the durable outbox and of the notifications it delivers, and what every worker
    transaction does to them. A worker keeps its work record after its claim has been superseded,
    so work records are part of the state and may be finished at any time, or never. */
module OutboxTypes {
  import opened Wrappers

  datatype EventStatus = Pending | Leased | Published | Processing | Retry | Processed | DeadLetter | Cancelled

  datatype EventType = ReservationType | NotificationType | MediaType

  datatype Payload =
    | ReservationExpiry(cutoff: int, batchSize: nat)
    | NotificationDispatch(notification: nat)
    | MediaDelete(keys: seq<string>)

  /** The deterministic key, unique over the table. */
  datatype Key =
    | ReservationBucket(bucket: int) | NotificationKey(notification: nat) | MediaKey(version: nat, image: nat)

  datatype Aggregate = Inventory | NotificationAggregate(notification: nat) | ProductImage(image: nat)

  datatype Event = Event(
    key: Key, aggregate: Aggregate, eventType: EventType, version: nat, payload: Payload,
    status: EventStatus, availableAt: int, leaseOwner: Option<nat>, leaseExpiresAt: Option<int>,
    attempts: nat, maxAttempts: nat, lastAttemptAt: Option<int>)

  datatype NotificationStatus =
    | Queued | NotificationProcessing | Delivered | Failed | NotificationDeadLetter | NotificationCancelled

  datatype Attempt = Attempt(number: nat, provider: string, status: NotificationStatus)

  datatype Notification = Notification(status: NotificationStatus, channelSupported: bool, attempts: seq<Attempt>)

  datatype Job = Job(event: nat, eventType: EventType, version: nat)

  /** What a worker remembers of the delivery it is making; attempt is the row of the attempt. */
  datatype Work = Work(event: nat, notification: nat, attempt: nat, number: nat, provider: string)

  /** What a worker remembers of the objects it is deleting, and how many are gone. */
  datatype MediaWork = MediaWork(job: Job, keys: seq<string>, done: nat)

  datatype Store = Store(
    clock: int, events: seq<Event>, notifications: seq<Notification>,
    jobs: set<Job>, issued: set<Work>, media: seq<MediaWork>, deleted: set<string>)

  datatype Config = Config(batchSize: nat, lease: int, publishedLease: int, retryBase: int, retryMax: int)

  /** What the environment validation guarantees of the worker's settings. */
  predicate ConfigOk(c: Config) {
    0 < c.lease < c.publishedLease && 0 < c.retryBase <= c.retryMax
  }

  const EmptyStore := Store(0, [], [], {}, {}, [], {})

  predicate Terminal(s: EventStatus) { s == Processed || s == DeadLetter || s == Cancelled }

  predicate Held(s: EventStatus) { s == Leased || s == Published || s == Processing }

  // Retry delay.

  function Doubled(base: int, n: nat): int {
    if n == 0 then base else 2 * Doubled(base, n - 1)
  }

  function Exponent(attempts: nat): nat {
    if attempts == 0 then 0 else if attempts - 1 > 20 then 20 else attempts - 1
  }

  function RetryDelay(attempts: nat, base: int, maximum: int): int {
    var delay := Doubled(base, Exponent(attempts));
    if delay < maximum then delay else maximum
  }

  lemma {:induction false} DoubledGrows(base: int, m: nat, n: nat)
    requires 0 < base && m <= n
    ensures base <= Doubled(base, m) <= Doubled(base, n)
  {
    if m < n { DoubledGrows(base, m, n - 1); }
    if m > 0 { DoubledGrows(base, m - 1, m - 1); }
  }

  /** The delay starts at the base, never shrinks from one attempt to the next and stops growing
      at the maximum. */
  lemma RetryDelayBounds(attempts: nat, later: nat, base: int, maximum: int)
    requires 0 < base <= maximum && attempts <= later
    ensures base <= RetryDelay(attempts, base, maximum) <= RetryDelay(later, base, maximum) <= maximum
    ensures RetryDelay(1, base, maximum) == base
  {
    DoubledGrows(base, Exponent(attempts), Exponent(later));
  }

  /** Whether the stored event type, version and payload belong together. */
  predicate Parses(e: Event) {
    match e.eventType
    case ReservationType => e.version == 1 && e.payload.ReservationExpiry? && 1 <= e.payload.batchSize <= 200
    case NotificationType => e.version == 1 && e.payload.NotificationDispatch?
    case MediaType =>
      && e.payload.MediaDelete?
      && ((e.version == 1 && |e.payload.keys| == 1) || (e.version == 2 && 1 <= |e.payload.keys| <= 17))
  }

  // Producers.

  predicate KeyTaken(events: seq<Event>, key: Key) { exists e | e in events :: e.key == key }

  /** Insert unless the deterministic key is already there. */
  function Upsert(s: Store, key: Key, aggregate: Aggregate, eventType: EventType, version: nat, payload: Payload,
                  maxAttempts: nat, availableAt: int): Store {
    if KeyTaken(s.events, key) then s
    else
      var row :=
        Event(key, aggregate, eventType, version, payload, Pending, availableAt, None, None, 0, maxAttempts, None);
      s.(events := s.events + [row])
  }

  function EnqueueExpiry(s: Store, interval: int, batchSize: nat, maxAttempts: nat): Store
    requires interval > 0
  {
    Upsert(s, ReservationBucket(s.clock / interval), Inventory, ReservationType, 1,
      ReservationExpiry(s.clock, batchSize), maxAttempts, s.clock)
  }

  function CreateNotification(s: Store, channelSupported: bool): Store {
    s.(notifications := s.notifications + [Notification(Queued, channelSupported, [])])
  }

  function Bridge(s: Store, n: nat, maxAttempts: nat): Store {
    if n >= |s.notifications| || s.notifications[n].status != Queued then s
    else Upsert(s, NotificationKey(n), NotificationAggregate(n), NotificationType, 1, NotificationDispatch(n),
      maxAttempts, s.clock)
  }

  function EnqueueMedia(s: Store, image: nat, keys: seq<string>, maxAttempts: nat): Store {
    Upsert(s, MediaKey(2, image), ProductImage(image), MediaType, 2, MediaDelete(keys), maxAttempts, s.clock)
  }

  // Repository.

  /** Events whose attempts are used up are dead-lettered before anything is claimed. */
  function Swept(e: Event): Event {
    if !Terminal(e.status) && e.attempts >= e.maxAttempts
    then e.(status := DeadLetter, leaseOwner := None, leaseExpiresAt := None) else e
  }

  predicate Due(e: Event, now: int) {
    && e.attempts < e.maxAttempts
    && (((e.status == Pending || e.status == Retry) && e.availableAt <= now)
        || (Held(e.status) && e.leaseExpiresAt.Some? && e.leaseExpiresAt.value <= now))
  }

  /** The order of a claim: by availability, then by id. */
  predicate Ahead(events: seq<Event>, j: nat, i: nat)
    requires i < |events| && j < |events|
  {
    events[j].availableAt < events[i].availableAt || (events[j].availableAt == events[i].availableAt && j < i)
  }

  function AheadOf(events: seq<Event>, i: nat, now: int): set<nat>
    requires i < |events|
  {
    set j: nat | j < |events| && Due(events[j], now) && Ahead(events, j, i)
  }

  /** The first batchSize due events. */
  predicate InBatch(c: Config, events: seq<Event>, i: nat, now: int)
    requires i < |events|
  {
    Due(events[i], now) && |AheadOf(events, i, now)| < c.batchSize
  }

  function LeasedRow(c: Config, e: Event, worker: nat, now: int): Event {
    e.(status := Leased, leaseOwner := Some(worker), leaseExpiresAt := Some(now + c.lease),
       attempts := e.attempts + 1, lastAttemptAt := Some(now))
  }

  function SweepAll(events: seq<Event>): (swept: seq<Event>)
    ensures |swept| == |events|
  {
    seq(|events|, i requires 0 <= i < |events| => Swept(events[i]))
  }

  function ClaimAvailable(c: Config, s: Store, worker: nat): Store {
    var swept := SweepAll(s.events);
    s.(events := seq(|swept|, i requires 0 <= i < |swept| =>
      if InBatch(c, swept, i, s.clock) then LeasedRow(c, swept[i], worker, s.clock) else swept[i]))
  }

  function PublishedRow(c: Config, e: Event, now: int): Event {
    e.(status := Published, leaseExpiresAt := Some(now + c.publishedLease))
  }

  function MarkPublished(c: Config, s: Store, i: nat, worker: nat): Store {
    if i < |s.events| && s.events[i].status == Leased && s.events[i].leaseOwner == Some(worker)
    then s.(events := s.events[i := PublishedRow(c, s.events[i], s.clock)]) else s
  }

  function RetriedRow(c: Config, e: Event, now: int): Event {
    if Terminal(e.status) then e
    else if e.attempts >= e.maxAttempts then e.(status := DeadLetter, leaseOwner := None, leaseExpiresAt := None)
    else
      e.(status := Retry, availableAt := now + RetryDelay(e.attempts, c.retryBase, c.retryMax),
         leaseOwner := None, leaseExpiresAt := None)
  }

  function ScheduleRetry(c: Config, s: Store, i: nat): Store {
    if i < |s.events| then s.(events := s.events[i := RetriedRow(c, s.events[i], s.clock)]) else s
  }

  /** The publisher puts a job on the queue for an event it has claimed. */
  function AddJob(s: Store, i: nat): Store {
    if i < |s.events| && s.events[i].attempts > 0 && Parses(s.events[i])
    then s.(jobs := s.jobs + {Job(i, s.events[i].eventType, s.events[i].version)}) else s
  }

  // Processing.

  function ProcessedRow(e: Event): Event { e.(status := Processed, leaseOwner := None, leaseExpiresAt := None) }

  function ProcessingRow(c: Config, e: Event, worker: nat, now: int): Event {
    e.(status := Processing, leaseOwner := Some(worker), leaseExpiresAt := Some(now + c.lease))
  }

  predicate Accepts(s: Store, job: Job) {
    && job in s.jobs && job.event < |s.events|
    && !Terminal(s.events[job.event].status)
    && s.events[job.event].eventType == job.eventType && s.events[job.event].version == job.version
    && Parses(s.events[job.event])
  }

  /** Claim, handler and completion in one transaction; a handler that throws rolls it back. */
  function ProcessReservation(s: Store, job: Job, handlerOk: bool): Store {
    if Accepts(s, job) && job.eventType == ReservationType && handlerOk
    then s.(events := s.events[job.event := ProcessedRow(s.events[job.event])]) else s
  }

  function ClaimMedia(c: Config, s: Store, job: Job, worker: nat): Store {
    if !Accepts(s, job) || job.eventType != MediaType then s else
    var e := s.events[job.event];
    if !e.aggregate.ProductImage? || e.key != MediaKey(e.version, e.aggregate.image) then s
    else s.(events := s.events[job.event := ProcessingRow(c, e, worker, s.clock)],
            media := s.media + [MediaWork(job, e.payload.keys, 0)])
  }

  function DeleteObject(s: Store, m: nat): Store {
    if m < |s.media| && s.media[m].done < |s.media[m].keys|
    then
      s.(deleted := s.deleted + {s.media[m].keys[s.media[m].done]},
         media := s.media[m := s.media[m].(done := s.media[m].done + 1)])
    else s
  }

  function CompleteMedia(s: Store, m: nat): Store {
    if m >= |s.media| || s.media[m].done < |s.media[m].keys| || s.media[m].job.event >= |s.events| then s else
    var job := s.media[m].job;
    var e := s.events[job.event];
    if e.status == Processed || e.eventType != job.eventType || e.version != job.version then s
    else s.(events := s.events[job.event := ProcessedRow(e)])
  }

  function FailProcessing(attempts: seq<Attempt>): (r: seq<Attempt>)
    ensures |r| == |attempts|
  {
    seq(|attempts|, i requires 0 <= i < |attempts| =>
      if attempts[i].status == NotificationProcessing then attempts[i].(status := Failed) else attempts[i])
  }

  /** One more than the highest attempt number. */
  function NextNumber(attempts: seq<Attempt>): (n: nat)
    ensures n >= 1 && forall a | a in attempts :: a.number < n
  {
    if attempts == [] then 1
    else
      var rest := NextNumber(attempts[..|attempts| - 1]);
      assert attempts == attempts[..|attempts| - 1] + [attempts[|attempts| - 1]];
      if attempts[|attempts| - 1].number + 1 > rest then attempts[|attempts| - 1].number + 1 else rest
  }

  function ClaimNotification(c: Config, s: Store, job: Job, worker: nat, provider: Option<string>): Store {
    if !Accepts(s, job) || job.eventType != NotificationType then s else
    var e := s.events[job.event];
    var n := e.payload.notification;
    if e.key != NotificationKey(n) || e.aggregate != NotificationAggregate(n) || n >= |s.notifications| then s else
    var row := s.notifications[n];
    if row.status == Delivered || row.status == NotificationCancelled
    then s.(events := s.events[job.event := ProcessedRow(e)])
    else if row.status == NotificationDeadLetter
    then s.(events := s.events[job.event := e.(status := DeadLetter, leaseOwner := None, leaseExpiresAt := None)])
    else if !row.channelSupported then s
    else
      var number := NextNumber(row.attempts);
      var closed := FailProcessing(row.attempts);
      match provider
      case None =>
        s.(notifications := s.notifications[n := row.(status := NotificationCancelled,
             attempts := closed + [Attempt(number, "disabled", NotificationCancelled)])],
           events := s.events[job.event := ProcessedRow(e)])
      case Some(p) =>
        s.(notifications := s.notifications[n := row.(status := NotificationProcessing,
             attempts := closed + [Attempt(number, p, NotificationProcessing)])],
           events := s.events[job.event := ProcessingRow(c, e, worker, s.clock)],
           issued := s.issued + {Work(job.event, n, |row.attempts|, number, p)})
  }

  /** The work record points at rows that exist. */
  predicate Findable(s: Store, w: Work) {
    w in s.issued && w.event < |s.events| && w.notification < |s.notifications| &&
      w.attempt < |s.notifications[w.notification].attempts|
  }

  function SetAttempt(row: Notification, i: nat, status: NotificationStatus): Notification
    requires i < |row.attempts|
  {
    row.(attempts := row.attempts[i := row.attempts[i].(status := status)])
  }

  /** The provider accepted the message. A work record whose attempt is no longer processing is
      refused unless the notification is already closed. */
  function FinalizeSuccess(s: Store, w: Work, provider: string): Store {
    if !Findable(s, w) || provider != w.provider then s else
    var row := s.notifications[w.notification];
    var event := s.events[w.event := ProcessedRow(s.events[w.event])];
    if row.status == NotificationCancelled || row.status == Delivered
    then s.(notifications := s.notifications[w.notification := SetAttempt(row, w.attempt, Delivered)], events := event)
    else if row.attempts[w.attempt].status != NotificationProcessing then s
    else
      var delivered := SetAttempt(row, w.attempt, Delivered).(status := Delivered);
      s.(notifications := s.notifications[w.notification := delivered], events := event)
  }

  predicate ClosedFor(e: Event, row: Notification) {
    Terminal(e.status) || row.status == Delivered || row.status == NotificationCancelled
  }

  /** The delivery failed: retry with a delay, or dead-letter once the attempts are used up. */
  function FinalizeFailure(c: Config, s: Store, w: Work): Store {
    if !Findable(s, w) then s else
    var e := s.events[w.event];
    var row := s.notifications[w.notification];
    if ClosedFor(e, row) then
      s.(notifications := s.notifications[w.notification := SetAttempt(row, w.attempt, Failed)],
         events :=
           if row.status == Delivered && e.status != Processed then s.events[w.event := ProcessedRow(e)] else s.events)
    else if row.attempts[w.attempt].status != NotificationProcessing then s
    else if e.attempts >= e.maxAttempts then
      var dead := SetAttempt(row, w.attempt, NotificationDeadLetter).(status := NotificationDeadLetter);
      s.(notifications := s.notifications[w.notification := dead],
         events := s.events[w.event := RetriedRow(c, e, s.clock)])
    else
      s.(notifications := s.notifications[w.notification := SetAttempt(row, w.attempt, Failed).(status := Failed)],
         events := s.events[w.event := RetriedRow(c, e, s.clock)])
  }

  // Runs.

  datatype Step =
    | Tick(elapsed: nat)
    | EnqueueExpiryStep(interval: int, batchSize: nat, maxAttempts: nat)
    | CreateNotificationStep(channelSupported: bool)
    | BridgeStep(n: nat, maxAttempts: nat)
    | EnqueueMediaStep(image: nat, keys: seq<string>, maxAttempts: nat)
    | ClaimAvailableStep(worker: nat)
    | MarkPublishedStep(i: nat, worker: nat)
    | ScheduleRetryStep(i: nat)
    | AddJobStep(i: nat)
    | ProcessReservationStep(job: Job, handlerOk: bool)
    | ClaimMediaStep(job: Job, worker: nat)
    | DeleteObjectStep(m: nat)
    | CompleteMediaStep(m: nat)
    | ClaimNotificationStep(job: Job, worker: nat, provider: Option<string>)
    | FinalizeSuccessStep(w: Work, deliveredBy: string)
    | FinalizeFailureStep(w: Work)

  function Next(c: Config, s: Store, step: Step): Store {
    match step
    case Tick(elapsed) => s.(clock := s.clock + elapsed)
    case EnqueueExpiryStep(interval, batchSize, maxAttempts) =>
      if interval > 0 then EnqueueExpiry(s, interval, batchSize, maxAttempts) else s
    case CreateNotificationStep(channelSupported) => CreateNotification(s, channelSupported)
    case BridgeStep(n, maxAttempts) => Bridge(s, n, maxAttempts)
    case EnqueueMediaStep(image, keys, maxAttempts) => EnqueueMedia(s, image, keys, maxAttempts)
    case ClaimAvailableStep(worker) => ClaimAvailable(c, s, worker)
    case MarkPublishedStep(i, worker) => MarkPublished(c, s, i, worker)
    case ScheduleRetryStep(i) => ScheduleRetry(c, s, i)
    case AddJobStep(i) => AddJob(s, i)
    case ProcessReservationStep(job, handlerOk) => ProcessReservation(s, job, handlerOk)
    case ClaimMediaStep(job, worker) => ClaimMedia(c, s, job, worker)
    case DeleteObjectStep(m) => DeleteObject(s, m)
    case CompleteMediaStep(m) => CompleteMedia(s, m)
    case ClaimNotificationStep(job, worker, provider) => ClaimNotification(c, s, job, worker, provider)
    case FinalizeSuccessStep(w, deliveredBy) => FinalizeSuccess(s, w, deliveredBy)
    case FinalizeFailureStep(w) => FinalizeFailure(c, s, w)
  }

  function Run(c: Config, s: Store, steps: seq<Step>): Store
    decreases |steps|
  {
    if steps == [] then s else Run(c, Next(c, s, steps[0]), steps[1..])
  }

  lemma {:induction false} RunConcat(c: Config, s: Store, a: seq<Step>, b: seq<Step>)
    ensures Run(c, s, a + b) == Run(c, Run(c, s, a), b)
    decreases |a|
  {
    if a == [] {
      assert a + b == b;
    } else {
      RunConcat(c, Next(c, s, a[0]), a[1..], b);
      assert (a + b)[1..] == a[1..] + b;
    }
  }
}
