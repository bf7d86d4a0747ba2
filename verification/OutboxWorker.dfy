/** One worker's transactions on the shared outbox tables, and the two loops it runs over them:
    publishing a claimed batch, and deleting the objects of a media event. */
module OutboxWorker {
  import opened Wrappers
  import opened OutboxTypes
  import opened OutboxProof
  import opened Sorting

  function JobFor(i: nat, e: Event): Job { Job(i, e.eventType, e.version) }

  /** What the queue and the database do in a poll: the events whose job the queue takes, and those
      whose row then fails to be marked. */
  datatype Fate = Fate(queueTakes: set<nat>, markFails: set<nat>)

  /** What a leased event becomes when its turn in a poll comes. */
  function Polled(c: Config, leased: Event, i: nat, fate: Fate, now: int): Event {
    if Parses(leased) && i in fate.queueTakes && i !in fate.markFails then PublishedRow(c, leased, now)
    else RetriedRow(c, leased, now)
  }

  /** A row of the table during a poll, before and after its turn. */
  function PollRow(c: Config, swept: seq<Event>, i: nat, worker: nat, now: int, fate: Fate,
    turnOver: bool): Event
    requires i < |swept|
  {
    if !InBatch(c, swept, i, now) then swept[i]
    else if turnOver then Polled(c, LeasedRow(c, swept[i], worker, now), i, fate, now)
    else LeasedRow(c, swept[i], worker, now)
  }

  /** The rows of a poll whose first claimed events have had their turn. */
  ghost predicate PolledUpTo(c: Config, swept: seq<Event>, events: seq<Event>, worker: nat, now: int, fate: Fate,
    over: seq<nat>) {
    |events| == |swept| && forall i: nat | i < |events| ::
      events[i] == PollRow(c, swept, i, worker, now, fate, i in over)
  }

  ghost predicate JobsQueued(events: seq<Event>, jobs: set<Job>, over: seq<nat>) {
    forall i | i in over && i < |events| && events[i].status == Published :: JobFor(i, events[i]) in jobs
  }

  lemma PollStep(c: Config, swept: seq<Event>, events: seq<Event>, worker: nat, now: int, fate: Fate,
    over: seq<nat>, i: nat)
    requires PolledUpTo(c, swept, events, worker, now, fate, over)
    requires i < |swept| && i !in over && InBatch(c, swept, i, now)
    ensures PolledUpTo(c, swept, events[i := Polled(c, events[i], i, fate, now)], worker, now, fate, over + [i])
  {
  }

  lemma QueueStep(events: seq<Event>, jobs: set<Job>, over: seq<nat>, i: nat, row: Event, jobs': set<Job>)
    requires JobsQueued(events, jobs, over) && i < |events| && i !in over && jobs <= jobs'
    requires row.status == Published ==> JobFor(i, row) in jobs'
    ensures JobsQueued(events[i := row], jobs', over + [i])
  {
  }

  function RowId(i: nat): nat { i }

  function AvailableAt(events: seq<Event>, i: nat): int { if i < |events| then events[i].availableAt else 0 }

  /** By availability, then by id. */
  function ClaimOrder(events: seq<Event>): (nat, nat) -> bool {
    (i: nat, j: nat) => AvailableAt(events, i) < AvailableAt(events, j) ||
      (AvailableAt(events, i) == AvailableAt(events, j) && i <= j)
  }

  /** Each of these rows is ahead of all that follow. */
  predicate InClaimOrder(events: seq<Event>, ids: seq<nat>) {
    && (forall k | 0 <= k < |ids| :: ids[k] < |events|)
    && forall j, k | 0 <= j < k < |ids| :: Ahead(events, ids[j], ids[k])
  }

  lemma ClaimedOnce(events: seq<Event>, ids: seq<nat>, k: nat)
    requires InClaimOrder(events, ids) && k < |ids|
    ensures ids[k] in ids && ids[k] !in ids[..k] && ids[..k + 1] == ids[..k] + [ids[k]]
  {
    assert forall j | 0 <= j < k :: Ahead(events, ids[j], ids[k]);
  }

  lemma SortClaims(events: seq<Event>, ids: seq<nat>)
    requires DistinctBy(ids, RowId) && forall i | i in ids :: i < |events|
    ensures InClaimOrder(events, Sort(ids, ClaimOrder(events)))
    ensures forall i :: i in Sort(ids, ClaimOrder(events)) <==> i in ids
  {
    var le := ClaimOrder(events);
    var sorted := Sort(ids, le);
    SortPermutes(ids, le);
    SortSorts(ids, le);
    SortDistinct(ids, le, RowId);
    forall k | 0 <= k < |sorted| ensures sorted[k] < |events| { assert sorted[k] in sorted; }
    forall j, k | 0 <= j < k < |sorted| ensures Ahead(events, sorted[j], sorted[k]) {
      assert le(sorted[j], sorted[k]) && RowId(sorted[j]) != RowId(sorted[k]);
    }
  }

  function Interlude(others: seq<seq<Step>>, k: nat): seq<Step> { if k < |others| then others[k] else [] }

  /** A job and a mark for an event that parses and is taken by the queue, with what others do in
      between; a new date for an event that does not get that far, or whose mark fails. */
  function TurnSteps(worker: nat, i: nat, parses: bool, fate: Fate, between: seq<Step>): seq<Step> {
    if !parses || i !in fate.queueTakes then [ScheduleRetryStep(i)]
    else
      [AddJobStep(i)] + between + [if i in fate.markFails then ScheduleRetryStep(i) else MarkPublishedStep(i, worker)]
  }

  /** The turn of claimed event k, after what others do before it. */
  function TurnAmong(worker: nat, claimed: seq<Event>, ids: seq<nat>, k: nat, fate: Fate,
    others: seq<seq<Step>>): seq<Step>
    requires k < |ids| && ids[k] < |claimed|
  {
    Interlude(others, 2 * k)
    + TurnSteps(worker, ids[k], Parses(claimed[ids[k]]), fate, Interlude(others, 2 * k + 1))
  }

  function PollSteps(worker: nat, claimed: seq<Event>, ids: seq<nat>, fate: Fate, others: seq<seq<Step>>): seq<Step>
    requires forall k | 0 <= k < |ids| :: ids[k] < |claimed|
  {
    if ids == [] then []
    else
      PollSteps(worker, claimed, ids[..|ids| - 1], fate, others) +
        TurnAmong(worker, claimed, ids, |ids| - 1, fate, others)
  }

  lemma OneStep(c: Config, s: Store, step: Step)
    ensures Run(c, s, [step]) == Next(c, s, step)
  {
    assert [step][1..] == [];
  }

  lemma TurnRuns(c: Config, s: Store, worker: nat, i: nat, parses: bool, fate: Fate, between: seq<Step>)
    ensures Run(c, s, TurnSteps(worker, i, parses, fate, between)) ==
      if !parses || i !in fate.queueTakes then ScheduleRetry(c, s, i)
      else if i in fate.markFails then ScheduleRetry(c, Run(c, AddJob(s, i), between), i)
      else MarkPublished(c, Run(c, AddJob(s, i), between), i, worker)
  {
    if !parses || i !in fate.queueTakes {
      OneStep(c, s, ScheduleRetryStep(i));
    } else {
      var last := if i in fate.markFails then ScheduleRetryStep(i) else MarkPublishedStep(i, worker);
      RunConcat(c, s, [AddJobStep(i)] + between, [last]);
      RunConcat(c, s, [AddJobStep(i)], between);
      OneStep(c, s, AddJobStep(i));
      OneStep(c, Run(c, AddJob(s, i), between), last);
    }
  }

  function PollRun(worker: nat, claimed: seq<Event>, ids: seq<nat>, fate: Fate, others: seq<seq<Step>>): seq<Step>
    requires forall k | 0 <= k < |ids| :: ids[k] < |claimed|
  {
    [ClaimAvailableStep(worker)] + PollSteps(worker, claimed, ids, fate, others)
  }

  lemma PollRunStarts(c: Config, s: Store, worker: nat, claimed: seq<Event>, ids: seq<nat>, fate: Fate,
    others: seq<seq<Step>>)
    requires forall j | 0 <= j < |ids| :: ids[j] < |claimed|
    ensures Run(c, s, PollRun(worker, claimed, ids[..0], fate, others)) ==
      OutboxTypes.ClaimAvailable(c, s, worker)
  {
    assert PollRun(worker, claimed, ids[..0], fate, others) == [ClaimAvailableStep(worker)];
    OneStep(c, s, ClaimAvailableStep(worker));
  }

  lemma Regroup(a: seq<Step>, b: seq<Step>, c: seq<Step>, d: seq<Step>)
    ensures a + (b + (c + d)) == a + b + c + d
  {
  }

  lemma PollRunSplit(worker: nat, claimed: seq<Event>, ids: seq<nat>, k: nat, fate: Fate, others: seq<seq<Step>>)
    requires k < |ids| && forall j | 0 <= j < |ids| :: ids[j] < |claimed|
    ensures PollRun(worker, claimed, ids[..k + 1], fate, others) ==
      PollRun(worker, claimed, ids[..k], fate, others) + Interlude(others, 2 * k) +
        TurnSteps(worker, ids[k], Parses(claimed[ids[k]]), fate, Interlude(others, 2 * k + 1))
  {
    assert ids[..k + 1][..k] == ids[..k];
    Regroup([ClaimAvailableStep(worker)], PollSteps(worker, claimed, ids[..k], fate, others), Interlude(others, 2 * k),
      TurnSteps(worker, ids[k], Parses(claimed[ids[k]]), fate, Interlude(others, 2 * k + 1)));
  }

  lemma PollRunNext(c: Config, s: Store, worker: nat, claimed: seq<Event>, ids: seq<nat>, k: nat, fate: Fate,
    others: seq<seq<Step>>)
    requires k < |ids| && forall j | 0 <= j < |ids| :: ids[j] < |claimed|
    ensures Run(c, s, PollRun(worker, claimed, ids[..k + 1], fate, others)) ==
      Run(c, Run(c, Run(c, s, PollRun(worker, claimed, ids[..k], fate, others)), Interlude(others, 2 * k)),
          TurnSteps(worker, ids[k], Parses(claimed[ids[k]]), fate, Interlude(others, 2 * k + 1)))
  {
    var done := PollRun(worker, claimed, ids[..k], fate, others);
    var turn := TurnSteps(worker, ids[k], Parses(claimed[ids[k]]), fate, Interlude(others, 2 * k + 1));
    PollRunSplit(worker, claimed, ids, k, fate, others);
    RunConcat(c, s, done + Interlude(others, 2 * k), turn);
    RunConcat(c, s, done, Interlude(others, 2 * k));
  }

  class Worker {
    const config: Config
    const instance: nat
    var polling: bool
    var clock: int
    var events: seq<Event>
    var notifications: seq<Notification>
    var jobs: set<Job>
    var issued: set<Work>
    var media: seq<MediaWork>
    var deleted: set<string>

    function Tables(): Store
      reads this
    {
      Store(clock, events, notifications, jobs, issued, media, deleted)
    }

    ghost predicate Valid()
      reads this
    {
      Inv(config, Tables())
    }

    constructor (config: Config, instance: nat)
      requires ConfigOk(config)
      ensures this.config == config && this.instance == instance && Valid() && Tables() == EmptyStore && !polling
    {
      this.config, this.instance, polling := config, instance, false;
      clock, events, notifications, jobs, issued, media, deleted := 0, [], [], {}, {}, [], {};
    }

    /** Dead-letters what is exhausted, then leases the first due events and returns them in the
        order of their availability. */
    method ClaimAvailable() returns (ids: seq<nat>)
      modifies this`events
      ensures Tables() == OutboxTypes.ClaimAvailable(config, old(Tables()), instance)
      ensures forall i: nat :: i in ids <==> i < |old(events)| && InBatch(config, SweepAll(old(events)), i, clock)
      ensures InClaimOrder(SweepAll(old(events)), ids)
    {
      events := SweepAll(events);
      var swept := events;
      ids := [];
      for i := 0 to |swept|
        invariant |events| == |swept|
        invariant forall k | 0 <= k < |swept| ::
          events[k] ==
            if k < i && InBatch(config, swept, k, clock) then LeasedRow(config, swept[k], instance, clock) else swept[k]
        invariant forall k: nat :: k in ids <==> k < i && InBatch(config, swept, k, clock)
        invariant DistinctBy(ids, RowId)
      {
        if InBatch(config, swept, i, clock) {
          events := events[i := LeasedRow(config, events[i], instance, clock)];
          assert forall k | 0 <= k < |ids| :: ids[k] in ids;
          ids := ids + [i];
        }
      }
      SortClaims(swept, ids);
      ids := Sort(ids, ClaimOrder(swept));
    }

    method MarkPublished(i: nat) returns (published: bool)
      modifies this`events
      ensures Tables() == OutboxTypes.MarkPublished(config, old(Tables()), i, instance)
      ensures published <==>
        i < |old(events)| && old(events)[i].status == Leased && old(events)[i].leaseOwner == Some(instance)
    {
      published := i < |events| && events[i].status == Leased && events[i].leaseOwner == Some(instance);
      if published {
        events := events[i := events[i].(status := Published, leaseExpiresAt := Some(clock + config.publishedLease))];
      }
    }

    method ScheduleRetry(i: nat) returns (state: Option<EventStatus>)
      modifies this`events
      ensures Tables() == OutboxTypes.ScheduleRetry(config, old(Tables()), i)
      ensures state == if i < |events| then Some(events[i].status) else None
    {
      if i >= |events| { return None; }
      var e := events[i];
      if Terminal(e.status) { return Some(e.status); }
      if e.attempts >= e.maxAttempts {
        events := events[i := e.(status := DeadLetter, leaseOwner := None, leaseExpiresAt := None)];
        return Some(DeadLetter);
      }
      var delay := RetryDelay(e.attempts, config.retryBase, config.retryMax);
      events := events[i :=
        e.(status := Retry, availableAt := clock + delay, leaseOwner := None, leaseExpiresAt := None)];
      return Some(Retry);
    }

    method AddJob(i: nat)
      modifies this`jobs
      ensures Tables() == OutboxTypes.AddJob(old(Tables()), i)
    {
      if i < |events| && events[i].attempts > 0 && Parses(events[i]) {
        jobs := jobs + {Job(i, events[i].eventType, events[i].version)};
      }
    }

    /** Puts one leased event on the queue and marks it, or reschedules it when its payload does not
        parse, the queue refuses or the mark fails. */
    method Enqueue(i: nat, fate: Fate)
      requires i < |events| && events[i].status == Leased && events[i].attempts > 0
      requires events[i].leaseOwner == Some(instance)
      modifies this`events, this`jobs
      ensures events == old(events)[i := Polled(config, old(events)[i], i, fate, clock)]
      ensures jobs == old(jobs) +
        if Parses(old(events)[i]) && i in fate.queueTakes then {JobFor(i, old(events)[i])} else {}
    {
      if Parses(events[i]) && i in fate.queueTakes {
        AddJob(i);
        if i !in fate.markFails {
          var published := MarkPublished(i);
          return;
        }
      }
      var state := ScheduleRetry(i);
    }

    /** One poll, with nothing else interleaved: no claimed event is left LEASED, each published one
        has its job on the queue, and the polling flag is released. */
    method PollAlone(fate: Fate) returns (count: nat)
      modifies this`events, this`jobs, this`polling
      ensures polling == old(polling)
      ensures old(polling) ==> count == 0 && Tables() == old(Tables())
      ensures !old(polling) ==> |events| == |old(events)| && forall i: nat | i < |events| ::
        events[i] == PollRow(config, SweepAll(old(events)), i, instance, clock, fate, true)
      ensures !old(polling) ==>
        forall i: nat | i < |events| && InBatch(config, SweepAll(old(events)), i, clock) &&
          events[i].status == Published ::
        JobFor(i, events[i]) in jobs
    {
      if polling { return 0; }
      polling := true;
      ghost var swept := SweepAll(events);
      var ids := ClaimAvailable();
      assert forall j | 0 <= j < |ids| :: ids[j] in ids;
      for k := 0 to |ids|
        invariant polling && |events| == |swept|
        invariant PolledUpTo(config, swept, events, instance, clock, fate, ids[..k])
        invariant JobsQueued(events, jobs, ids[..k])
      {
        var i := ids[k];
        ClaimedOnce(swept, ids, k);
        ghost var polled, queued := events, jobs;
        Enqueue(i, fate);
        PollStep(config, swept, polled, instance, clock, fate, ids[..k], i);
        QueueStep(polled, queued, ids[..k], i, events[i], jobs);
      }
      assert ids[..|ids|] == ids;
      polling := false;
      return |ids|;
    }

    /** What other workers do in the meantime. */
    method Meanwhile(steps: seq<Step>)
      modifies this`clock, this`events, this`notifications, this`jobs, this`issued, this`media, this`deleted
      ensures Tables() == Run(config, old(Tables()), steps)
    {
      var s := Run(config, Tables(), steps);
      clock, events, notifications, jobs := s.clock, s.events, s.notifications, s.jobs;
      issued, media, deleted := s.issued, s.media, s.deleted;
    }

    /** The turn of one claimed event, which others may have changed since it was claimed and may
        change again before it is marked. */
    method Turn(i: nat, parses: bool, fate: Fate, between: seq<Step>)
      modifies this`clock, this`events, this`notifications, this`jobs, this`issued, this`media, this`deleted
      ensures Tables() == Run(config, old(Tables()), TurnSteps(instance, i, parses, fate, between))
    {
      TurnRuns(config, Tables(), instance, i, parses, fate, between);
      if parses && i in fate.queueTakes {
        AddJob(i);
        Meanwhile(between);
        if i !in fate.markFails {
          var published := MarkPublished(i);
          return;
        }
      }
      var state := ScheduleRetry(i);
    }

    /** The turns of the claimed events, one after the other. */
    method Turns(before: seq<Event>, claimed: seq<nat>, fate: Fate, others: seq<seq<Step>>, ghost start: Store)
      requires forall j | 0 <= j < |claimed| :: claimed[j] < |before|
      requires Tables() == OutboxTypes.ClaimAvailable(config, start, instance)
      modifies this`clock, this`events, this`notifications, this`jobs, this`issued, this`media, this`deleted
      ensures Tables() == Run(config, start, PollRun(instance, before, claimed, fate, others))
    {
      PollRunStarts(config, start, instance, before, claimed, fate, others);
      for k := 0 to |claimed|
        invariant Tables() == Run(config, start, PollRun(instance, before, claimed[..k], fate, others))
      {
        PollRunNext(config, start, instance, before, claimed, k, fate, others);
        Meanwhile(Interlude(others, 2 * k));
        Turn(claimed[k], Parses(before[claimed[k]]), fate, Interlude(others, 2 * k + 1));
      }
      assert claimed[..|claimed|] == claimed;
    }

    /** A poll among other workers: its claim and its turns are steps of the run they all make. */
    method PollOnce(fate: Fate, others: seq<seq<Step>>) returns (count: nat, ghost ids: seq<nat>)
      modifies this
      ensures polling == old(polling)
      ensures old(polling) ==> count == 0 && Tables() == old(Tables())
      ensures !old(polling) ==> count == |ids| && InClaimOrder(SweepAll(old(events)), ids)
      ensures !old(polling) ==> forall i: nat :: i in ids <==>
        i < |old(events)| && InBatch(config, SweepAll(old(events)), i, old(clock))
      ensures !old(polling) ==>
        Tables() == Run(config, old(Tables()), PollRun(instance, SweepAll(old(events)), ids, fate, others))
    {
      if polling { return 0, []; }
      polling := true;
      var before := SweepAll(events);
      var claimed := ClaimAvailable();
      Turns(before, claimed, fate, others, old(Tables()));
      polling := false;
      return |claimed|, claimed;
    }

    method ClaimMediaDeletion(job: Job) returns (claimed: bool)
      modifies this`events, this`media
      ensures Tables() == ClaimMedia(config, old(Tables()), job, instance)
      ensures claimed <==> |media| == |old(media)| + 1
      ensures claimed ==> media[|media| - 1].job == job && media[|media| - 1].done == 0
    {
      if !Accepts(Tables(), job) || job.eventType != MediaType { return false; }
      var e := events[job.event];
      if !e.aggregate.ProductImage? || e.key != MediaKey(e.version, e.aggregate.image) { return false; }
      events := events[job.event :=
        e.(status := Processing, leaseOwner := Some(instance), leaseExpiresAt := Some(clock + config.lease))];
      media := media + [MediaWork(job, e.payload.keys, 0)];
      return true;
    }

    /** Deletes the objects of a claim one by one until the adapter fails. */
    method DeleteObjects(m: nat, failing: set<string>) returns (finished: bool)
      requires m < |media| && media[m].done == 0
      modifies this`media, this`deleted
      ensures |media| == |old(media)| && media == old(media)[m := media[m]] &&
        media[m] == old(media)[m].(done := media[m].done)
      ensures media[m].done <= |media[m].keys|
      ensures finished <==> forall k | k in media[m].keys :: k !in failing
      ensures finished ==> media[m].done == |media[m].keys|
      ensures deleted == old(deleted) + set k | 0 <= k < media[m].done :: media[m].keys[k]
    {
      var keys := media[m].keys;
      for i := 0 to |keys|
        invariant |media| == |old(media)| && media == old(media)[m := old(media)[m].(done := i)]
        invariant forall k | 0 <= k < i :: keys[k] !in failing
        invariant deleted == old(deleted) + set k | 0 <= k < i :: keys[k]
      {
        if keys[i] in failing { return false; }
        deleted := deleted + {keys[i]};
        media := media[m := media[m].(done := i + 1)];
      }
      return true;
    }

    method CompleteMediaDeletion(m: nat)
      requires m < |media|
      modifies this`events
      ensures Tables() == CompleteMedia(old(Tables()), m)
    {
      if media[m].done < |media[m].keys| || media[m].job.event >= |events| { return; }
      var job := media[m].job;
      var e := events[job.event];
      if e.status == Processed || e.eventType != job.eventType || e.version != job.version { return; }
      events := events[job.event := e.(status := Processed, leaseOwner := None, leaseExpiresAt := None)];
    }

    /** Claim, delete, complete: a finished clean-up leaves the event PROCESSED with every object of
        its payload gone. A claim that throws and a deletion that fails reschedule the event, and
        nothing that was gone comes back; a claim that meets a finished event changes nothing. */
    method ProcessMediaDeletion(job: Job, claimFails: bool, failing: set<string>) returns (finished: bool)
      requires Valid() && job in jobs
      modifies this`events, this`media, this`deleted
      ensures |events| == |old(events)| && old(deleted) <= deleted && job.event < |events|
      ensures finished ==> events[job.event].status == Processed && events[job.event].payload.MediaDelete?
      ensures finished ==> forall k | k in events[job.event].payload.keys :: k in deleted
      ensures old(Terminal(events[job.event].status)) ==> !finished && Tables() == old(Tables())
      ensures !finished && !old(Terminal(events[job.event].status)) ==>
        events[job.event].status == Retry || events[job.event].status == DeadLetter
    {
      ghost var e := events[job.event];
      assert EventOk(config, clock, e) && JobOk(Tables(), job);
      if Terminal(events[job.event].status) { return false; }
      var claimed := false;
      if !claimFails { claimed := ClaimMediaDeletion(job); }
      if !claimed {
        var state := ScheduleRetry(job.event);
        return false;
      }
      var m := |media| - 1;
      finished := DeleteObjects(m, failing);
      if finished {
        CompleteMediaDeletion(m);
      } else {
        var state := ScheduleRetry(job.event);
      }
    }

    method ClaimNotification(job: Job, provider: Option<string>) returns (work: Option<Work>)
      modifies this`events, this`notifications, this`issued
      ensures Tables() == OutboxTypes.ClaimNotification(config, old(Tables()), job, instance, provider)
      ensures work.Some? ==>
        work.value in issued && work.value.event == job.event && work.value.notification < |notifications|
      ensures work.Some? ==> work.value.attempt == |notifications[work.value.notification].attempts| - 1
    {
      if !Accepts(Tables(), job) || job.eventType != NotificationType { return None; }
      var e := events[job.event];
      var n := e.payload.notification;
      if e.key != NotificationKey(n) || e.aggregate != NotificationAggregate(n) || n >= |notifications| { return None; }
      var row := notifications[n];
      if row.status == Delivered || row.status == NotificationCancelled {
        events := events[job.event := ProcessedRow(e)];
        return None;
      }
      if row.status == NotificationDeadLetter {
        events := events[job.event := e.(status := DeadLetter, leaseOwner := None, leaseExpiresAt := None)];
        return None;
      }
      if !row.channelSupported { return None; }
      var number := NextNumber(row.attempts);
      var attempts := FailProcessing(row.attempts);
      if provider.None? {
        notifications := notifications[n := row.(status := NotificationCancelled,
          attempts := attempts + [Attempt(number, "disabled", NotificationCancelled)])];
        events := events[job.event := ProcessedRow(e)];
        return None;
      }
      notifications := notifications[n := row.(status := NotificationProcessing,
        attempts := attempts + [Attempt(number, provider.value, NotificationProcessing)])];
      events := events[job.event := ProcessingRow(config, e, instance, clock)];
      var w := Work(job.event, n, |row.attempts|, number, provider.value);
      issued := issued + {w};
      return Some(w);
    }

    method FinalizeNotificationSuccess(w: Work, deliveredBy: string)
      modifies this`events, this`notifications
      ensures Tables() == FinalizeSuccess(old(Tables()), w, deliveredBy)
    {
      if !Findable(Tables(), w) || deliveredBy != w.provider { return; }
      var row := notifications[w.notification];
      if row.status != NotificationCancelled && row.status != Delivered {
        if row.attempts[w.attempt].status != NotificationProcessing { return; }
        row := row.(status := Delivered);
      }
      notifications := notifications[w.notification := SetAttempt(row, w.attempt, Delivered)];
      events := events[w.event := ProcessedRow(events[w.event])];
    }

    method FinalizeNotificationFailure(w: Work)
      modifies this`events, this`notifications
      ensures Tables() == FinalizeFailure(config, old(Tables()), w)
    {
      if !Findable(Tables(), w) { return; }
      var e := events[w.event];
      var row := notifications[w.notification];
      if ClosedFor(e, row) {
        notifications := notifications[w.notification := SetAttempt(row, w.attempt, Failed)];
        if row.status == Delivered && e.status != Processed { events := events[w.event := ProcessedRow(e)]; }
        return;
      }
      if row.attempts[w.attempt].status != NotificationProcessing { return; }
      var deadLetter := e.attempts >= e.maxAttempts;
      var status := if deadLetter then NotificationDeadLetter else Failed;
      notifications := notifications[w.notification := SetAttempt(row, w.attempt, status).(status := status)];
      if deadLetter {
        events := events[w.event := e.(status := DeadLetter, leaseOwner := None, leaseExpiresAt := None)];
      } else {
        var delay := RetryDelay(e.attempts, config.retryBase, config.retryMax);
        events := events[w.event :=
          e.(status := Retry, availableAt := clock + delay, leaseOwner := None, leaseExpiresAt := None)];
      }
    }
  }
}
