/** When a dead-lettered event means a dead-lettered notification: not always, and exactly when a
    failing delivery dead-lettered it. */
module OutboxDeadLetters {
  import opened Wrappers
  import opened OutboxTypes
  import opened OutboxProof
  import opened OutboxTheorems

  // A run in which it does not.

  const ByMail := Some("mail")

  const Dispatch := Job(0, NotificationType, 1)

  lemma Reach(c: Config, s: Store, step: Step)
    requires Reachable(c, s)
    ensures Reachable(c, Next(c, s, step))
  {
    var steps: seq<Step> :| Run(c, EmptyStore, steps) == s;
    RunConcat(c, EmptyStore, steps, [step]);
    assert [step][1..] == [];
  }

  /** The only event is due: a poll leases it. */
  lemma OnlyEventInBatch(c: Config, events: seq<Event>, now: int)
    requires |events| == 1 && c.batchSize > 0 && Due(events[0], now)
    ensures InBatch(c, events, 0, now)
  {
    assert AheadOf(events, 0, now) == {};
  }

  /** A notification is queued and its dispatch event, with a single attempt, is claimed. */
  lemma Claimed(c: Config, worker: nat) returns (s: Store)
    requires ConfigOk(c) && c.batchSize > 0
    ensures Reachable(c, s) && s.clock == 0 && |s.events| == 1 && s.notifications == [Notification(Queued, true, [])]
    ensures s.events[0] ==
      Event(NotificationKey(0), NotificationAggregate(0), NotificationType, 1, NotificationDispatch(0),
      Leased, 0, Some(worker), Some(c.lease), 1, 1, Some(0))
  {
    assert Run(c, EmptyStore, []) == EmptyStore && Reachable(c, EmptyStore);
    Reach(c, EmptyStore, CreateNotificationStep(true));
    var queued := Next(c, EmptyStore, CreateNotificationStep(true));
    Reach(c, queued, BridgeStep(0, 1));
    var bridged := Next(c, queued, BridgeStep(0, 1));
    assert SweepAll(bridged.events) == bridged.events;
    OnlyEventInBatch(c, bridged.events, 0);
    Reach(c, bridged, ClaimAvailableStep(worker));
    s := Next(c, bridged, ClaimAvailableStep(worker));
  }

  /** A reachable state with a dead-lettered event under a delivery that is still in progress: the
      last attempt is being delivered when a poll finds the attempts used up. */
  lemma SweepOutrunsDelivery(c: Config, worker: nat) returns (s: Store)
    requires ConfigOk(c) && c.batchSize > 0
    ensures Reachable(c, s) && |s.events| == 1 && |s.notifications| == 1 && s.events[0].key == NotificationKey(0)
    ensures s.events[0].status == DeadLetter && s.notifications[0].status == NotificationProcessing
  {
    var claimed := Claimed(c, worker);
    Reach(c, claimed, AddJobStep(0));
    var queued := Next(c, claimed, AddJobStep(0));
    Reach(c, queued, ClaimNotificationStep(Dispatch, worker, ByMail));
    var sending := Next(c, queued, ClaimNotificationStep(Dispatch, worker, ByMail));
    assert sending.events[0].status == Processing && sending.events[0].attempts == 1;
    Reach(c, sending, ClaimAvailableStep(worker));
    s := Next(c, sending, ClaimAvailableStep(worker));
    assert Swept(sending.events[0]).status == DeadLetter && !InBatch(c, SweepAll(sending.events), 0, sending.clock);
  }

  // The step that decides.

  /** When the event is dead-lettered, its notification is dead-lettered with it exactly if the step
      is a failing delivery; any other step leaves the notification as it was. */
  lemma DeadLetteredTogether(c: Config, s: Store, step: Step, i: nat, n: nat)
    requires Reachable(c, s) && i < |s.events| && n < |s.notifications| && s.events[i].key == NotificationKey(n)
    requires s.events[i].status != DeadLetter && Next(c, s, step).events[i].status == DeadLetter
    ensures n < |Next(c, s, step).notifications|
    ensures Next(c, s, step).notifications[n].status == NotificationDeadLetter <==> step.FinalizeFailureStep?
    ensures !step.FinalizeFailureStep? ==> Next(c, s, step).notifications[n] == s.notifications[n]
  {
    ReachableInv(c, s);
    NextKeepsRecords(c, s, step);
    if step.FinalizeFailureStep? {
      FailureDeadLetters(c, s, step.w, i, n);
    } else {
      OthersKeepRow(c, s, step, i, n);
    }
  }

  lemma FailureDeadLetters(c: Config, s: Store, w: Work, i: nat, n: nat)
    requires Inv(c, s) && i < |s.events| && n < |s.notifications| && IsDispatch(s.events[i], n)
    requires s.events[i].status != DeadLetter && FinalizeFailure(c, s, w).events[i].status == DeadLetter
    ensures FinalizeFailure(c, s, w).notifications[n].status == NotificationDeadLetter
  {
    WorkSound(c, s, w);
    OwnDispatch(c, s, i, w.event, n, w.notification);
  }

  /** Dispatch events and notifications determine each other. */
  lemma OwnDispatch(c: Config, s: Store, i: nat, j: nat, n: nat, m: nat)
    requires Inv(c, s) && i < |s.events| && j < |s.events| && IsDispatch(s.events[i], n) && IsDispatch(s.events[j], m)
    ensures i == j <==> n == m
  {
  }

  lemma SuccessNeverDeadLetters(c: Config, s: Store, w: Work, provider: string, i: nat)
    requires Inv(c, s) && i < |s.events| && s.events[i].status != DeadLetter
    ensures FinalizeSuccess(s, w, provider).events[i].status != DeadLetter
  {
  }

  lemma ClaimNeverDeadLetters(c: Config, s: Store, job: Job, worker: nat, provider: Option<string>, i: nat)
    requires Inv(c, s) && i < |s.events| && s.events[i].status != DeadLetter
    ensures ClaimNotification(c, s, job, worker, provider).events[i].status != DeadLetter
  {
    if Accepts(s, job) && job.eventType == NotificationType { ClaimMeetsOpen(c, s, job); }
  }

  lemma OthersKeepRow(c: Config, s: Store, step: Step, i: nat, n: nat)
    requires Inv(c, s) && i < |s.events| && n < |s.notifications| && !step.FinalizeFailureStep?
    requires s.events[i].status != DeadLetter
    requires i < |Next(c, s, step).events| && Next(c, s, step).events[i].status == DeadLetter
    ensures n < |Next(c, s, step).notifications| && Next(c, s, step).notifications[n] == s.notifications[n]
  {
    match step
    case FinalizeSuccessStep(w, deliveredBy) => SuccessNeverDeadLetters(c, s, w, deliveredBy, i);
    case ClaimNotificationStep(job, worker, provider) => ClaimNeverDeadLetters(c, s, job, worker, provider, i);
    case _ => NotificationsKept(c, s, step);
  }

  /** The event is finished and the notification was not dead-lettered with it. */
  predicate LeftBehind(s: Store, i: nat, n: nat) {
    && i < |s.events| && n < |s.notifications| && s.events[i].key == NotificationKey(n)
    && Terminal(s.events[i].status) && s.notifications[n].status != NotificationDeadLetter
  }

  lemma FailureLeavesBehind(c: Config, s: Store, w: Work, i: nat, n: nat)
    requires Inv(c, s) && LeftBehind(s, i, n)
    ensures FinalizeFailure(c, s, w).notifications[n].status != NotificationDeadLetter
  {
    if Findable(s, w) {
      WorkSound(c, s, w);
      OwnDispatch(c, s, i, w.event, n, w.notification);
    }
  }

  lemma NextLeavesBehind(c: Config, s: Store, step: Step, i: nat, n: nat)
    requires Inv(c, s) && LeftBehind(s, i, n)
    ensures LeftBehind(Next(c, s, step), i, n)
  {
    NextAdvancesEvent(c, s, step, i);
    NextKeepsRecords(c, s, step);
    if step.FinalizeFailureStep? {
      FailureLeavesBehind(c, s, step.w, i, n);
    } else if !TouchesNotifications(step) {
      NotificationsKept(c, s, step);
      assert Next(c, s, step).notifications[n] == s.notifications[n];
    }
  }

  /** A notification that was not dead-lettered with its event never is, in any run. */
  lemma {:induction false} NeverDeadLetteredLater(c: Config, s: Store, steps: seq<Step>, i: nat, n: nat)
    requires Inv(c, s) && LeftBehind(s, i, n)
    ensures LeftBehind(Run(c, s, steps), i, n)
    decreases |steps|
  {
    if steps != [] {
      NextInv(c, s, steps[0]);
      NextLeavesBehind(c, s, steps[0], i, n);
      NeverDeadLetteredLater(c, Next(c, s, steps[0]), steps[1..], i, n);
    }
  }
}
