/** The rows of the cash-on-delivery ledger, its transition tables and its amount arithmetic.
    Tables are sequences and a row's id is its position, so rows are only ever appended. */
module CashTypes {
  import opened Wrappers
  import opened Sums

  const MAX_MILLIMES := 2_000_000_000

  datatype PaymentStatus =
    | PaymentPending | CashExpected | CashCollectedByCourier | CashCollectedAtStore
    | CashPartiallyCollected | CashRemitted | ReconciliationDiscrepancy | Refunded | PaymentCancelled

  datatype Stage = ReadyForPickup | OutForDelivery | OtherStage(code: nat)

  datatype CollectionStatus = Expected | Collected | PartiallyCollected | Voided | Remitted

  datatype RemittanceStatus =
    | Draft | Submitted | Verified | InDiscrepancy | RemittanceRejected | RemittanceCancelled

  datatype DiscrepancyStatus = Open | Investigating | Resolved | WrittenOff

  datatype Discrepancy = Discrepancy(
    status: DiscrepancyStatus, expected: int, actual: int, difference: int,
    openedBy: nat, resolvedBy: Option<nat>)

  datatype Order = Order(
    stage: Stage, payment: PaymentStatus, expectedCod: int, pickup: bool, version: nat)

  datatype Delivery = Delivery(
    order: nat, stage: Stage, courier: Option<nat>, cashCollected: Option<bool>, version: nat)

  /** The body of a recording request; equal bodies have equal request hashes. */
  datatype RecordInput = RecordInput(
    collected: int, orderVersion: nat, deliveryVersion: nat,
    reasonCode: Option<string>, reasonDetail: Option<string>)

  /** The hashed idempotency key of a recording request; the collection id is the row itself. */
  datatype RecordKey = RecordKey(user: nat, key: string)

  datatype Collection = Collection(
    order: nat, delivery: Option<nat>, courier: Option<nat>, status: CollectionStatus,
    expected: int, collected: int, collectedBy: Option<nat>,
    recordKey: Option<RecordKey>, recordRequest: Option<RecordInput>,
    discrepancy: Option<Discrepancy>)

  datatype Remittance = Remittance(
    number: string, courier: nat, status: RemittanceStatus, declared: int,
    verified: Option<int>, difference: Option<int>,
    receivedBy: Option<nat>, verifiedBy: Option<nat>, discrepancies: seq<Discrepancy>)

  datatype Item = Item(remittance: nat, collection: nat, amount: int)

  datatype Ledger = Ledger(
    orders: seq<Order>, deliveries: seq<Delivery>, collections: seq<Collection>,
    remittances: seq<Remittance>, items: seq<Item>, activeCouriers: set<nat>)

  datatype CashError =
    | CollectionNotFound | RemittanceNotFound | DiscrepancyNotFound
    | IdempotencyKeyReused | VersionConflict
    | CollectionLinkageInvalid | CollectionAlreadyRecorded | CollectionOrderStateInvalid
    | CollectionDeliveryStateInvalid | CollectedAmountInvalid | PartialCollectionDisabled
    | DiscrepancyReasonRequired | CollectionTransitionNotAllowed | CollectionCourierRequired
    | InvalidMillimes
    | DuplicateAllocation | AllocationInvalid | RemittanceTotalMismatch | EmptyAllocation
    | CourierUnavailable | CollectionNotRemittable | CollectionOverAllocated | RemittanceConflict
    | SubmissionNotAllowed | RemittanceTotalInvalid
    | ReconciliationNotAllowed | SeparateApproverRequired | RemittanceCollectionStateInvalid
    | DiscrepancyLinkMissing | DiscrepancyLinkageInvalid | DiscrepancyUnresolved
    | CollectionRemittanceStateInvalid
    | ResolutionNotAllowed | CollectionDiscrepancyStateInvalid | DiscrepancyAlreadyAllocated
    | FinalAmountInvalid | FinalAmountNotApplicable | RemittanceDiscrepancyStateInvalid

  datatype Outcome = Done | Replayed | Refused(error: CashError)

  // Transition tables.

  predicate CanTransitionCollection(from: CollectionStatus, to: CollectionStatus) {
    match from
    case Expected => to == Collected || to == PartiallyCollected
    case Collected => to == Remitted
    case PartiallyCollected => to == Remitted
    case _ => false
  }

  predicate CanTransitionRemittance(from: RemittanceStatus, to: RemittanceStatus) {
    match from
    case Draft => to == Submitted
    case Submitted => to == Verified || to == InDiscrepancy
    case InDiscrepancy => to == Verified
    case _ => false
  }

  predicate CanTransitionDiscrepancy(from: DiscrepancyStatus, to: DiscrepancyStatus) {
    match from
    case Open => to == Investigating || to == Resolved || to == WrittenOff
    case Investigating => to == Resolved || to == WrittenOff
    case _ => false
  }

  predicate Remittable(s: CollectionStatus) { s == Collected || s == PartiallyCollected }

  predicate Accounted(s: CollectionStatus) { s == Collected || s == Remitted }

  predicate Collectable(p: PaymentStatus) { p == PaymentPending || p == CashExpected }

  predicate ReasonGiven(code: Option<string>, detail: Option<string>) {
    code.Some? && code.value != "" && detail.Some? && |detail.value| >= 4
  }

  // Amounts.

  predicate ValidMillimes(v: int) { 0 <= v <= MAX_MILLIMES }

  function CashDifference(expected: int, actual: int): Result<int, CashError> {
    if ValidMillimes(actual) && ValidMillimes(expected) then Ok(actual - expected) else Err(InvalidMillimes)
  }

  function Identity(): int -> int { (v: int) => v }

  function SumMillimes(values: seq<int>): Result<int, CashError> {
    if (forall v | v in values :: ValidMillimes(v)) && ValidMillimes(Sum(values, Identity()))
    then Ok(Sum(values, Identity()))
    else Err(InvalidMillimes)
  }

  function Linkage(k: Collection, d: Discrepancy, recorded: int): bool {
    d.expected == k.expected && d.actual == k.collected && d.difference == recorded
  }

  /** The cash a collection answers for: what was collected, or the expected amount once a
      discrepancy has been resolved by an exact second count. */
  function Accountable(k: Collection): Result<int, CashError> {
    match CashDifference(k.expected, k.collected)
    case Err(e) => Err(e)
    case Ok(recorded) =>
      match k.discrepancy
      case None => if recorded != 0 then Err(DiscrepancyLinkMissing) else Ok(k.collected)
      case Some(d) =>
        if !Linkage(k, d, recorded) then Err(DiscrepancyLinkageInvalid)
        else if d.status == Open || d.status == Investigating then Err(DiscrepancyUnresolved)
        else if d.status == Resolved then Ok(k.expected)
        else Ok(k.collected)
  }

  // Measures of the allocation table.

  function ToCollection(c: nat): Item -> int {
    (it: Item) => if it.collection == c then it.amount else 0
  }

  function OfRemittance(r: nat): Item -> int {
    (it: Item) => if it.remittance == r then it.amount else 0
  }

  predicate IsVerified(remittances: seq<Remittance>, r: nat) {
    r < |remittances| && remittances[r].status == Verified
  }

  function VerifiedTo(remittances: seq<Remittance>, c: nat): Item -> int {
    (it: Item) => if it.collection == c && IsVerified(remittances, it.remittance) then it.amount else 0
  }

  /** The amounts counted for a collection while remittance r is being verified. */
  function CountedFor(remittances: seq<Remittance>, r: nat, c: nat): Item -> int {
    (it: Item) =>
      if it.collection == c && (it.remittance == r || IsVerified(remittances, it.remittance)) then it.amount else 0
  }

  function Allocated(l: Ledger, c: nat): int { Sum(l.items, ToCollection(c)) }

  function VerifiedAllocated(l: Ledger, c: nat): int { Sum(l.items, VerifiedTo(l.remittances, c)) }

  // Referential integrity and the unique index on (remittance, collection).
  predicate WellFormed(l: Ledger) {
    && (forall d | 0 <= d < |l.deliveries| :: l.deliveries[d].order < |l.orders|)
    && (forall c | 0 <= c < |l.collections| ::
          && l.collections[c].order < |l.orders|
          && (l.collections[c].delivery.Some? ==> l.collections[c].delivery.value < |l.deliveries|))
    && (forall i | 0 <= i < |l.items| ::
          l.items[i].remittance < |l.remittances| && l.items[i].collection < |l.collections|)
    && (forall i, j | 0 <= i < j < |l.items| ::
          !(l.items[i].remittance == l.items[j].remittance && l.items[i].collection == l.items[j].collection))
  }
}
