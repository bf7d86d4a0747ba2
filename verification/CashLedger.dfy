/** What each transaction of the cash service does to the ledger, as a function of the ledger
    it starts from. A refused transaction rolls back, so it leaves the ledger as it was. */
module CashLedger {
  import opened Wrappers
  import opened Sums
  import opened CashTypes

  // Recording a collection.

  function RecordTarget(expected: int, collected: int): CollectionStatus {
    if collected < expected then PartiallyCollected else Collected
  }

  function RecordCheck(l: Ledger, c: nat, input: RecordInput, key: RecordKey, partialEnabled: bool): Outcome
    requires WellFormed(l)
  {
    if c >= |l.collections| || l.collections[c].delivery.None? then Refused(CollectionNotFound) else
    var k := l.collections[c];
    var o := l.orders[k.order];
    var d := l.deliveries[k.delivery.value];
    if k.recordKey == Some(key) && k.recordRequest == Some(input) then Replayed
    else if k.recordKey == Some(key) then Refused(IdempotencyKeyReused)
    else if o.version != input.orderVersion || d.version != input.deliveryVersion then Refused(VersionConflict)
    else if d.order != k.order || k.expected != o.expectedCod then Refused(CollectionLinkageInvalid)
    else if k.status != Expected then Refused(CollectionAlreadyRecorded)
    else if o.stage != d.stage || !Collectable(o.payment) then Refused(CollectionOrderStateInvalid)
    else if d.stage != (if o.pickup then ReadyForPickup else OutForDelivery)
      then Refused(CollectionDeliveryStateInvalid)
    else if input.collected <= 0 then Refused(CollectedAmountInvalid)
    else if CashDifference(k.expected, input.collected).Err? then Refused(InvalidMillimes)
    else if input.collected < k.expected && !partialEnabled then Refused(PartialCollectionDisabled)
    else if input.collected != k.expected && !ReasonGiven(input.reasonCode, input.reasonDetail)
    then Refused(DiscrepancyReasonRequired)
    else if !CanTransitionCollection(k.status, RecordTarget(k.expected, input.collected))
      then Refused(CollectionTransitionNotAllowed)
    else if !o.pickup && (d.courier.None? || (k.courier.Some? && k.courier != d.courier))
    then Refused(CollectionCourierRequired)
    else if k.recordKey.Some? then Refused(VersionConflict)
    else Done
  }

  function CollectedPayment(pickup: bool): PaymentStatus {
    if pickup then CashCollectedAtStore else CashCollectedByCourier
  }

  function RecordedRow(k: Collection, o: Order, d: Delivery, input: RecordInput, key: RecordKey,
    user: nat): Collection {
    k.(status := RecordTarget(k.expected, input.collected), collected := input.collected,
       collectedBy := Some(user), courier := if o.pickup then None else d.courier,
       recordKey := Some(key), recordRequest := Some(input),
       discrepancy :=
         if input.collected == k.expected then None
         else Some(Discrepancy(Open, k.expected, input.collected, input.collected - k.expected, user, None)))
  }

  function Record(l: Ledger, c: nat, input: RecordInput, key: RecordKey, user: nat,
    partialEnabled: bool): (r: (Ledger, Outcome))
    requires WellFormed(l)
  {
    var check := RecordCheck(l, c, input, key, partialEnabled);
    if check != Done then (l, check) else
    var k := l.collections[c];
    var o := l.orders[k.order];
    var d := l.deliveries[k.delivery.value];
    var payment := if input.collected != k.expected then ReconciliationDiscrepancy else CollectedPayment(o.pickup);
    (l.(collections := l.collections[c := RecordedRow(k, o, d, input, key, user)],
        orders := l.orders[k.order := o.(payment := payment, version := o.version + 1)],
        deliveries := l.deliveries[k.delivery.value :=
          d.(cashCollected := Some(input.collected == k.expected), version := d.version + 1)]),
     Done)
  }

  // Creating a remittance.

  datatype Allocation = Allocation(collection: nat, amount: int)

  datatype CreateInput = CreateInput(courier: nat, number: string, declared: int, allocations: seq<Allocation>)

  function Amounts(allocations: seq<Allocation>): seq<int> {
    seq(|allocations|, i requires 0 <= i < |allocations| => allocations[i].amount)
  }

  function NewItems(r: nat, allocations: seq<Allocation>): seq<Item> {
    seq(|allocations|, i requires 0 <= i < |allocations| => Item(r, allocations[i].collection, allocations[i].amount))
  }

  predicate Distinct(allocations: seq<Allocation>) {
    forall i, j | 0 <= i < j < |allocations| :: allocations[i].collection != allocations[j].collection
  }

  /** The amount a request asks for from collection c, if any. */
  function Requested(allocations: seq<Allocation>, c: nat): Option<int> {
    if allocations == [] then None
    else if allocations[|allocations| - 1].collection == c then Some(allocations[|allocations| - 1].amount)
    else Requested(allocations[..|allocations| - 1], c)
  }

  function AllocationError(l: Ledger, courier: nat, c: nat, amount: int): Option<CashError>
    requires c < |l.collections|
  {
    var k := l.collections[c];
    match Accountable(k)
    case Err(e) => Some(e)
    case Ok(accountable) =>
      if k.courier != Some(courier) || !Remittable(k.status) then Some(CollectionNotRemittable)
      else if Allocated(l, c) + amount > accountable then Some(CollectionOverAllocated)
      else None
  }

  /** The first refusal met when the requested collections are visited in id order from c on. */
  function FirstAllocationError(l: Ledger, input: CreateInput, c: nat): Option<CashError>
    requires c <= |l.collections|
    decreases |l.collections| - c
  {
    if c == |l.collections| then None else
    var amount := Requested(input.allocations, c);
    if amount.Some? && AllocationError(l, input.courier, c, amount.value).Some?
    then AllocationError(l, input.courier, c, amount.value)
    else FirstAllocationError(l, input, c + 1)
  }

  function CreateCheck(l: Ledger, input: CreateInput): Outcome
    requires WellFormed(l)
  {
    if !Distinct(input.allocations) then Refused(DuplicateAllocation)
    else if exists a | a in input.allocations :: a.amount <= 0 then Refused(AllocationInvalid)
    else match SumMillimes(Amounts(input.allocations))
      case Err(e) => Refused(e)
      case Ok(total) =>
        if total != input.declared then Refused(RemittanceTotalMismatch)
        else if exists a | a in input.allocations :: a.collection >= |l.collections| then Refused(CollectionNotFound)
        else if input.allocations == [] then Refused(EmptyAllocation)
        else if input.courier !in l.activeCouriers then Refused(CourierUnavailable)
        else match FirstAllocationError(l, input, 0)
          case Some(e) => Refused(e)
          case None =>
            if exists m | m in l.remittances :: m.number == input.number then Refused(RemittanceConflict) else Done
  }

  function Create(l: Ledger, input: CreateInput): (Ledger, Outcome)
    requires WellFormed(l)
  {
    var check := CreateCheck(l, input);
    if check != Done then (l, check) else
    (l.(remittances := l.remittances +
          [Remittance(input.number, input.courier, Draft, input.declared, None, None, None, None, [])],
        items := l.items + NewItems(|l.remittances|, input.allocations)),
     Done)
  }

  // Submitting a remittance.

  function RemittanceTotal(l: Ledger, r: nat): Result<int, CashError> {
    if (forall it | it in l.items && it.remittance == r :: ValidMillimes(it.amount)) &&
      ValidMillimes(Sum(l.items, OfRemittance(r)))
    then Ok(Sum(l.items, OfRemittance(r)))
    else Err(InvalidMillimes)
  }

  function SubmitCheck(l: Ledger, r: nat): Outcome {
    if r >= |l.remittances| then Refused(RemittanceNotFound)
    else if !CanTransitionRemittance(l.remittances[r].status, Submitted) then Refused(SubmissionNotAllowed)
    else match RemittanceTotal(l, r)
      case Err(e) => Refused(e)
      case Ok(total) => if total != l.remittances[r].declared then Refused(RemittanceTotalInvalid) else Done
  }

  function Submit(l: Ledger, r: nat, user: nat): (Ledger, Outcome) {
    var check := SubmitCheck(l, r);
    if check != Done then (l, check) else
    (l.(remittances := l.remittances[r := l.remittances[r].(status := Submitted, receivedBy := Some(user))]), Done)
  }

  // Applying a verified remittance to collections and orders.

  function Counted(l: Ledger, r: nat, c: nat): int { Sum(l.items, CountedFor(l.remittances, r, c)) }

  predicate HasItem(l: Ledger, r: nat, c: nat) {
    exists it | it in l.items :: it.remittance == r && it.collection == c
  }

  predicate FullyCounted(l: Ledger, r: nat, c: nat)
    requires c < |l.collections|
  {
    Accountable(l.collections[c]) == Ok(Counted(l, r, c))
  }

  function ItemError(l: Ledger, r: nat, c: nat): Option<CashError>
    requires c < |l.collections|
  {
    match Accountable(l.collections[c])
    case Err(e) => Some(e)
    case Ok(accountable) =>
      if Counted(l, r, c) > accountable then Some(CollectionOverAllocated)
      else if Counted(l, r, c) == accountable && !CanTransitionCollection(l.collections[c].status, Remitted)
      then Some(CollectionRemittanceStateInvalid)
      else None
  }

  function FirstItemError(l: Ledger, r: nat, i: nat): Option<CashError>
    requires WellFormed(l) && i <= |l.items|
    decreases |l.items| - i
  {
    if i == |l.items| then None
    else if l.items[i].remittance == r && ItemError(l, r, l.items[i].collection).Some?
    then ItemError(l, r, l.items[i].collection)
    else FirstItemError(l, r, i + 1)
  }

  /** Every collection of the remittance whose counted allocations reach its accountable amount
      becomes REMITTED; no other row changes. */
  function MarkRemitted(l: Ledger, r: nat): (cols: seq<Collection>)
    ensures |cols| == |l.collections|
  {
    seq(|l.collections|, c requires 0 <= c < |l.collections| =>
      if HasItem(l, r, c) && FullyCounted(l, r, c) then l.collections[c].(status := Remitted) else l.collections[c])
  }

  /** The collections of an order that have not been voided, in id order. */
  function Live(cols: seq<Collection>, o: nat): seq<Collection> {
    if cols == [] then []
    else
      var k := cols[|cols| - 1];
      Live(cols[..|cols| - 1], o) + (if k.order == o && k.status != Voided then [k] else [])
  }

  function Accountables(rows: seq<Collection>): Result<seq<int>, CashError> {
    if rows == [] then Ok([])
    else match Accountables(rows[..|rows| - 1])
      case Err(e) => Err(e)
      case Ok(front) =>
        match Accountable(rows[|rows| - 1])
        case Err(e) => Err(e)
        case Ok(v) => Ok(front + [v])
  }

  /** Whether an order is fully remitted, once its collections have been marked. */
  function FullyRemitted(cols: seq<Collection>, o: nat, cod: int): Result<bool, CashError> {
    var rows := Live(cols, o);
    if rows == [] || exists k | k in rows :: k.status != Remitted then Ok(false)
    else match Accountables(rows)
      case Err(e) => Err(e)
      case Ok(values) =>
        match SumMillimes(values)
        case Err(e) => Err(e)
        case Ok(total) => Ok(total == cod)
  }

  predicate Touches(l: Ledger, r: nat, o: nat)
    requires WellFormed(l)
  {
    exists it | it in l.items :: it.remittance == r && l.collections[it.collection].order == o
  }

  function FirstOrderError(l: Ledger, r: nat, cols: seq<Collection>, i: nat): Option<CashError>
    requires WellFormed(l) && i <= |l.items|
    decreases |l.items| - i
  {
    if i == |l.items| then None
    else
      var o := l.collections[l.items[i].collection].order;
      if l.items[i].remittance == r && FullyRemitted(cols, o, l.orders[o].expectedCod).Err?
      then Some(FullyRemitted(cols, o, l.orders[o].expectedCod).error)
      else FirstOrderError(l, r, cols, i + 1)
  }

  function MarkOrders(l: Ledger, r: nat, cols: seq<Collection>): (orders: seq<Order>)
    requires WellFormed(l)
    ensures |orders| == |l.orders|
  {
    seq(|l.orders|, o requires 0 <= o < |l.orders| =>
      if Touches(l, r, o) && FullyRemitted(cols, o, l.orders[o].expectedCod) == Ok(true)
      then l.orders[o].(payment := CashRemitted, version := l.orders[o].version + 1)
      else l.orders[o])
  }

  function ApplyVerified(l: Ledger, r: nat): Result<Ledger, CashError>
    requires WellFormed(l)
  {
    match FirstItemError(l, r, 0)
    case Some(e) => Err(e)
    case None =>
      var cols := MarkRemitted(l, r);
      match FirstOrderError(l, r, cols, 0)
      case Some(e) => Err(e)
      case None => Ok(l.(collections := cols, orders := MarkOrders(l, r, cols)))
  }

  // Reconciling a remittance.

  predicate ItemsRemittable(l: Ledger, r: nat)
    requires WellFormed(l) && r < |l.remittances|
  {
    forall it | it in l.items && it.remittance == r ::
      l.collections[it.collection].courier == Some(l.remittances[r].courier) &&
        Remittable(l.collections[it.collection].status)
  }

  function ReconcileCheck(l: Ledger, r: nat, user: nat, verified: int, code: Option<string>,
    detail: Option<string>): Outcome
    requires WellFormed(l)
  {
    if r >= |l.remittances| then Refused(RemittanceNotFound) else
    var m := l.remittances[r];
    if !CanTransitionRemittance(m.status, Verified) then Refused(ReconciliationNotAllowed)
    else if m.receivedBy.None? || m.receivedBy == Some(user) then Refused(SeparateApproverRequired)
    else match RemittanceTotal(l, r)
      case Err(e) => Refused(e)
      case Ok(total) =>
        if total != m.declared then Refused(RemittanceTotalInvalid)
        else if !ItemsRemittable(l, r) then Refused(RemittanceCollectionStateInvalid)
        else match CashDifference(m.declared, verified)
          case Err(e) => Refused(e)
          case Ok(difference) =>
            if difference != 0 && !ReasonGiven(code, detail) then Refused(DiscrepancyReasonRequired)
            else if !CanTransitionRemittance(m.status, if difference == 0 then Verified else InDiscrepancy)
              then Refused(ReconciliationNotAllowed)
            else if m.status != Submitted then Refused(ReconciliationNotAllowed)
            else Done
  }

  function FlagOrders(l: Ledger, r: nat): (orders: seq<Order>)
    requires WellFormed(l)
    ensures |orders| == |l.orders|
  {
    seq(|l.orders|, o requires 0 <= o < |l.orders| =>
      if Touches(l, r, o) then l.orders[o].(payment := ReconciliationDiscrepancy, version := l.orders[o].version + 1)
      else l.orders[o])
  }

  function ReconciledRow(m: Remittance, user: nat, verified: int): Remittance {
    var row := m.(status := if verified == m.declared then Verified else InDiscrepancy, verified := Some(verified),
                  difference := Some(verified - m.declared), verifiedBy := Some(user));
    if verified == m.declared then row
    else
      var raised := Discrepancy(Open, m.declared, verified, verified - m.declared, user, None);
      row.(discrepancies := m.discrepancies + [raised])
  }

  function Reconcile(l: Ledger, r: nat, user: nat, verified: int, code: Option<string>,
    detail: Option<string>): (Ledger, Outcome)
    requires WellFormed(l)
  {
    var check := ReconcileCheck(l, r, user, verified, code, detail);
    if check != Done then (l, check) else
    var updated := l.(remittances := l.remittances[r := ReconciledRow(l.remittances[r], user, verified)]);
    if verified != l.remittances[r].declared then (updated.(orders := FlagOrders(l, r)), Done)
    else match ApplyVerified(updated, r)
      case Err(e) => (l, Refused(e))
      case Ok(applied) => (applied, Done)
  }

  // Resolving discrepancies.

  datatype Resolution = ExactCount(finalVerified: Option<int>) | WriteOff(finalVerified: Option<int>)

  function ResolutionStatus(how: Resolution): DiscrepancyStatus {
    if how.ExactCount? then Resolved else WrittenOff
  }

  /** The running total over an order's live collections while collection c is being resolved:
      None as soon as one of the others is not settled at its expected amount. */
  function ProjectionTotal(l: Ledger, c: nat, upto: nat): Result<Option<int>, CashError>
    requires c < |l.collections| && upto <= |l.collections|
  {
    if upto == 0 then Ok(Some(0)) else
    match ProjectionTotal(l, c, upto - 1)
    case Err(e) => Err(e)
    case Ok(None) => Ok(None)
    case Ok(Some(total)) =>
      var k := l.collections[upto - 1];
      if k.order != l.collections[c].order || k.status == Voided then Ok(Some(total))
      else if upto - 1 == c then Ok(Some(total + k.expected))
      else match CashDifference(k.expected, k.collected)
        case Err(e) => Err(e)
        case Ok(difference) =>
          match k.discrepancy
          case None =>
            if !Accounted(k.status) || difference != 0 then Ok(None) else Ok(Some(total + k.collected))
          case Some(d) =>
            if d.status != Resolved || !Linkage(k, d, difference) || !Accounted(k.status) then Ok(None)
            else Ok(Some(total + k.expected))
  }

  /** The last guards of a resolution: the final amount, and the projection of the order. */
  function FinalAmountCheck(l: Ledger, c: nat, how: Resolution): Outcome
    requires c < |l.collections|
  {
    if how.ExactCount? && how.finalVerified != Some(l.collections[c].expected) then Refused(FinalAmountInvalid)
    else if how.ExactCount? && ProjectionTotal(l, c, |l.collections|).Err?
    then Refused(ProjectionTotal(l, c, |l.collections|).error)
    else if how.WriteOff? && how.finalVerified.Some? then Refused(FinalAmountNotApplicable)
    else Done
  }

  function ResolveCollectionCheck(l: Ledger, c: nat, user: nat, how: Resolution): Outcome
    requires WellFormed(l)
  {
    if c >= |l.collections| || l.collections[c].delivery.None? then Refused(CollectionNotFound) else
    var k := l.collections[c];
    if k.discrepancy.None? then Refused(DiscrepancyNotFound) else
    var d := k.discrepancy.value;
    if l.deliveries[k.delivery.value].order != k.order || d.expected != k.expected || d.actual != k.collected
    then Refused(DiscrepancyLinkageInvalid)
    else match CashDifference(k.expected, k.collected)
      case Err(e) => Refused(e)
      case Ok(difference) =>
        if d.difference != difference then Refused(DiscrepancyLinkageInvalid)
        else if !CanTransitionDiscrepancy(d.status, ResolutionStatus(how)) then Refused(ResolutionNotAllowed)
        else if !Remittable(k.status) || l.orders[k.order].payment != ReconciliationDiscrepancy
        then Refused(CollectionDiscrepancyStateInvalid)
        else if k.collectedBy.None? || d.openedBy == user || k.collectedBy == Some(user)
        then Refused(SeparateApproverRequired)
        else if exists it | it in l.items :: it.collection == c then Refused(DiscrepancyAlreadyAllocated)
        else FinalAmountCheck(l, c, how)
  }

  predicate ClearsProjection(l: Ledger, c: nat)
    requires WellFormed(l) && c < |l.collections|
  {
    ProjectionTotal(l, c, |l.collections|) == Ok(Some(l.orders[l.collections[c].order].expectedCod))
  }

  function ResolvedCollection(k: Collection, user: nat, how: Resolution): Collection
    requires k.discrepancy.Some?
  {
    var d := k.discrepancy.value.(status := ResolutionStatus(how), resolvedBy := Some(user));
    var settled := k.(discrepancy := Some(d));
    if how.WriteOff? then settled else settled.(status := Collected)
  }

  /** The rows of a resolution; a cleared order and its delivery are settled with it. */
  function WriteResolution(l: Ledger, c: nat, user: nat, how: Resolution, clear: bool): Ledger
    requires WellFormed(l) && c < |l.collections| && l.collections[c].delivery.Some? &&
      l.collections[c].discrepancy.Some?
  {
    var k := l.collections[c];
    var marked := l.(collections := l.collections[c := ResolvedCollection(k, user, how)]);
    if !clear then marked else
    var o := l.orders[k.order];
    var d := l.deliveries[k.delivery.value];
    marked.(orders := l.orders[k.order := o.(payment := CollectedPayment(o.pickup), version := o.version + 1)],
            deliveries := l.deliveries[k.delivery.value := d.(cashCollected := Some(true), version := d.version + 1)])
  }

  function ResolveCollection(l: Ledger, c: nat, user: nat, how: Resolution): (Ledger, Outcome)
    requires WellFormed(l)
  {
    var check := ResolveCollectionCheck(l, c, user, how);
    if check != Done then (l, check)
    else (WriteResolution(l, c, user, how, how.ExactCount? && ClearsProjection(l, c)), Done)
  }

  function ResolveRemittanceCheck(l: Ledger, r: nat, i: nat, user: nat, how: Resolution): Outcome {
    if r >= |l.remittances| || i >= |l.remittances[r].discrepancies| then Refused(DiscrepancyNotFound) else
    var m := l.remittances[r];
    var d := m.discrepancies[i];
    if !CanTransitionDiscrepancy(d.status, ResolutionStatus(how)) then Refused(ResolutionNotAllowed)
    else if d.openedBy == user then Refused(SeparateApproverRequired)
    else if m.status != InDiscrepancy then Refused(RemittanceDiscrepancyStateInvalid)
    else if m.receivedBy.None? || m.receivedBy == Some(user) then Refused(SeparateApproverRequired)
    else if how.ExactCount? && how.finalVerified != Some(m.declared) then Refused(FinalAmountInvalid)
    else if how.WriteOff? && how.finalVerified.Some? then Refused(FinalAmountNotApplicable)
    else Done
  }

  function ResolvedRemittance(m: Remittance, i: nat, user: nat, how: Resolution): Remittance
    requires i < |m.discrepancies|
  {
    var settled := m.(discrepancies :=
      m.discrepancies[i := m.discrepancies[i].(status := ResolutionStatus(how), resolvedBy := Some(user))]);
    if how.WriteOff? then settled
    else settled.(status := Verified, verified := Some(m.declared), difference := Some(0), verifiedBy := Some(user))
  }

  function ResolveRemittance(l: Ledger, r: nat, i: nat, user: nat, how: Resolution): (Ledger, Outcome)
    requires WellFormed(l)
  {
    var check := ResolveRemittanceCheck(l, r, i, user, how);
    if check != Done then (l, check) else
    var row := ResolvedRemittance(l.remittances[r], i, user, how);
    if how.WriteOff? then (l.(remittances := l.remittances[r := row]), Done)
    else match ApplyVerified(l, r)
      case Err(e) => (l, Refused(e))
      case Ok(applied) => (applied.(remittances := applied.remittances[r := row]), Done)
  }

  // What the other services do to the same rows.

  /** Checkout creates an order with its deliveries and expected collections. */
  function PlaceOrder(l: Ledger, order: Order, amounts: seq<int>): (Ledger, Outcome) {
    if !Collectable(order.payment) then (l, Refused(CollectionOrderStateInvalid)) else
    var o, d := |l.orders|, |l.deliveries|;
    (l.(orders := l.orders + [order],
        deliveries := l.deliveries + seq(|amounts|, i => Delivery(o, order.stage, None, None, 1)),
        collections := l.collections + seq(|amounts|, i requires 0 <= i < |amounts| =>
          Collection(o, Some(d + i), None, Expected, amounts[i], 0, None, None, None, None))),
     Done)
  }

  /** The delivery workflow moves an order and one of its deliveries and may assign a courier. */
  function MoveDelivery(l: Ledger, d: nat, orderStage: Stage, stage: Stage, courier: Option<nat>): (Ledger, Outcome)
    requires WellFormed(l)
  {
    if d >= |l.deliveries| then (l, Refused(CollectionNotFound)) else
    var row := l.deliveries[d];
    var o := l.orders[row.order];
    (l.(deliveries := l.deliveries[d := row.(stage := stage, courier := courier, version := row.version + 1)],
        orders := l.orders[row.order := o.(stage := orderStage, version := o.version + 1)]),
     Done)
  }

  /** Cancelling an order voids its expected collections; it is refused once cash was recorded. */
  function CancelOrder(l: Ledger, o: nat): (Ledger, Outcome)
    requires WellFormed(l)
  {
    if o >= |l.orders| || !Collectable(l.orders[o].payment)
       || exists k | k in l.collections :: k.order == o && k.status != Expected && k.status != Voided
    then (l, Refused(CollectionOrderStateInvalid))
    else
      (l.(collections := seq(|l.collections|, c requires 0 <= c < |l.collections| =>
            if l.collections[c].order == o && l.collections[c].status == Expected
            then l.collections[c].(status := Voided) else l.collections[c]),
          orders := l.orders[o := l.orders[o].(payment := PaymentCancelled, version := l.orders[o].version + 1)]),
       Done)
  }

  // Runs.

  datatype Step =
    | RecordStep(c: nat, input: RecordInput, key: RecordKey, user: nat, partialEnabled: bool)
    | CreateStep(create: CreateInput)
    | SubmitStep(r: nat, user: nat)
    | ReconcileStep(r: nat, user: nat, verified: int, code: Option<string>, detail: Option<string>)
    | ResolveCollectionStep(c: nat, user: nat, how: Resolution)
    | ResolveRemittanceStep(r: nat, i: nat, user: nat, how: Resolution)
    | PlaceOrderStep(order: Order, amounts: seq<int>)
    | MoveDeliveryStep(d: nat, orderStage: Stage, stage: Stage, courier: Option<nat>)
    | CancelOrderStep(o: nat)
    | SetCouriersStep(couriers: set<nat>)

  function Apply(l: Ledger, s: Step): (Ledger, Outcome)
    requires WellFormed(l)
  {
    match s
    case RecordStep(c, input, key, user, partialEnabled) => Record(l, c, input, key, user, partialEnabled)
    case CreateStep(create) => Create(l, create)
    case SubmitStep(r, user) => Submit(l, r, user)
    case ReconcileStep(r, user, verified, code, detail) => Reconcile(l, r, user, verified, code, detail)
    case ResolveCollectionStep(c, user, how) => ResolveCollection(l, c, user, how)
    case ResolveRemittanceStep(r, i, user, how) => ResolveRemittance(l, r, i, user, how)
    case PlaceOrderStep(order, amounts) => PlaceOrder(l, order, amounts)
    case MoveDeliveryStep(d, orderStage, stage, courier) => MoveDelivery(l, d, orderStage, stage, courier)
    case CancelOrderStep(o) => CancelOrder(l, o)
    case SetCouriersStep(couriers) => (l.(activeCouriers := couriers), Done)
  }
}
