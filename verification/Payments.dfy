/**
 * Wallet top-ups through Razorpay: checkout verifications, captured, failed and refund webhooks,
 * and refunds, all at work on one collection of payments from copies that may be stale. A payment
 * goes by its order id, which a unique index keeps unique. What the gateway answers, and whether a
 * signature is valid, is input. Claim, credit and `transactionId` are one database transaction.
 */
module Payments {
  import opened Prelude
  import opened Rounding
  import opened TopupPolicy
  import opened Wallets

  type OrderId = string

  type TaskId = nat

  datatype PaymentStatus = PENDING | SUCCESS | FAILED | REFUNDED

  datatype Payment = Payment(user: UserId, amountRupees: real, amountPaise: int, currency: string,
                             status: PaymentStatus, razorpayPaymentId: Option<string>, transactionId: Option<nat>)

  /** A payment as the gateway reports it */
  datatype GatewayPayment = GatewayPayment(id: string, orderId: OrderId, amount: int, currency: string, status: string, captured: bool)

  datatype PaymentError =
    | NotPositive | TooManyDecimals | GatewayFailure | WrongOrder | WrongAmount | WrongCurrency | PaymentFailed | NotCaptured
    | InvalidSignature | AlreadyFailed | BeingProcessed | DuplicatePaymentId | NotFound | AccessDenied | NotRefundable
    | NoPaymentId | AboveMaximum | OrderRefused | PolicyRefused(policy: PolicyError) | WalletRefused(cause: WalletError)

  datatype Outcome = Credited(row: nat) | AlreadyProcessed | Ignored | Refunded(row: nat) | MarkedRefunded | Rejected(error: PaymentError)

  datatype Source = Checkout | Webhook

  // ----- the pure parts -----

  function ToPaise(amountRupees: real): (r: Result<int, PaymentError>)
    ensures r.Ok? ==> Within(Paise(r.value), amountRupees, 0.000001) && r.value >= 0
  {
    if amountRupees <= 0.0 then Err(PaymentError.NotPositive)
    else
      var amountPaise := MathRound(amountRupees * 100.0);
      if Abs(Paise(amountPaise) - amountRupees) > 0.000001 then Err(TooManyDecimals) else Ok(amountPaise)
  }

  /** The amounts accepted are exactly the positive ones that are, but for 1e-6 rupees, a whole number of paise. */
  lemma ToPaiseIff(amountRupees: real)
    ensures ToPaise(amountRupees).Ok? <==> amountRupees > 0.0 && exists n: int :: Within(Paise(n), amountRupees, 0.000001)
  {
    var rounded := MathRound(amountRupees * 100.0);
    if n: int :| Within(Paise(n), amountRupees, 0.000001) {
      assert n == rounded;
    }
    assert ToPaise(amountRupees).Ok? ==> Within(Paise(rounded), amountRupees, 0.000001);
  }

  function ValidateCapturedPayment(order: OrderId, payment: Payment, p: Option<GatewayPayment>): Result<GatewayPayment, PaymentError> {
    if p.None? then Err(GatewayFailure)
    else if p.value.orderId != order then Err(WrongOrder)
    else if p.value.amount != payment.amountPaise then Err(WrongAmount)
    else if p.value.currency != payment.currency then Err(WrongCurrency)
    else if !IsCaptured(p.value) then Err(if p.value.status == "failed" then PaymentFailed else NotCaptured)
    else Ok(p.value)
  }

  predicate IsCaptured(p: GatewayPayment) {
    p.status == "captured" && p.captured
  }

  const TOPUP_PREFIX := "RAZORPAY-"

  function TopupReference(paymentId: string): string {
    TOPUP_PREFIX + paymentId
  }

  predicate IsTopupReference(reference: Option<string>) {
    reference.Some? && TOPUP_PREFIX <= reference.value
  }

  function RefundReference(refundId: string): string {
    "REFUND-" + refundId
  }

  // ----- the store and its writers -----

  /** A history record: this ledger row credited this order for what the gateway reported. */
  datatype Credit = Credit(order: OrderId, row: nat, payment: GatewayPayment)

  datatype Store = Store(payments: map<OrderId, Payment>, bank: Bank, credits: seq<Credit>)

  /** The unique index on razorpayPaymentId */
  predicate IsTaken(payments: map<OrderId, Payment>, order: OrderId, paymentId: string) {
    exists o | o in payments :: o != order && payments[o].razorpayPaymentId == Some(paymentId)
  }

  /**
   * createRazorpayOrderService: the policy is checked against the wallet as it is now, not as it will be when credited.
   * `maximum` is the configured maximum.
   */
  function CreateOrder(st: Store, order: OrderId, user: UserId, amount: real, currency: string, maximum: real): Result<Store, PaymentError> {
    if user !in st.bank.roles || st.bank.roles[user] == WAREHOUSE then Err(AccessDenied)
    else
      match ToPaise(amount)
      case Err(e) => Err(e)
      case Ok(paise) =>
        if amount > maximum then Err(AboveMaximum)
        else if user !in st.bank.wallets then Err(WalletRefused(WalletNotFound))
        else if !st.bank.wallets[user].isActive then Err(WalletRefused(WalletInactive))
        else
          match ValidateTopupAmount(Balance(st.bank, user), CompletedRecharges(st.bank.ledger, user), st.bank.roles[user], amount)
          case Err(e) => Err(PolicyRefused(e))
          case Ok(_) =>
            if order in st.payments || amount < 1.0 || paise < 100 then Err(OrderRefused)
            else Ok(st.(payments := st.payments[order := Payment(user, amount, paise, currency, PENDING, None, None)]))
  }

  /**
   * Which orders are accepted: whole paise, within the maximum and the range for the wallet's next recharge, under a new id.
   * An accepted one is stored as pending, for its user and amount, and nothing else changes.
   */
  lemma OrderAcceptedIff(st: Store, order: OrderId, user: UserId, amount: real, currency: string, maximum: real)
    ensures CreateOrder(st, order, user, amount, currency, maximum).Ok? <==>
      && user in st.bank.roles && st.bank.roles[user] != WAREHOUSE
      && user in st.bank.wallets && st.bank.wallets[user].isActive
      && ToPaise(amount).Ok? && 1.0 <= amount <= maximum && order !in st.payments
      && var completed := CompletedRecharges(st.bank.ledger, user);
         var training := IsTrainingWalletRole(st.bank.roles[user]);
         && (training && completed == 0 ==> 200.0 <= amount <= 2000.0)
         && (training && completed == 1 && Balance(st.bank, user) < 1200.0 ==> Balance(st.bank, user) + amount >= 1200.0)
    ensures var created := CreateOrder(st, order, user, amount, currency, maximum);
      created.Ok? ==> && ToPaise(amount).Ok?
                      && created.value == st.(payments := st.payments[order := Payment(user, amount, ToPaise(amount).value, currency, PENDING, None, None)])
  {
    if user in st.bank.roles {
      TopupRule(Balance(st.bank, user), CompletedRecharges(st.bank.ledger, user), st.bank.roles[user], amount);
    }
  }

  /** The status a claim looks for */
  function Claimable(snapshot: Payment, source: Source): PaymentStatus {
    if source.Webhook? && snapshot.status == FAILED then FAILED else PENDING
  }

  /** A claim finds its payment, and the unique index lets it through. */
  predicate Claims(st: Store, order: OrderId, snapshot: Payment, p: GatewayPayment, source: Source) {
    && order in st.payments
    && st.payments[order].status == Claimable(snapshot, source)
    && st.payments[order].transactionId.None?
    && !IsTaken(st.payments, order, p.id)
  }

  function Claim(st: Store, order: OrderId, snapshot: Payment, p: GatewayPayment, source: Source): (Store, Outcome) {
    if order !in st.payments then (st, Rejected(BeingProcessed))
    else
      var payment := st.payments[order];
      if payment.status != Claimable(snapshot, source) || payment.transactionId.Some? then
        (st, if payment.status == SUCCESS then AlreadyProcessed
             else if payment.status == FAILED && Claimable(snapshot, source) != FAILED then Rejected(AlreadyFailed)
             else Rejected(BeingProcessed))
      else if IsTaken(st.payments, order, p.id) then (st, Rejected(DuplicatePaymentId))
      else
        match ApplyTransaction(st.bank, payment.user, TOPUP, payment.amountRupees, Some(TopupReference(p.id)))
        case Err(e) => (st, Rejected(WalletRefused(e)))
        case Ok(a) =>
          (Store(st.payments[order := payment.(status := SUCCESS, razorpayPaymentId := Some(p.id), transactionId := Some(a.row))],
                 a.bank,
                 if a.alreadyProcessed then st.credits else st.credits + [Credit(order, a.row, p)]),
           Credited(a.row))
  }

  /** The save would bring in a gateway id that another payment has. */
  predicate SaveIsRefused(payments: map<OrderId, Payment>, order: OrderId, snapshot: Payment, p: Option<GatewayPayment>) {
    p.Some? && p.value.id != "" && Some(p.value.id) != snapshot.razorpayPaymentId && IsTaken(payments, order, p.value.id)
  }

  /** Saving a document writes the fields that differ from the copy that was loaded, whatever is stored by now. */
  function SaveFailure(st: Store, order: OrderId, snapshot: Payment, p: Option<GatewayPayment>): Store {
    if order !in st.payments || SaveIsRefused(st.payments, order, snapshot, p) then st
    else
      var stored := st.payments[order];
      var paymentId := if p.Some? && p.value.id != "" then Some(p.value.id) else snapshot.razorpayPaymentId;
      st.(payments := st.payments[order := stored.(
        status := if snapshot.status != FAILED then FAILED else stored.status,
        razorpayPaymentId := if paymentId != snapshot.razorpayPaymentId then paymentId else stored.razorpayPaymentId)])
  }

  function FailedEvent(st: Store, p: GatewayPayment): Store {
    if p.orderId !in st.payments || st.payments[p.orderId].status != PENDING || IsTaken(st.payments, p.orderId, p.id) then st
    else st.(payments := st.payments[p.orderId := st.payments[p.orderId].(status := FAILED, razorpayPaymentId := Some(p.id))])
  }

  /** The blind save of a refund, from a copy that was SUCCESS, and the webhook's unconditional update */
  function SetRefunded(st: Store, order: OrderId): Store {
    if order !in st.payments then st
    else st.(payments := st.payments[order := st.payments[order].(status := REFUNDED)])
  }

  function DebitRefund(st: Store, user: UserId, refundId: string, rupees: real): (Store, Outcome) {
    match ApplyTransaction(st.bank, user, DEBIT, rupees, Some(RefundReference(refundId)))
    case Err(e) => (st, Rejected(WalletRefused(e)))
    case Ok(a) => (st.(bank := a.bank), Refunded(a.row))
  }

  /** The writers as they run on the stored collections. */
  class PaymentStore {
    var payments: map<OrderId, Payment>
    const finance: FinanceStore
    ghost var credits: seq<Credit>

    ghost function View(): Store
      reads this, finance
    {
      Store(payments, finance.View(), credits)
    }

    constructor (bank: Bank)
      ensures View() == Store(map[], bank, []) && fresh(finance)
    {
      payments, credits := map[], [];
      finance := new FinanceStore(bank);
    }

    method CreditCapturedPayment(order: OrderId, snapshot: Payment, p: GatewayPayment, source: Source) returns (outcome: Outcome)
      requires order in payments
      modifies this, finance
      ensures View() == Claim(old(View()), order, snapshot, p, source).0
      ensures outcome == Claim(old(View()), order, snapshot, p, source).1
    {
      var isRecovery := source.Webhook? && snapshot.status == FAILED;
      var existing := payments[order];
      if existing.status != (if isRecovery then FAILED else PENDING) || existing.transactionId.Some? {
        if existing.status == SUCCESS {
          return AlreadyProcessed;
        }
        if existing.status == FAILED && !isRecovery {
          return Rejected(AlreadyFailed);
        }
        return Rejected(BeingProcessed);
      }
      if IsTaken(payments, order, p.id) {
        return Rejected(DuplicatePaymentId);
      }
      outcome := TopUp(order, existing.(status := SUCCESS, razorpayPaymentId := Some(p.id)), p);
    }

    /** One transaction: when the wallet refuses, the claim is undone. */
    method TopUp(order: OrderId, claimed: Payment, p: GatewayPayment) returns (outcome: Outcome)
      requires order in payments
      modifies this, finance
      ensures var r := ApplyTransaction(old(finance.View()), claimed.user, TOPUP, claimed.amountRupees, Some(TopupReference(p.id)));
        && (r.Err? ==> outcome == Rejected(WalletRefused(r.error)) && View() == old(View()))
        && (r.Ok? ==>
              && outcome == Credited(r.value.row)
              && finance.View() == r.value.bank
              && payments == old(payments)[order := claimed.(transactionId := Some(r.value.row))]
              && credits == if r.value.alreadyProcessed then old(credits)
                            else old(credits) + [Credit(order, r.value.row, p)])
    {
      var existing := payments[order];
      payments := payments[order := claimed];
      var r := finance.Apply(claimed.user, TOPUP, claimed.amountRupees, Some(TopupReference(p.id)));
      if r.Err? {
        payments := payments[order := existing];
        return Rejected(WalletRefused(r.error));
      }
      var (row, alreadyProcessed) := r.value;
      payments := payments[order := claimed.(transactionId := Some(row))];
      if !alreadyProcessed {
        credits := credits + [Credit(order, row, p)];
      }
      return Credited(row);
    }

    method MarkPaymentFailed(order: OrderId, snapshot: Payment, p: Option<GatewayPayment>) returns (r: Result<(), PaymentError>)
      requires order in payments
      modifies this`payments
      ensures View() == SaveFailure(old(View()), order, snapshot, p)
      ensures r == if SaveIsRefused(old(payments), order, snapshot, p) then Err(DuplicatePaymentId) else Ok(())
    {
      var document := snapshot.(status := FAILED);
      if p.Some? && p.value.id != "" {
        document := document.(razorpayPaymentId := Some(p.value.id));
      }
      var stored := payments[order];
      if document.razorpayPaymentId != snapshot.razorpayPaymentId {
        if IsTaken(payments, order, document.razorpayPaymentId.value) {
          return Err(DuplicatePaymentId);
        }
        stored := stored.(razorpayPaymentId := document.razorpayPaymentId);
      }
      if document.status != snapshot.status {
        stored := stored.(status := document.status);
      }
      payments := payments[order := stored];
      return Ok(());
    }

    method HandleFailedWebhook(p: GatewayPayment)
      modifies this`payments
      ensures View() == FailedEvent(old(View()), p)
    {
      if p.orderId in payments && payments[p.orderId].status == PENDING && !IsTaken(payments, p.orderId, p.id) {
        payments := payments[p.orderId := payments[p.orderId].(status := FAILED, razorpayPaymentId := Some(p.id))];
      }
    }
  }

  // ----- the actors -----

  /** What is left of a request or webhook at its next await, with the copy of the payment it loaded. */
  datatype Task =
    | Rechecking(order: OrderId, snapshot: Payment, signed: bool)
    | Fetching(order: OrderId, snapshot: Payment, source: Source)
    | Claiming(order: OrderId, snapshot: Payment, source: Source, payment: GatewayPayment)
    | SavingFailure(order: OrderId, snapshot: Payment, failed: Option<GatewayPayment>, cause: PaymentError)
    | Refunding(order: OrderId, snapshot: Payment, rupees: real)
    | SavingRefund(order: OrderId, snapshot: Payment, rupees: real, refundId: string)
    | Debiting(order: OrderId, snapshot: Payment, rupees: real, refundId: string)
    | MarkingRefunded(order: OrderId, snapshot: Payment)
    | Done(outcome: Outcome)

  datatype State = State(store: Store, tasks: map<TaskId, Task>)

  datatype Action =
    | Order(order: OrderId, user: UserId, amount: real, currency: string, maximum: real)
    | VerifyCall(id: TaskId, order: OrderId, caller: UserId, signed: bool)
    | CapturedEvent(id: TaskId, order: OrderId)
    | Fetched(id: TaskId, fetched: Option<GatewayPayment>)
    | Failed(payment: GatewayPayment)
    | RefundCall(id: TaskId, order: OrderId, caller: UserId, isAdmin: bool, rupees: Option<real>)
    | RefundMade(id: TaskId, refundId: Option<string>)
    | RefundEvent(id: TaskId, order: OrderId)
    | Write(id: TaskId)
    | Elsewhere(tx: Tx)

  /** verifyPaymentService up to its first await */
  function Verify(payments: map<OrderId, Payment>, order: OrderId, caller: UserId, signed: bool): Task {
    if order !in payments || payments[order].user != caller then Done(Rejected(NotFound))
    else
      var snapshot := payments[order];
      match snapshot.status
      case SUCCESS => Done(AlreadyProcessed)
      case FAILED => Rechecking(order, snapshot, signed)
      case _ => AfterSignature(order, snapshot, signed)
  }

  function AfterSignature(order: OrderId, snapshot: Payment, signed: bool): Task {
    if signed then Fetching(order, snapshot, Checkout) else SavingFailure(order, snapshot, None, InvalidSignature)
  }

  /** handleCapturedWebhook up to its first await */
  function Captured(payments: map<OrderId, Payment>, order: OrderId): Task {
    if order !in payments then Done(Ignored)
    else if payments[order].status == SUCCESS then Done(AlreadyProcessed)
    else Fetching(order, payments[order], Webhook)
  }

  /** What an actor does with the gateway's answer */
  function Answered(task: Task, fetched: Option<GatewayPayment>): Task {
    match task
    case Rechecking(order, snapshot, signed) =>
      if fetched.Some? && IsCaptured(fetched.value) then AfterSignature(order, snapshot, signed) else Done(Rejected(AlreadyFailed))
    case Fetching(order, snapshot, source) =>
      if source.Webhook? && (fetched.None? || (snapshot.status == FAILED && !IsCaptured(fetched.value))) then Done(Ignored)
      else (
        match ValidateCapturedPayment(order, snapshot, fetched)
        case Ok(payment) => Claiming(order, snapshot, source, payment)
        case Err(e) =>
          if source.Checkout? && fetched.Some? && fetched.value.status == "failed" then SavingFailure(order, snapshot, fetched, e)
          else Done(Rejected(e))
      )
    case _ => task
  }

  /** refundPaymentService up to the gateway's refund; an amount of zero counts as none. */
  function Refund(payments: map<OrderId, Payment>, order: OrderId, caller: UserId, isAdmin: bool, rupees: Option<real>): Task {
    if order !in payments then Done(Rejected(NotFound))
    else
      var snapshot := payments[order];
      if !isAdmin && snapshot.user != caller then Done(Rejected(AccessDenied))
      else if snapshot.status != SUCCESS then Done(Rejected(NotRefundable))
      else if snapshot.razorpayPaymentId.GetOr("") == "" then Done(Rejected(NoPaymentId))
      else if rupees.GetOr(0.0) == 0.0 then Refunding(order, snapshot, snapshot.amountRupees)
      else
        match ToPaise(rupees.value)
        case Err(e) => Done(Rejected(e))
        case Ok(_) => Refunding(order, snapshot, rupees.value)
  }

  /** handleRefundWebhook up to its update */
  function RefundProcessed(payments: map<OrderId, Payment>, order: OrderId): Task {
    if order !in payments then Done(Ignored)
    else if payments[order].status == REFUNDED then Done(AlreadyProcessed)
    else MarkingRefunded(order, payments[order])
  }

  /** The write an actor has come to */
  function DoWrite(st: Store, task: Task): (Store, Task) {
    match task
    case Claiming(order, snapshot, source, payment) =>
      var (after, outcome) := Claim(st, order, snapshot, payment, source);
      (after, Done(outcome))
    case SavingFailure(order, snapshot, failed, cause) =>
      (SaveFailure(st, order, snapshot, failed),
       Done(Rejected(if SaveIsRefused(st.payments, order, snapshot, failed) then DuplicatePaymentId else cause)))
    case SavingRefund(order, snapshot, rupees, refundId) => (SetRefunded(st, order), Debiting(order, snapshot, rupees, refundId))
    case Debiting(order, snapshot, rupees, refundId) =>
      var (after, outcome) := DebitRefund(st, snapshot.user, refundId, rupees);
      (after, Done(outcome))
    case MarkingRefunded(order, snapshot) => (SetRefunded(st, order), Done(MarkedRefunded))
    case _ => (st, task)
  }

  function Start(s: State, id: TaskId, task: Task): State {
    if id in s.tasks then s else s.(tasks := s.tasks[id := task])
  }

  function Next(s: State, action: Action): State {
    match action
    case Order(order, user, amount, currency, maximum) =>
      var created := CreateOrder(s.store, order, user, amount, currency, maximum);
      if created.Ok? then s.(store := created.value) else s
    case VerifyCall(id, order, caller, signed) => Start(s, id, Verify(s.store.payments, order, caller, signed))
    case CapturedEvent(id, order) => Start(s, id, Captured(s.store.payments, order))
    case Fetched(id, fetched) => if id in s.tasks then s.(tasks := s.tasks[id := Answered(s.tasks[id], fetched)]) else s
    case Failed(payment) => s.(store := FailedEvent(s.store, payment))
    case RefundCall(id, order, caller, isAdmin, rupees) => Start(s, id, Refund(s.store.payments, order, caller, isAdmin, rupees))
    case RefundMade(id, refundId) =>
      if id in s.tasks && s.tasks[id].Refunding? then
        var t := s.tasks[id];
        var after := if refundId.None? then Done(Rejected(GatewayFailure)) else SavingRefund(t.order, t.snapshot, t.rupees, refundId.value);
        s.(tasks := s.tasks[id := after])
      else s
    case RefundEvent(id, order) => Start(s, id, RefundProcessed(s.store.payments, order))
    case Write(id) =>
      if id in s.tasks then
        var (store, task) := DoWrite(s.store, s.tasks[id]);
        State(store, s.tasks[id := task])
      else s
    case Elsewhere(tx) => if IsTopupReference(tx.reference) then s else s.(store := s.store.(bank := Wallets.Step(s.store.bank, tx)))
  }

  function Initial(bank: Bank): State {
    State(Store(map[], bank, []), map[])
  }

  function Run(bank: Bank, actions: seq<Action>): State {
    if actions == [] then Initial(bank) else Next(Run(bank, actions[..|actions| - 1]), actions[|actions| - 1])
  }
}
