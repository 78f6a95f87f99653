/** What every interleaving of the payment protocol guarantees. */
module PaymentSafety {
  import opened Prelude
  import opened Rounding
  import opened Wallets
  import opened Payments

  lemma {:induction false} RunSnoc(bank: Bank, actions: seq<Action>, action: Action)
    ensures Run(bank, actions + [action]) == Next(Run(bank, actions), action)
  {
    assert (actions + [action])[..|actions|] == actions;
  }

  // ----- what no write undoes -----

  /** A payment only moves on: its terms and its transactionId stay, and it is never pending again. */
  ghost predicate Later(p: Payment, q: Payment) {
    && p.user == q.user && p.amountRupees == q.amountRupees && p.amountPaise == q.amountPaise && p.currency == q.currency
    && (p.transactionId.Some? ==> q.transactionId == p.transactionId)
    && (p.status != PENDING ==> q.status != PENDING)
  }

  ghost predicate Evolves(s: Store, t: Store) {
    && (forall o | o in s.payments :: o in t.payments && Later(s.payments[o], t.payments[o]))
    && s.bank.ledger <= t.bank.ledger
    && s.credits <= t.credits
  }

  /** A copy that was right once */
  ghost predicate WasLoaded(st: Store, order: OrderId, snapshot: Payment) {
    order in st.payments && Later(snapshot, st.payments[order])
  }

  ghost predicate TaskOk(st: Store, task: Task) {
    && (!task.Done? ==> WasLoaded(st, task.order, task.snapshot))
    && (task.Claiming? ==> ValidateCapturedPayment(task.order, task.snapshot, Some(task.payment)).Ok?)
  }

  ghost predicate TasksOk(s: State) {
    forall id | id in s.tasks :: TaskOk(s.store, s.tasks[id])
  }

  lemma ClaimEvolves(st: Store, order: OrderId, snapshot: Payment, p: GatewayPayment, source: Source)
    ensures Evolves(st, Claim(st, order, snapshot, p, source).0)
  {
  }

  lemma {:induction false} WriteEvolves(st: Store, task: Task)
    ensures Evolves(st, DoWrite(st, task).0)
  {
    if task.Claiming? { ClaimEvolves(st, task.order, task.snapshot, task.payment, task.source); }
  }

  lemma {:induction false} StepEvolves(s: State, action: Action)
    ensures Evolves(s.store, Next(s, action).store)
  {
    match action
    case Write(id) => if id in s.tasks { WriteEvolves(s.store, s.tasks[id]); }
    case Elsewhere(tx) => StepCases(s.store.bank, tx);
    case _ =>
  }

  lemma {:induction false} WrittenOk(st: Store, task: Task)
    requires TaskOk(st, task)
    ensures TaskOk(DoWrite(st, task).0, DoWrite(st, task).1)
  {
    WriteEvolves(st, task);
    var (t, next) := DoWrite(st, task);
    if !next.Done? {
      assert next.order == task.order && next.snapshot == task.snapshot;
    }
  }

  /** What a step makes of its own task, or starts */
  lemma {:induction false} OwnTaskOk(s: State, action: Action, id: TaskId)
    requires TasksOk(s) && id in Next(s, action).tasks
    requires id !in s.tasks || Next(s, action).tasks[id] != s.tasks[id]
    ensures TaskOk(Next(s, action).store, Next(s, action).tasks[id])
  {
    if id in s.tasks {
      assert TaskOk(s.store, s.tasks[id]);
      if action.Write? { WrittenOk(s.store, s.tasks[id]); }
    }
  }

  lemma {:induction false} StepKeepsTasks(s: State, action: Action)
    requires TasksOk(s)
    ensures TasksOk(Next(s, action))
  {
    var t := Next(s, action);
    StepEvolves(s, action);
    forall id | id in t.tasks ensures TaskOk(t.store, t.tasks[id]) {
      if id in s.tasks && t.tasks[id] == s.tasks[id] {
      } else {
        OwnTaskOk(s, action, id);
      }
    }
  }

  lemma {:induction false} TasksAlwaysOk(bank: Bank, actions: seq<Action>)
    ensures TasksOk(Run(bank, actions))
  {
    if actions != [] {
      TasksAlwaysOk(bank, actions[..|actions| - 1]);
      StepKeepsTasks(Run(bank, actions[..|actions| - 1]), actions[|actions| - 1]);
    }
  }

  lemma {:induction false} EvolvesTransitively(a: Store, b: Store, c: Store)
    requires Evolves(a, b) && Evolves(b, c)
    ensures Evolves(a, c)
  {
    forall o | o in a.payments ensures o in c.payments && Later(a.payments[o], c.payments[o]) {
      assert o in b.payments && Later(a.payments[o], b.payments[o]);
    }
  }

  /** Credits, ledger rows and transactionIds are for good, and no payment is ever pending again. */
  lemma {:induction false} NothingIsUndone(bank: Bank, actions: seq<Action>, more: seq<Action>)
    ensures Evolves(Run(bank, actions).store, Run(bank, actions + more).store)
  {
    if more == [] {
      assert actions + more == actions;
    } else {
      var init, last := more[..|more| - 1], more[|more| - 1];
      NothingIsUndone(bank, actions, init);
      assert actions + more == actions + init + [last];
      RunSnoc(bank, actions + init, last);
      StepEvolves(Run(bank, actions + init), last);
      EvolvesTransitively(Run(bank, actions).store, Run(bank, actions + init).store, Run(bank, actions + more).store);
    }
  }

  // ----- gateway ids -----

  /** No two payments have the same gateway id. */
  ghost predicate IdsDistinct(payments: map<OrderId, Payment>) {
    forall o, q | o in payments && q in payments && o != q && payments[o].razorpayPaymentId.Some? ::
      payments[o].razorpayPaymentId != payments[q].razorpayPaymentId
  }

  lemma {:induction false} StepKeepsIdsDistinct(s: State, action: Action)
    requires IdsDistinct(s.store.payments)
    ensures IdsDistinct(Next(s, action).store.payments)
  {
    if action.Write? && action.id in s.tasks { WriteKeepsIdsDistinct(s.store, s.tasks[action.id]); }
  }

  lemma {:induction false} WriteKeepsIdsDistinct(st: Store, task: Task)
    requires IdsDistinct(st.payments)
    ensures IdsDistinct(DoWrite(st, task).0.payments)
  {
  }

  lemma {:induction false} IdsAlwaysDistinct(bank: Bank, actions: seq<Action>)
    ensures IdsDistinct(Run(bank, actions).store.payments)
  {
    if actions != [] {
      IdsAlwaysDistinct(bank, actions[..|actions| - 1]);
      StepKeepsIdsDistinct(Run(bank, actions[..|actions| - 1]), actions[|actions| - 1]);
    }
  }

  /** A failed webhook is taken up exactly by a pending payment, if the gateway's id is free, and then it is not free for any other. */
  lemma {:induction false} FailedWebhookIff(bank: Bank, actions: seq<Action>, p: GatewayPayment)
    ensures var st, t := Run(bank, actions).store, Run(bank, actions + [Failed(p)]).store;
      && t.bank == st.bank && t.credits == st.credits && t.payments.Keys == st.payments.Keys
      && (forall o | o in st.payments && o != p.orderId :: t.payments[o] == st.payments[o])
      && (p.orderId in st.payments ==>
            t.payments[p.orderId] == if st.payments[p.orderId].status == PENDING && !IsTaken(st.payments, p.orderId, p.id)
                                     then st.payments[p.orderId].(status := FAILED, razorpayPaymentId := Some(p.id))
                                     else st.payments[p.orderId])
  {
    RunSnoc(bank, actions, Failed(p));
  }

  // ----- one credit per payment -----

  /**
   * The payment points at the row of its credit; the row tops up its owner's wallet with its amount;
   * and the gateway had captured that amount, in that currency, for that order.
   */
  ghost predicate CreditStands(st: Store, c: Credit) {
    && c.order in st.payments && c.row < |st.bank.ledger|
    && var payment, row := st.payments[c.order], st.bank.ledger[c.row];
       && payment.transactionId == Some(c.row)
       && row.user == payment.user && row.kind == TOPUP && row.amount == payment.amountRupees
       && row.reference == Some(TopupReference(c.payment.id))
       && c.payment.orderId == c.order && c.payment.amount == payment.amountPaise
       && c.payment.currency == payment.currency && IsCaptured(c.payment)
  }

  ghost predicate PaymentOk(p: Payment) {
    && Within(Paise(p.amountPaise), p.amountRupees, 0.000001)
    && p.amountRupees >= 1.0
    && (p.status == PENDING ==> p.transactionId.None?)
    && (p.status == SUCCESS ==> p.transactionId.Some?)
  }

  ghost predicate StoreInv(st: Store) {
    && (forall o | o in st.payments :: PaymentOk(st.payments[o]))
    && (forall i | 0 <= i < |st.credits| :: CreditStands(st, st.credits[i]))
    && (forall i, j | 0 <= i < j < |st.credits| :: st.credits[i].order != st.credits[j].order && st.credits[i].row < st.credits[j].row)
  }

  lemma {:induction false} StandsOn(s: Store, t: Store, c: Credit)
    requires CreditStands(s, c) && Evolves(s, t)
    ensures CreditStands(t, c)
  {
    assert t.bank.ledger[c.row] == s.bank.ledger[c.row];
    assert Later(s.payments[c.order], t.payments[c.order]);
  }

  lemma {:induction false} ClaimCases(st: Store, order: OrderId, snapshot: Payment, p: GatewayPayment, source: Source)
    ensures var (t, outcome) := Claim(st, order, snapshot, p, source);
      t == st || (&& outcome.Credited? && order in st.payments && st.payments[order].transactionId.None?
                  && t.payments == st.payments[order := st.payments[order].(status := SUCCESS, razorpayPaymentId := Some(p.id), transactionId := Some(outcome.row))]
                  && outcome.row < |t.bank.ledger|
                  && t.bank.ledger[outcome.row].reference == Some(TopupReference(p.id))
                  && (if FindReference(st.bank.ledger, Some(TopupReference(p.id))).Some? then t.bank == st.bank && t.credits == st.credits
                      else && t.credits == st.credits + [Credit(order, outcome.row, p)]
                           && outcome.row == |st.bank.ledger|
                           && t.bank.ledger == st.bank.ledger + [t.bank.ledger[outcome.row]]
                           && var row := t.bank.ledger[outcome.row];
                              row.user == st.payments[order].user && row.kind == TOPUP && row.amount == st.payments[order].amountRupees))
  {
    assert |TopupReference(p.id)| > 0;
  }

  lemma {:induction false} ClaimKeepsStoreInv(st: Store, order: OrderId, snapshot: Payment, p: GatewayPayment, source: Source)
    requires StoreInv(st) && WasLoaded(st, order, snapshot) && ValidateCapturedPayment(order, snapshot, Some(p)).Ok?
    ensures StoreInv(Claim(st, order, snapshot, p, source).0)
  {
    var t := Claim(st, order, snapshot, p, source).0;
    ClaimCases(st, order, snapshot, p, source);
    if t != st {
      EarlierCreditsStand(st, order, snapshot, p, source);
      if t.credits != st.credits { NewCreditStands(st, order, snapshot, p, source); }
    }
  }

  lemma {:induction false} EarlierCreditsStand(st: Store, order: OrderId, snapshot: Payment, p: GatewayPayment, source: Source)
    requires StoreInv(st) && Claim(st, order, snapshot, p, source).0 != st
    ensures forall i | 0 <= i < |st.credits| ::
      CreditStands(Claim(st, order, snapshot, p, source).0, st.credits[i]) && st.credits[i].order != order
  {
    var t := Claim(st, order, snapshot, p, source).0;
    ClaimEvolves(st, order, snapshot, p, source);
    forall i | 0 <= i < |st.credits| ensures CreditStands(t, st.credits[i]) && st.credits[i].order != order {
      StandsOn(st, t, st.credits[i]);
    }
  }

  lemma {:induction false} NewCreditStands(st: Store, order: OrderId, snapshot: Payment, p: GatewayPayment, source: Source)
    requires WasLoaded(st, order, snapshot) && ValidateCapturedPayment(order, snapshot, Some(p)).Ok?
    requires Claim(st, order, snapshot, p, source).0.credits != st.credits
    ensures var t := Claim(st, order, snapshot, p, source).0;
      && |t.credits| == |st.credits| + 1 && CreditStands(t, t.credits[|st.credits|])
      && t.credits[|st.credits|].order == order && t.credits[|st.credits|].row == |st.bank.ledger|
  {
    ClaimCases(st, order, snapshot, p, source);
  }

  lemma {:induction false} OtherWriteKeepsStoreInv(st: Store, t: Store)
    requires StoreInv(st) && Evolves(st, t) && t.credits == st.credits
    requires forall o | o in t.payments :: PaymentOk(t.payments[o])
    ensures StoreInv(t)
  {
    forall i | 0 <= i < |t.credits| ensures CreditStands(t, t.credits[i]) {
      StandsOn(st, t, st.credits[i]);
    }
  }

  predicate IsClaim(s: State, action: Action) {
    action.Write? && action.id in s.tasks && s.tasks[action.id].Claiming?
  }

  /** Only claims make credits and transactionIds. */
  lemma {:induction false} OtherStepsCreditNothing(s: State, action: Action)
    requires !IsClaim(s, action)
    ensures var t := Next(s, action).store;
      && t.credits == s.store.credits
      && forall o | o in t.payments && t.payments[o].transactionId.Some? ::
           o in s.store.payments && s.store.payments[o].transactionId.Some?
  {
  }

  lemma {:induction false} OtherStepsKeepPaymentsOk(s: State, action: Action)
    requires !IsClaim(s, action) && forall o | o in s.store.payments :: PaymentOk(s.store.payments[o])
    ensures forall o | o in Next(s, action).store.payments :: PaymentOk(Next(s, action).store.payments[o])
  {
  }

  lemma {:induction false} StepKeepsStoreInv(s: State, action: Action)
    requires StoreInv(s.store) && TasksOk(s)
    ensures StoreInv(Next(s, action).store)
  {
    if IsClaim(s, action) {
      var task := s.tasks[action.id];
      assert TaskOk(s.store, task);
      ClaimKeepsStoreInv(s.store, task.order, task.snapshot, task.payment, task.source);
    } else {
      StepEvolves(s, action);
      OtherStepsCreditNothing(s, action);
      OtherStepsKeepPaymentsOk(s, action);
      OtherWriteKeepsStoreInv(s.store, Next(s, action).store);
    }
  }

  lemma {:induction false} StoreInvAlways(bank: Bank, actions: seq<Action>)
    ensures StoreInv(Run(bank, actions).store)
  {
    if actions != [] {
      var init := actions[..|actions| - 1];
      StoreInvAlways(bank, init);
      TasksAlwaysOk(bank, init);
      StepKeepsStoreInv(Run(bank, init), actions[|actions| - 1]);
    }
  }

  /** Whatever the gateway says: no payment is credited twice, and a credit is one ledger row that its payment points at. */
  lemma {:induction false} CreditedAtMostOnce(bank: Bank, actions: seq<Action>, i: nat, j: nat)
    requires i < j < |Run(bank, actions).store.credits|
    ensures var st := Run(bank, actions).store;
      && st.credits[i].order != st.credits[j].order
      && st.credits[i].row != st.credits[j].row
      && CreditStands(st, st.credits[i]) && CreditStands(st, st.credits[j])
  {
    StoreInvAlways(bank, actions);
  }

  // ----- credited exactly when the transactionId is set -----

  /** The gateway answers consistently: a payment id belongs to one order. */
  ghost predicate Consistent(actions: seq<Action>, orderOf: string -> OrderId) {
    forall i | 0 <= i < |actions| :: ConsistentAction(actions[i], orderOf)
  }

  ghost predicate ConsistentAction(action: Action, orderOf: string -> OrderId) {
    action.Fetched? && action.fetched.Some? ==> orderOf(action.fetched.value.id) == action.fetched.value.orderId
  }

  ghost predicate NoTopupRows(bank: Bank) {
    forall r | 0 <= r < |bank.ledger| :: !IsTopupReference(bank.ledger[r].reference)
  }

  ghost predicate IsCreditRow(st: Store, r: nat) {
    exists i :: 0 <= i < |st.credits| && st.credits[i].row == r
  }

  ghost predicate IsCredited(st: Store, order: OrderId) {
    exists i :: 0 <= i < |st.credits| && st.credits[i].order == order
  }

  ghost predicate GatewayInv(st: Store, orderOf: string -> OrderId) {
    && (forall r | 0 <= r < |st.bank.ledger| && IsTopupReference(st.bank.ledger[r].reference) :: IsCreditRow(st, r))
    && (forall i | 0 <= i < |st.credits| :: orderOf(st.credits[i].payment.id) == st.credits[i].order)
    && (forall o | o in st.payments && st.payments[o].transactionId.Some? :: IsCredited(st, o))
  }

  ghost predicate TasksConsistent(s: State, orderOf: string -> OrderId) {
    forall id | id in s.tasks && s.tasks[id].Claiming? :: orderOf(s.tasks[id].payment.id) == s.tasks[id].order
  }

  lemma TopupReferences(x: string, y: string)
    ensures IsTopupReference(Some(TopupReference(x)))
    ensures TopupReference(x) == TopupReference(y) ==> x == y
    ensures RefundReference(x) == RefundReference(y) ==> x == y
    ensures !IsTopupReference(Some(RefundReference(x)))
  {
    assert TopupReference(x)[|TOPUP_PREFIX|..] == x && TopupReference(y)[|TOPUP_PREFIX|..] == y;
    assert RefundReference(x)[7..] == x && RefundReference(y)[7..] == y;
    assert RefundReference(x)[1] == 'E' && TOPUP_PREFIX[1] == 'A';
  }

  /** An uncredited payment's gateway id is not in the ledger yet. */
  lemma NoEarlierRow(st: Store, order: OrderId, paymentId: string, orderOf: string -> OrderId)
    requires StoreInv(st) && GatewayInv(st, orderOf) && orderOf(paymentId) == order
    requires order in st.payments && st.payments[order].transactionId.None?
    ensures FindReference(st.bank.ledger, Some(TopupReference(paymentId))).None?
  {
    var found := FindReference(st.bank.ledger, Some(TopupReference(paymentId)));
    TopupReferences(paymentId, paymentId);
    if found.Some? {
      assert IsCreditRow(st, found.value);
      var i :| 0 <= i < |st.credits| && st.credits[i].row == found.value;
      assert CreditStands(st, st.credits[i]);
      TopupReferences(paymentId, st.credits[i].payment.id);
      assert false;
    }
  }

  lemma {:induction false} CreditsStay(st: Store, t: Store)
    requires st.credits <= t.credits
    ensures forall r: nat | IsCreditRow(st, r) :: IsCreditRow(t, r)
    ensures forall o | IsCredited(st, o) :: IsCredited(t, o)
  {
    assert forall i | 0 <= i < |st.credits| :: t.credits[i] == st.credits[i];
    forall r: nat | IsCreditRow(st, r) ensures IsCreditRow(t, r) {
      var i :| 0 <= i < |st.credits| && st.credits[i].row == r;
      assert t.credits[i].row == r;
    }
    forall o | IsCredited(st, o) ensures IsCredited(t, o) {
      var i :| 0 <= i < |st.credits| && st.credits[i].order == o;
      assert t.credits[i].order == o;
    }
  }

  lemma {:induction false} ClaimKeepsGatewayInv(st: Store, order: OrderId, snapshot: Payment, p: GatewayPayment, source: Source, orderOf: string -> OrderId)
    requires StoreInv(st) && GatewayInv(st, orderOf) && orderOf(p.id) == order
    ensures GatewayInv(Claim(st, order, snapshot, p, source).0, orderOf)
  {
    var (t, outcome) := Claim(st, order, snapshot, p, source);
    ClaimCases(st, order, snapshot, p, source);
    if t != st {
      NoEarlierRow(st, order, p.id, orderOf);
      var n := |st.credits|;
      assert t.credits[n].row == outcome.row && t.credits[n].order == order;
      CreditsStay(st, t);
      forall r | 0 <= r < |t.bank.ledger| && IsTopupReference(t.bank.ledger[r].reference) ensures IsCreditRow(t, r) {
        if r < |st.bank.ledger| {
          assert IsCreditRow(st, r);
        }
      }
    }
  }

  /** The other writes add no top-up row, no credit and no transactionId. */
  lemma {:induction false} OtherWriteKeepsGatewayInv(st: Store, t: Store, orderOf: string -> OrderId)
    requires GatewayInv(st, orderOf) && Evolves(st, t) && t.credits == st.credits
    requires forall r | |st.bank.ledger| <= r < |t.bank.ledger| :: !IsTopupReference(t.bank.ledger[r].reference)
    requires forall o | o in t.payments && t.payments[o].transactionId.Some? :: o in st.payments && st.payments[o].transactionId.Some?
    ensures GatewayInv(t, orderOf)
  {
    CreditsStay(st, t);
    forall r | 0 <= r < |t.bank.ledger| && IsTopupReference(t.bank.ledger[r].reference) ensures IsCreditRow(t, r) {
      assert r < |st.bank.ledger| && t.bank.ledger[r] == st.bank.ledger[r];
      assert IsCreditRow(st, r);
    }
  }

  lemma {:induction false} OtherStepsAddNoTopupRow(s: State, action: Action)
    requires !IsClaim(s, action)
    ensures var b, c := s.store.bank, Next(s, action).store.bank;
      forall r | |b.ledger| <= r < |c.ledger| :: !IsTopupReference(c.ledger[r].reference)
  {
    if action.Write? && action.id in s.tasks && s.tasks[action.id].Debiting? {
      TopupReferences(s.tasks[action.id].refundId, "");
    }
  }

  lemma {:induction false} StepKeepsGatewayInv(s: State, action: Action, orderOf: string -> OrderId)
    requires StoreInv(s.store) && GatewayInv(s.store, orderOf) && TasksConsistent(s, orderOf)
    ensures GatewayInv(Next(s, action).store, orderOf)
  {
    if IsClaim(s, action) {
      var task := s.tasks[action.id];
      ClaimKeepsGatewayInv(s.store, task.order, task.snapshot, task.payment, task.source, orderOf);
    } else {
      StepEvolves(s, action);
      OtherStepsCreditNothing(s, action);
      OtherStepsAddNoTopupRow(s, action);
      OtherWriteKeepsGatewayInv(s.store, Next(s, action).store, orderOf);
    }
  }

  lemma {:induction false} StepKeepsTasksConsistent(s: State, action: Action, orderOf: string -> OrderId)
    requires TasksConsistent(s, orderOf) && ConsistentAction(action, orderOf)
    ensures TasksConsistent(Next(s, action), orderOf)
  {
    var t := Next(s, action);
    forall id | id in t.tasks && t.tasks[id].Claiming? ensures orderOf(t.tasks[id].payment.id) == t.tasks[id].order {
      assert id in s.tasks;
    }
  }

  lemma {:induction false} GatewayInvAlways(bank: Bank, actions: seq<Action>, orderOf: string -> OrderId)
    requires NoTopupRows(bank) && Consistent(actions, orderOf)
    ensures GatewayInv(Run(bank, actions).store, orderOf) && TasksConsistent(Run(bank, actions), orderOf)
  {
    if actions != [] {
      var init, last := actions[..|actions| - 1], actions[|actions| - 1];
      GatewayInvAlways(bank, init, orderOf);
      StoreInvAlways(bank, init);
      assert ConsistentAction(last, orderOf);
      StepKeepsGatewayInv(Run(bank, init), last, orderOf);
      StepKeepsTasksConsistent(Run(bank, init), last, orderOf);
    }
  }

  /** A payment has been credited exactly when its transactionId is set. */
  lemma {:induction false} CreditedIffTransactionIdSet(bank: Bank, actions: seq<Action>, orderOf: string -> OrderId, order: OrderId)
    requires NoTopupRows(bank) && Consistent(actions, orderOf)
    ensures var st := Run(bank, actions).store;
      IsCredited(st, order) <==> order in st.payments && st.payments[order].transactionId.Some?
  {
    var st := Run(bank, actions).store;
    GatewayInvAlways(bank, actions, orderOf);
    StoreInvAlways(bank, actions);
    if i :| 0 <= i < |st.credits| && st.credits[i].order == order {
      assert CreditStands(st, st.credits[i]);
    }
  }

  /** A successful payment has topped up its owner's wallet, within 1e-6 rupees of what the gateway captured. */
  lemma {:induction false} SuccessMeansCredited(bank: Bank, actions: seq<Action>, orderOf: string -> OrderId, order: OrderId) returns (credit: Credit)
    requires NoTopupRows(bank) && Consistent(actions, orderOf)
    requires order in Run(bank, actions).store.payments && Run(bank, actions).store.payments[order].status == SUCCESS
    ensures var st := Run(bank, actions).store;
      && credit in st.credits && credit.order == order && CreditStands(st, credit)
      && Within(st.bank.ledger[credit.row].amount, Paise(credit.payment.amount), 0.000001)
  {
    var st := Run(bank, actions).store;
    GatewayInvAlways(bank, actions, orderOf);
    StoreInvAlways(bank, actions);
    assert PaymentOk(st.payments[order]);
    assert IsCredited(st, order);
    var i :| 0 <= i < |st.credits| && st.credits[i].order == order;
    assert CreditStands(st, st.credits[i]);
    credit := st.credits[i];
  }

  // ----- refunds follow credits -----

  predicate IsRefund(task: Task) {
    task.Refunding? || task.SavingRefund? || task.Debiting?
  }

  ghost predicate RefundsFollowCredits(s: State) {
    forall id | id in s.tasks && IsRefund(s.tasks[id]) ::
      s.tasks[id].order in s.store.payments && s.store.payments[s.tasks[id].order].transactionId.Some?
  }

  /** A refund under way was under way before, or has just been let through, for a SUCCESS payment. */
  lemma {:induction false} RefundsComeFrom(s: State, action: Action, id: TaskId)
    requires id in Next(s, action).tasks && IsRefund(Next(s, action).tasks[id])
    ensures var order := Next(s, action).tasks[id].order;
      || (id in s.tasks && IsRefund(s.tasks[id]) && s.tasks[id].order == order)
      || (order in s.store.payments && s.store.payments[order].status == SUCCESS)
  {
  }

  lemma {:induction false} StepKeepsRefunds(s: State, action: Action)
    requires StoreInv(s.store) && RefundsFollowCredits(s)
    ensures RefundsFollowCredits(Next(s, action))
  {
    var t := Next(s, action);
    StepEvolves(s, action);
    forall id | id in t.tasks && IsRefund(t.tasks[id])
      ensures t.tasks[id].order in t.store.payments && t.store.payments[t.tasks[id].order].transactionId.Some?
    {
      RefundsComeFrom(s, action, id);
      CreditIsKept(s.store, t.store, t.tasks[id].order);
    }
  }

  lemma {:induction false} CreditIsKept(s: Store, t: Store, order: OrderId)
    requires StoreInv(s) && Evolves(s, t) && order in s.payments
    requires s.payments[order].status == SUCCESS || s.payments[order].transactionId.Some?
    ensures order in t.payments && t.payments[order].transactionId.Some?
  {
    assert PaymentOk(s.payments[order]) && Later(s.payments[order], t.payments[order]);
  }

  lemma {:induction false} RefundsAlwaysFollowCredits(bank: Bank, actions: seq<Action>)
    ensures RefundsFollowCredits(Run(bank, actions))
  {
    if actions != [] {
      var init := actions[..|actions| - 1];
      RefundsAlwaysFollowCredits(bank, init);
      StoreInvAlways(bank, init);
      StepKeepsRefunds(Run(bank, init), actions[|actions| - 1]);
    }
  }

  /** No refund is ever under way for a payment that was not credited. */
  lemma {:induction false} OnlyCreditsAreRefunded(bank: Bank, actions: seq<Action>, orderOf: string -> OrderId, id: TaskId)
    requires NoTopupRows(bank) && Consistent(actions, orderOf)
    requires id in Run(bank, actions).tasks && IsRefund(Run(bank, actions).tasks[id])
    ensures IsCredited(Run(bank, actions).store, Run(bank, actions).tasks[id].order)
  {
    RefundsAlwaysFollowCredits(bank, actions);
    CreditedIffTransactionIdSet(bank, actions, orderOf, Run(bank, actions).tasks[id].order);
  }
}
