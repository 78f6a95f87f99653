/** What becomes of single verifications, webhooks and saves, in whatever state the rest of the system has left things. */
module PaymentRuns {
  import opened Prelude
  import opened Wallets
  import opened Payments
  import opened PaymentSafety

  // ----- money -----

  /** The wallet transaction that a step asks for, if any */
  function TransactionOf(s: State, action: Action): Option<Tx> {
    match action
    case Elsewhere(tx) => if IsTopupReference(tx.reference) then None else Some(tx)
    case Write(id) =>
      if id !in s.tasks then None
      else (
        match s.tasks[id]
        case Claiming(order, snapshot, source, p) =>
          if !Claims(s.store, order, snapshot, p, source) then None
          else
            var payment := s.store.payments[order];
            Some(Tx(payment.user, TOPUP, payment.amountRupees, Some(TopupReference(p.id))))
        case Debiting(order, snapshot, rupees, refundId) => Some(Tx(snapshot.user, DEBIT, rupees, Some(RefundReference(refundId))))
        case _ => None
      )
    case _ => None
  }

  lemma StepIsTransaction(s: State, action: Action)
    ensures var tx := TransactionOf(s, action);
      Next(s, action).store.bank == if tx.Some? then Wallets.Step(s.store.bank, tx.value) else s.store.bank
  {
  }

  /** In every run the wallets and the ledger change by wallet transactions only. */
  lemma {:induction false} RunsAreTransactions(bank: Bank, actions: seq<Action>) returns (txs: seq<Tx>)
    ensures Run(bank, actions).store.bank == Wallets.After(bank, txs)
  {
    if actions == [] {
      txs := [];
    } else {
      var init, last := actions[..|actions| - 1], actions[|actions| - 1];
      txs := RunsAreTransactions(bank, init);
      StepIsTransaction(Run(bank, init), last);
      if TransactionOf(Run(bank, init), last).Some? {
        var tx := TransactionOf(Run(bank, init), last).value;
        assert (txs + [tx])[..|txs|] == txs;
        txs := txs + [tx];
      }
    }
  }

  /** However the protocol is interleaved, no balance goes negative and every gain is accounted for in the ledger. */
  lemma {:induction false} MoneyIsAccountedFor(bank: Bank, actions: seq<Action>, user: UserId)
    requires NonNegative(bank)
    ensures var now := Run(bank, actions).store.bank;
      && NonNegative(now)
      && Balance(now, user) - Balance(bank, user) == Net(now.ledger, user) - Net(bank.ledger, user)
  {
    var txs := RunsAreTransactions(bank, actions);
    NeverNegative(bank, txs);
    BalancesMatchLedger(bank, txs, user);
  }

  ghost function BankHeldAfter(bank: Bank, user: UserId): seq<Action> -> bool {
    before => ReserveHeld(Run(bank, before).store.bank, user)
  }

  /** The step is no recharge that loses the reserve, going by the guards of its transaction. */
  function StepSparesReserve(bank: Bank, user: UserId): (seq<Action>, Action) -> bool {
    (before, action) => !LosesReserveIn(Run(bank, before), action, user)
  }

  predicate LosesReserveIn(s: State, action: Action, user: UserId) {
    TransactionOf(s, action).Some? && LosesReserve(s.store.bank, TransactionOf(s, action).value, user)
  }

  lemma {:induction false} StepReserveIff(s: State, action: Action, user: UserId)
    requires ReserveHeld(s.store.bank, user)
    ensures ReserveHeld(Next(s, action).store.bank, user) <==> !LosesReserveIn(s, action, user)
  {
    StepIsTransaction(s, action);
    if TransactionOf(s, action).Some? { ReserveLostIff(s.store.bank, TransactionOf(s, action).value, user); }
  }

  /** In every interleaving the reserve is held throughout exactly when no credit is a second recharge that stays below it. */
  lemma {:induction false} PaymentsKeepReserveIff(bank: Bank, actions: seq<Action>, user: UserId)
    requires ReserveHeld(bank, user)
    ensures Throughout(actions, BankHeldAfter(bank, user)) <==> AtEachTurn(actions, StepSparesReserve(bank, user))
  {
    forall before, action | BankHeldAfter(bank, user)(before)
      ensures BankHeldAfter(bank, user)(before + [action]) <==> StepSparesReserve(bank, user)(before, action)
    {
      RunSnoc(bank, before, action);
      StepReserveIff(Run(bank, before), action, user);
    }
    ThroughoutIff(actions, BankHeldAfter(bank, user), StepSparesReserve(bank, user));
  }

  // ----- who can be credited -----

  /** Recovery of a failed payment at checkout goes through the motions but never credits: its claim finds nothing to claim. */
  lemma {:induction false} CheckoutRecoveryNeverCredits(bank: Bank, actions: seq<Action>, id: TaskId)
    requires var s := Run(bank, actions);
      id in s.tasks && s.tasks[id].Claiming? && s.tasks[id].source.Checkout? && s.tasks[id].snapshot.status == FAILED
    ensures var s, t := Run(bank, actions), Run(bank, actions + [Write(id)]);
      && t.store == s.store
      && s.tasks[id].order in s.store.payments
      && t.tasks[id] == Done(match s.store.payments[s.tasks[id].order].status
                             case SUCCESS => AlreadyProcessed
                             case FAILED => Rejected(AlreadyFailed)
                             case _ => Rejected(BeingProcessed))
  {
    RunSnoc(bank, actions, Write(id));
    TasksAlwaysOk(bank, actions);
    assert TaskOk(Run(bank, actions).store, Run(bank, actions).tasks[id]);
  }

  /** A verification of a failed payment whose signature is good and which the gateway twice reports as captured */
  function RecoveryActions(id: TaskId, order: OrderId, user: UserId, p: GatewayPayment): seq<Action> {
    [VerifyCall(id, order, user, true)] + [Fetched(id, Some(p))] + [Fetched(id, Some(p))]
  }

  /** It comes to that claim from any state with a failed payment, and the captured money stays uncredited. */
  lemma {:induction false} CheckoutRecoveryIsReached(bank: Bank, actions: seq<Action>, id: TaskId, order: OrderId, p: GatewayPayment)
    requires id !in Run(bank, actions).tasks && order in Run(bank, actions).store.payments
    requires Run(bank, actions).store.payments[order].status == FAILED
    requires ValidateCapturedPayment(order, Run(bank, actions).store.payments[order], Some(p)).Ok?
    ensures var s := Run(bank, actions);
      var payment := s.store.payments[order];
      var asked := actions + RecoveryActions(id, order, payment.user, p);
      var t, u := Run(bank, asked), Run(bank, asked + [Write(id)]);
      && id in t.tasks && t.tasks[id] == Claiming(order, payment, Checkout, p)
      && id in u.tasks && u.tasks[id] == Done(Rejected(AlreadyFailed))
      && u.store == s.store
  {
    var s := Run(bank, actions);
    var payment := s.store.payments[order];
    var one := actions + [VerifyCall(id, order, payment.user, true)];
    RunSnoc(bank, actions, VerifyCall(id, order, payment.user, true));
    assert Run(bank, one).tasks[id] == Rechecking(order, payment, true);
    RunSnoc(bank, one, Fetched(id, Some(p)));
    var two := one + [Fetched(id, Some(p))];
    assert Run(bank, two).tasks[id] == Fetching(order, payment, Checkout);
    RunSnoc(bank, two, Fetched(id, Some(p)));
    var asked := actions + RecoveryActions(id, order, payment.user, p);
    assert asked == two + [Fetched(id, Some(p))];
    assert Run(bank, asked).tasks[id] == Claiming(order, payment, Checkout, p) && Run(bank, asked).store == s.store;
    CheckoutRecoveryNeverCredits(bank, asked, id);
  }

  predicate CanBeCredited(st: Store, order: OrderId, paymentId: string) {
    && order in st.payments
    && st.payments[order].status in {PENDING, FAILED}
    && st.payments[order].transactionId.None?
    && !IsTaken(st.payments, order, paymentId)
    && st.payments[order].user in st.bank.wallets
    && st.bank.wallets[st.payments[order].user].isActive
  }

  /** The captured webhook of a payment the gateway really captured, handled without interruption */
  function WebhookActions(id: TaskId, order: OrderId, p: GatewayPayment): seq<Action> {
    [CapturedEvent(id, order)] + [Fetched(id, Some(p))] + [Write(id)]
  }

  /** What the webhook leaves behind */
  function AfterWebhook(s: State, id: TaskId, order: OrderId, p: GatewayPayment): State
    requires order in s.store.payments
  {
    var payment := s.store.payments[order];
    var (store, outcome) := if payment.status == SUCCESS then (s.store, AlreadyProcessed) else Claim(s.store, order, payment, p, Webhook);
    State(store, s.tasks[id := Done(outcome)])
  }

  lemma {:induction false} WebhookSteps(s: State, id: TaskId, order: OrderId, p: GatewayPayment)
    requires id !in s.tasks && order in s.store.payments
    requires ValidateCapturedPayment(order, s.store.payments[order], Some(p)).Ok?
    ensures Next(Next(Next(s, CapturedEvent(id, order)), Fetched(id, Some(p))), Write(id)) == AfterWebhook(s, id, order, p)
  {
    var payment := s.store.payments[order];
    var one := Next(s, CapturedEvent(id, order));
    var two := Next(one, Fetched(id, Some(p)));
    if payment.status == SUCCESS {
      assert two.tasks == s.tasks[id := Done(AlreadyProcessed)];
      assert Next(two, Write(id)).tasks == two.tasks;
    } else {
      assert two.tasks == s.tasks[id := Claiming(order, payment, Webhook, p)];
      var (store, outcome) := Claim(s.store, order, payment, p, Webhook);
      assert Next(two, Write(id)).tasks == s.tasks[id := Done(outcome)];
    }
  }

  lemma {:induction false} WebhookUninterrupted(bank: Bank, actions: seq<Action>, id: TaskId, order: OrderId, p: GatewayPayment)
    requires id !in Run(bank, actions).tasks && order in Run(bank, actions).store.payments
    requires ValidateCapturedPayment(order, Run(bank, actions).store.payments[order], Some(p)).Ok?
    ensures Run(bank, actions + WebhookActions(id, order, p)) == AfterWebhook(Run(bank, actions), id, order, p)
  {
    var one := actions + [CapturedEvent(id, order)];
    RunSnoc(bank, actions, CapturedEvent(id, order));
    RunSnoc(bank, one, Fetched(id, Some(p)));
    RunSnoc(bank, one + [Fetched(id, Some(p))], Write(id));
    assert actions + WebhookActions(id, order, p) == one + [Fetched(id, Some(p))] + [Write(id)];
    WebhookSteps(Run(bank, actions), id, order, p);
  }

  /** Whatever else the gateway says, the webhook writes nothing; a payment known as FAILED that it does not call captured is ignored. */
  lemma {:induction false} WebhookWithoutMatch(bank: Bank, actions: seq<Action>, id: TaskId, order: OrderId, fetched: Option<GatewayPayment>)
    requires id !in Run(bank, actions).tasks && order in Run(bank, actions).store.payments
    requires !Matches(order, Run(bank, actions).store.payments[order], fetched)
    ensures var s := Run(bank, actions);
      var t := Run(bank, actions + [CapturedEvent(id, order)] + [Fetched(id, fetched)] + [Write(id)]);
      var status := s.store.payments[order].status;
      && t.store == s.store && id in t.tasks && t.tasks[id].Done?
      && (status == SUCCESS <==> t.tasks[id].outcome == AlreadyProcessed)
      && (status != SUCCESS && (fetched.None? || (status == FAILED && (fetched.value.status != "captured" || !fetched.value.captured)))
          <==> t.tasks[id].outcome == Ignored)
  {
    var event := CapturedEvent(id, order);
    RunSnoc(bank, actions, event);
    RunSnoc(bank, actions + [event], Fetched(id, fetched));
    RunSnoc(bank, actions + [event] + [Fetched(id, fetched)], Write(id));
    ValidIffMatches(order, Run(bank, actions).store.payments[order], fetched);
  }

  /** The second store is the first with the full amount of the order credited, once, for this gateway payment. */
  ghost predicate CreditedInFull(st: Store, t: Store, order: OrderId, p: GatewayPayment) {
    && order in st.payments && order in t.payments && t.payments[order].status == SUCCESS
    && t.credits == st.credits + [Credit(order, |st.bank.ledger|, p)]
    && var user := st.payments[order].user;
       && Balance(t.bank, user) == Balance(st.bank, user) + st.payments[order].amountRupees
       && CompletedRecharges(t.bank.ledger, user) == CompletedRecharges(st.bank.ledger, user) + 1
  }

  /** A claim from the copy that is stored credits exactly what can be credited; at checkout, a pending payment. */
  lemma {:induction false} ClaimCreditsIff(st: Store, order: OrderId, p: GatewayPayment, source: Source, orderOf: string -> OrderId)
    requires StoreInv(st) && GatewayInv(st, orderOf) && orderOf(p.id) == order && order in st.payments
    requires source.Webhook? || st.payments[order].status == PENDING
    ensures var t := Claim(st, order, st.payments[order], p, source).0;
      && (CanBeCredited(st, order, p.id) <==> t != st)
      && (CanBeCredited(st, order, p.id) ==> CreditedInFull(st, t, order, p))
  {
    assert PaymentOk(st.payments[order]);
    ClaimCases(st, order, st.payments[order], p, source);
    if st.payments[order].transactionId.None? {
      NoEarlierRow(st, order, p.id, orderOf);
    }
    if CanBeCredited(st, order, p.id) {
      var claimed := Claim(st, order, st.payments[order], p, source).0;
      SnocRow(st.bank.ledger, claimed.bank.ledger[|st.bank.ledger|], st.payments[order].user);
    }
  }

  /** It credits exactly the uncredited payments that are pending or failed, if the wallet is open and the gateway's id is free. */
  lemma {:induction false} WebhookCreditsIff(bank: Bank, actions: seq<Action>, id: TaskId, order: OrderId, p: GatewayPayment, orderOf: string -> OrderId)
    requires NoTopupRows(bank) && Consistent(actions, orderOf) && orderOf(p.id) == order
    requires id !in Run(bank, actions).tasks && order in Run(bank, actions).store.payments
    requires ValidateCapturedPayment(order, Run(bank, actions).store.payments[order], Some(p)).Ok?
    ensures var st, t := Run(bank, actions).store, Run(bank, actions + WebhookActions(id, order, p)).store;
      && (CanBeCredited(st, order, p.id) <==> t != st)
      && (CanBeCredited(st, order, p.id) ==> CreditedInFull(st, t, order, p))
  {
    WebhookUninterrupted(bank, actions, id, order, p);
    StoreInvAlways(bank, actions);
    GatewayInvAlways(bank, actions, orderOf);
    ClaimCreditsIff(Run(bank, actions).store, order, p, Webhook, orderOf);
  }

  // ----- verification at checkout -----

  /** A checkout verification of a payment that has not failed, with the gateway's answer, handled without interruption */
  function CheckoutActions(id: TaskId, order: OrderId, caller: UserId, signed: bool, fetched: Option<GatewayPayment>): seq<Action> {
    [VerifyCall(id, order, caller, signed)] + [Fetched(id, fetched)] + [Write(id)]
  }

  /** The gateway has captured what the payment asks for. */
  predicate Matches(order: OrderId, payment: Payment, fetched: Option<GatewayPayment>) {
    && fetched.Some?
    && var p := fetched.value;
       && p.orderId == order && p.amount == payment.amountPaise && p.currency == payment.currency
       && p.status == "captured" && p.captured
  }

  /** A claim, when the signature is good and the gateway's payment matches; a bad signature or a failed payment is saved; else nothing. */
  function AfterCheckout(st: Store, order: OrderId, signed: bool, fetched: Option<GatewayPayment>): Store
    requires order in st.payments
  {
    var payment := st.payments[order];
    if !signed then st.(payments := st.payments[order := payment.(status := FAILED)])
    else if Matches(order, payment, fetched) then Claim(st, order, payment, fetched.value, Checkout).0
    else if fetched.None? || fetched.value.status != "failed" then st
    else
      var paymentId := if fetched.value.id == "" then payment.razorpayPaymentId else Some(fetched.value.id);
      if paymentId != payment.razorpayPaymentId && IsTaken(st.payments, order, paymentId.value) then st
      else st.(payments := st.payments[order := payment.(status := FAILED, razorpayPaymentId := paymentId)])
  }

  lemma {:induction false} ValidIffMatches(order: OrderId, payment: Payment, fetched: Option<GatewayPayment>)
    ensures ValidateCapturedPayment(order, payment, fetched).Ok? <==> Matches(order, payment, fetched)
    ensures Matches(order, payment, fetched) ==> ValidateCapturedPayment(order, payment, fetched) == Ok(fetched.value)
  {
  }

  lemma {:induction false} CheckoutSteps(s: State, id: TaskId, order: OrderId, signed: bool, fetched: Option<GatewayPayment>)
    requires id !in s.tasks && order in s.store.payments && s.store.payments[order].status == PENDING
    ensures var caller := s.store.payments[order].user;
      var t := Next(Next(Next(s, VerifyCall(id, order, caller, signed)), Fetched(id, fetched)), Write(id));
      t.store == AfterCheckout(s.store, order, signed, fetched) && IsCheckoutAnswer(s.store, t, id, order, signed, fetched)
  {
    var payment := s.store.payments[order];
    var two := Next(Next(s, VerifyCall(id, order, payment.user, signed)), Fetched(id, fetched));
    ValidIffMatches(order, payment, fetched);
    assert two.store == s.store;
    if !signed {
      assert two.tasks[id] == SavingFailure(order, payment, None, InvalidSignature);
    } else if Matches(order, payment, fetched) {
      assert two.tasks[id] == Claiming(order, payment, Checkout, fetched.value);
    } else if fetched.Some? && fetched.value.status == "failed" {
      assert two.tasks[id].SavingFailure? && two.tasks[id].failed == fetched && two.tasks[id].snapshot == payment;
    }
  }

  /** And the caller is told what became of the claim, or an error. */
  predicate IsCheckoutAnswer(st: Store, t: State, id: TaskId, order: OrderId, signed: bool, fetched: Option<GatewayPayment>)
    requires order in st.payments
  {
    && id in t.tasks && t.tasks[id].Done?
    && var outcome := t.tasks[id].outcome;
       if !signed then outcome == Rejected(InvalidSignature)
       else if Matches(order, st.payments[order], fetched)
       then outcome == Claim(st, order, st.payments[order], fetched.value, Checkout).1
       else outcome.Rejected?
  }

  /** A verification by the owner of a pending payment, in any state, comes to exactly that. */
  lemma {:induction false} CheckoutUninterrupted(bank: Bank, actions: seq<Action>, id: TaskId, order: OrderId, signed: bool, fetched: Option<GatewayPayment>)
    requires id !in Run(bank, actions).tasks && order in Run(bank, actions).store.payments
    requires Run(bank, actions).store.payments[order].status == PENDING
    ensures var st := Run(bank, actions).store;
      var t := Run(bank, actions + CheckoutActions(id, order, st.payments[order].user, signed, fetched));
      t.store == AfterCheckout(st, order, signed, fetched) && IsCheckoutAnswer(st, t, id, order, signed, fetched)
  {
    var caller := Run(bank, actions).store.payments[order].user;
    var one := actions + [VerifyCall(id, order, caller, signed)];
    RunSnoc(bank, actions, VerifyCall(id, order, caller, signed));
    RunSnoc(bank, one, Fetched(id, fetched));
    RunSnoc(bank, one + [Fetched(id, fetched)], Write(id));
    assert actions + CheckoutActions(id, order, caller, signed, fetched) == one + [Fetched(id, fetched)] + [Write(id)];
    CheckoutSteps(Run(bank, actions), id, order, signed, fetched);
  }

  /** With a good signature and a matching payment it credits the full amount exactly when the wallet is open and the gateway's id is free. */
  lemma {:induction false} CheckoutCreditsIff(bank: Bank, actions: seq<Action>, id: TaskId, order: OrderId, p: GatewayPayment, orderOf: string -> OrderId)
    requires NoTopupRows(bank) && Consistent(actions, orderOf) && orderOf(p.id) == order
    requires id !in Run(bank, actions).tasks && order in Run(bank, actions).store.payments
    requires Run(bank, actions).store.payments[order].status == PENDING
    requires Matches(order, Run(bank, actions).store.payments[order], Some(p))
    ensures var st := Run(bank, actions).store;
      var t := Run(bank, actions + CheckoutActions(id, order, st.payments[order].user, true, Some(p))).store;
      && (CanBeCredited(st, order, p.id) <==> t != st)
      && (CanBeCredited(st, order, p.id) ==> CreditedInFull(st, t, order, p))
  {
    CheckoutUninterrupted(bank, actions, id, order, true, Some(p));
    StoreInvAlways(bank, actions);
    GatewayInvAlways(bank, actions, orderOf);
    ClaimCreditsIff(Run(bank, actions).store, order, p, Checkout, orderOf);
  }

  // ----- who may ask -----

  /** A verification at checkout that is not over */
  predicate IsCheckout(task: Task) {
    || task.Rechecking? || task.SavingFailure?
    || (task.Fetching? && task.source.Checkout?) || (task.Claiming? && task.source.Checkout?)
  }

  /** The request behind a verification or a refund, made by someone who may make it */
  predicate MayAsk(action: Action, id: TaskId, task: Task) {
    || (&& IsCheckout(task) && action.VerifyCall? && action.id == id && action.order == task.order
        && action.caller == task.snapshot.user)
    || (&& IsRefund(task) && action.RefundCall? && action.id == id && action.order == task.order
        && (action.isAdmin || action.caller == task.snapshot.user))
  }

  ghost predicate WasAsked(actions: seq<Action>, id: TaskId, task: Task) {
    exists i :: 0 <= i < |actions| && MayAsk(actions[i], id, task)
  }

  ghost predicate AllAsked(actions: seq<Action>, s: State) {
    forall id | id in s.tasks && (IsCheckout(s.tasks[id]) || IsRefund(s.tasks[id])) :: WasAsked(actions, id, s.tasks[id])
  }

  /** A task under way was one of the same kind, for the same copy, or has just been asked for. */
  lemma {:induction false} TasksComeFrom(s: State, action: Action, id: TaskId)
    requires id in Next(s, action).tasks
    requires IsCheckout(Next(s, action).tasks[id]) || IsRefund(Next(s, action).tasks[id])
    ensures var task := Next(s, action).tasks[id];
      || MayAsk(action, id, task)
      || (&& id in s.tasks && !s.tasks[id].Done? && s.tasks[id].order == task.order && s.tasks[id].snapshot == task.snapshot
          && (IsCheckout(task) ==> IsCheckout(s.tasks[id])) && (IsRefund(task) ==> IsRefund(s.tasks[id])))
  {
  }

  lemma {:induction false} AskedStays(actions: seq<Action>, action: Action, id: TaskId, task: Task, next: Task)
    requires WasAsked(actions, id, task) && !task.Done? && !next.Done? && next.order == task.order && next.snapshot == task.snapshot
    requires (IsCheckout(task) ==> !IsRefund(next)) && (IsRefund(task) ==> !IsCheckout(next))
    requires IsCheckout(next) || IsRefund(next)
    ensures WasAsked(actions + [action], id, next)
  {
    var i :| 0 <= i < |actions| && MayAsk(actions[i], id, task);
    assert (actions + [action])[i] == actions[i];
  }

  lemma {:induction false} AlwaysAsked(bank: Bank, actions: seq<Action>)
    ensures AllAsked(actions, Run(bank, actions))
  {
    if actions != [] {
      var init, last := actions[..|actions| - 1], actions[|actions| - 1];
      var s, t := Run(bank, init), Run(bank, actions);
      AlwaysAsked(bank, init);
      assert init + [last] == actions;
      forall id | id in t.tasks && (IsCheckout(t.tasks[id]) || IsRefund(t.tasks[id])) ensures WasAsked(actions, id, t.tasks[id]) {
        TasksComeFrom(s, last, id);
        if MayAsk(last, id, t.tasks[id]) {
          assert actions[|init|] == last;
        } else {
          AskedStays(init, last, id, s.tasks[id], t.tasks[id]);
        }
      }
    }
  }

  /** In every run: a verification under way was asked for by the payment's owner, a refund by its owner or an administrator. */
  lemma {:induction false} AskedByOwner(bank: Bank, actions: seq<Action>, id: TaskId) returns (i: nat)
    requires var s := Run(bank, actions); id in s.tasks && (IsCheckout(s.tasks[id]) || IsRefund(s.tasks[id]))
    ensures var s := Run(bank, actions);
      var order := s.tasks[id].order;
      && i < |actions| && order in s.store.payments
      && (IsCheckout(s.tasks[id]) ==> && actions[i].VerifyCall? && actions[i].id == id && actions[i].order == order
                                      && actions[i].caller == s.store.payments[order].user)
      && (IsRefund(s.tasks[id]) ==> && actions[i].RefundCall? && actions[i].id == id && actions[i].order == order
                                    && (actions[i].isAdmin || actions[i].caller == s.store.payments[order].user))
  {
    AlwaysAsked(bank, actions);
    TasksAlwaysOk(bank, actions);
    var s := Run(bank, actions);
    assert TaskOk(s.store, s.tasks[id]);
    assert WasAsked(actions, id, s.tasks[id]);
    i :| 0 <= i < |actions| && MayAsk(actions[i], id, s.tasks[id]);
  }

  /** Anyone else's verification is answered with "not found" at once, and the owner's of a SUCCESS payment with "already processed"; neither writes. */
  lemma {:induction false} AnsweredAtOnce(bank: Bank, actions: seq<Action>, id: TaskId, order: OrderId, caller: UserId, signed: bool)
    requires id !in Run(bank, actions).tasks
    ensures var s, t := Run(bank, actions), Run(bank, actions + [VerifyCall(id, order, caller, signed)]);
      var isOwner := order in s.store.payments && s.store.payments[order].user == caller;
      && t.store == s.store && id in t.tasks
      && (!isOwner <==> t.tasks[id] == Done(Rejected(NotFound)))
      && (isOwner && s.store.payments[order].status == SUCCESS <==> t.tasks[id] == Done(AlreadyProcessed))
  {
    RunSnoc(bank, actions, VerifyCall(id, order, caller, signed));
  }

  /** The owner's verification of a FAILED payment goes on exactly when the gateway has captured something after all. */
  lemma {:induction false} RecoveryNeedsCapture(bank: Bank, actions: seq<Action>, id: TaskId, order: OrderId, signed: bool, fetched: Option<GatewayPayment>)
    requires id !in Run(bank, actions).tasks && order in Run(bank, actions).store.payments
    requires Run(bank, actions).store.payments[order].status == FAILED
    ensures var s := Run(bank, actions);
      var payment := s.store.payments[order];
      var t := Run(bank, actions + [VerifyCall(id, order, payment.user, signed)] + [Fetched(id, fetched)]);
      && t.store == s.store && id in t.tasks
      && t.tasks[id] == if fetched.None? || fetched.value.status != "captured" || !fetched.value.captured then Done(Rejected(AlreadyFailed))
                        else if signed then Fetching(order, payment, Checkout)
                        else SavingFailure(order, payment, None, InvalidSignature)
  {
    var call := VerifyCall(id, order, Run(bank, actions).store.payments[order].user, signed);
    RunSnoc(bank, actions, call);
    RunSnoc(bank, actions + [call], Fetched(id, fetched));
  }

  // ----- blind saves -----

  /** A failure saved from a stale copy overwrites SUCCESS unless that copy was FAILED already; the credit stays. */
  lemma {:induction false} BlindFailureHidesCreditIff(bank: Bank, actions: seq<Action>, id: TaskId)
    requires var s := Run(bank, actions);
      id in s.tasks && s.tasks[id].SavingFailure?
      && s.tasks[id].order in s.store.payments && s.store.payments[s.tasks[id].order].status == SUCCESS
    ensures var s, t := Run(bank, actions), Run(bank, actions + [Write(id)]);
      var task := s.tasks[id];
      && task.order in t.store.payments && t.store.payments[task.order].transactionId.Some?
      && t.store.bank == s.store.bank && t.store.credits == s.store.credits
      && (t.store.payments[task.order].status == FAILED
          <==> task.snapshot.status != FAILED && !SaveIsRefused(s.store.payments, task.order, task.snapshot, task.failed))
  {
    var s := Run(bank, actions);
    RunSnoc(bank, actions, Write(id));
    TasksAlwaysOk(bank, actions);
    assert TaskOk(s.store, s.tasks[id]);
    StoreInvAlways(bank, actions);
    assert PaymentOk(s.store.payments[s.tasks[id].order]);
  }

  /** It happens: a verification with a bad signature loads a pending payment, and saves its failure after the webhook's credit. */
  lemma {:induction false} BadSignatureCanHideCredit(bank: Bank, actions: seq<Action>, a: TaskId, b: TaskId, order: OrderId, p: GatewayPayment, orderOf: string -> OrderId)
    requires NoTopupRows(bank) && Consistent(actions, orderOf) && orderOf(p.id) == order
    requires a != b && a !in Run(bank, actions).tasks && b !in Run(bank, actions).tasks
    requires CanBeCredited(Run(bank, actions).store, order, p.id) && Run(bank, actions).store.payments[order].status == PENDING
    requires ValidateCapturedPayment(order, Run(bank, actions).store.payments[order], Some(p)).Ok?
    ensures var user := Run(bank, actions).store.payments[order].user;
      var st := Run(bank, actions + [VerifyCall(a, order, user, false)] + WebhookActions(b, order, p) + [Write(a)]).store;
      IsCredited(st, order) && order in st.payments && st.payments[order].status == FAILED
  {
    var s := Run(bank, actions);
    var call := VerifyCall(a, order, s.store.payments[order].user, false);
    RunSnoc(bank, actions, call);
    var loaded := actions + [call];
    assert Consistent(loaded, orderOf);
    WebhookCreditsIff(bank, loaded, b, order, p, orderOf);
    var credited := loaded + WebhookActions(b, order, p);
    WebhookKeepsTask(bank, loaded, a, b, order, p);
    BlindFailureHidesCreditIff(bank, credited, a);
    var st := Run(bank, credited).store;
    assert st.credits[|st.credits| - 1].order == order;
    CreditsStay(st, Run(bank, credited + [Write(a)]).store);
  }

  lemma WebhookKeepsTask(bank: Bank, actions: seq<Action>, a: TaskId, b: TaskId, order: OrderId, p: GatewayPayment)
    requires a != b && a in Run(bank, actions).tasks
    ensures var s, t := Run(bank, actions), Run(bank, actions + WebhookActions(b, order, p));
      a in t.tasks && t.tasks[a] == s.tasks[a]
  {
    var one := actions + [CapturedEvent(b, order)];
    RunSnoc(bank, actions, CapturedEvent(b, order));
    RunSnoc(bank, one, Fetched(b, Some(p)));
    RunSnoc(bank, one + [Fetched(b, Some(p))], Write(b));
    assert actions + WebhookActions(b, order, p) == one + [Fetched(b, Some(p))] + [Write(b)];
  }

  /** Credited, and no longer SUCCESS */
  ghost predicate CreditHidden(st: Store, order: OrderId) {
    order in st.payments && st.payments[order].transactionId.Some? && st.payments[order].status != SUCCESS
  }

  lemma {:induction false} StepKeepsCreditHidden(s: State, action: Action, order: OrderId)
    requires StoreInv(s.store) && CreditHidden(s.store, order)
    ensures CreditHidden(Next(s, action).store, order)
  {
    if IsClaim(s, action) {
      var task := s.tasks[action.id];
      ClaimCases(s.store, task.order, task.snapshot, task.payment, task.source);
    }
  }

  /** For good: such a payment is never SUCCESS again, and nobody is ever let through to refund it. */
  lemma {:induction false} HiddenCreditStaysHidden(bank: Bank, actions: seq<Action>, more: seq<Action>, order: OrderId,
                                                   caller: UserId, isAdmin: bool, rupees: Option<real>)
    requires CreditHidden(Run(bank, actions).store, order)
    ensures var st := Run(bank, actions + more).store;
      && CreditHidden(st, order)
      && Refund(st.payments, order, caller, isAdmin, rupees)
         == Done(Rejected(if !isAdmin && st.payments[order].user != caller then AccessDenied else NotRefundable))
  {
    if more == [] {
      assert actions + more == actions;
    } else {
      var init := more[..|more| - 1];
      HiddenCreditStaysHidden(bank, actions, init, order, caller, isAdmin, rupees);
      StoreInvAlways(bank, actions + init);
      assert actions + more == (actions + init) + [more[|more| - 1]];
      RunSnoc(bank, actions + init, more[|more| - 1]);
      StepKeepsCreditHidden(Run(bank, actions + init), more[|more| - 1], order);
    }
  }
}
