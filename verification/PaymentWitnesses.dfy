/** Runs, from the first order on, in which the payment protocol does what one would not want. */
module PaymentWitnesses {
  import opened Prelude
  import opened TopupPolicy
  import opened Wallets
  import opened Payments
  import opened PaymentSafety
  import opened PaymentRuns
  import opened PaymentRefunds

  const SHOP := Bank(map["s" := Wallet(0.0, true)], map["s" := SUPER_ADMIN], [])
  const PLACED := Payment("s", 100.0, 10000, "INR", PENDING, None, None)
  const PAID := GatewayPayment("p", "o", 10000, "INR", "captured", true)
  const ORDER := [Order("o", "s", 100.0, "INR", 100000.0)]

  lemma {:induction false} OrderPlaced()
    ensures Run(SHOP, ORDER) == State(Store(map["o" := PLACED], SHOP, []), map[])
  {
    assert ORDER[..0] == [];
    assert ToPaise(100.0) == Ok(10000);
    assert map[]["o" := PLACED] == map["o" := PLACED];
  }

  /** A captured payment that an earlier attempt had marked FAILED: verification says "already failed" and credits nothing. */
  lemma {:induction false} RecoveryCreditsNothing()
    ensures var failed := ORDER + [Failed(GatewayPayment("x", "o", 10000, "INR", "failed", false))];
      var t := Run(SHOP, failed + RecoveryActions(1, "o", "s", PAID) + [Write(1)]);
      1 in t.tasks && t.tasks[1] == Done(Rejected(AlreadyFailed)) && t.store.credits == [] && t.store.bank == SHOP
  {
    OrderPlaced();
    var attempt := Failed(GatewayPayment("x", "o", 10000, "INR", "failed", false));
    RunSnoc(SHOP, ORDER, attempt);
    var s := Run(SHOP, ORDER + [attempt]);
    assert s.store.payments["o"].status == FAILED && s.tasks == map[];
    CheckoutRecoveryIsReached(SHOP, ORDER + [attempt], 1, "o", PAID);
  }

  /** The refund webhook marks an order that nobody has paid. */
  lemma {:induction false} UncreditedMarkedRefunded()
    ensures var st := Run(SHOP, ORDER + [RefundEvent(1, "o")] + [Write(1)]).store;
      st.payments == map["o" := PLACED.(status := REFUNDED)] && st.credits == []
  {
    OrderPlaced();
    RefundWebhookMovesNoMoney(SHOP, ORDER, 1, "o");
  }

  const CREDITED := ORDER + WebhookActions(1, "o", PAID)
  const PAYMENTS := map["o" := PLACED.(status := SUCCESS, razorpayPaymentId := Some("p"), transactionId := Some(0))]
  const CREDITED_BANK := Bank(map["s" := Wallet(100.0, true)], SHOP.roles, [TOPUP_ROW])
  const TOPUP_ROW := Row("s", TOPUP, 100.0, 0.0, 100.0, Some(TopupReference("p")))

  lemma {:induction false} FirstRow()
    ensures ApplyTransaction(SHOP, "s", TOPUP, 100.0, Some(TopupReference("p"))) == Ok(Applied(CREDITED_BANK, 0, false))
  {
    assert [] + [TOPUP_ROW] == [TOPUP_ROW];
    assert SHOP.wallets["s" := Wallet(100.0, true)] == CREDITED_BANK.wallets;
  }

  lemma {:induction false} FirstCredit(st: Store)
    requires st == Store(map["o" := PLACED], SHOP, [])
    ensures Claim(st, "o", PLACED, PAID, Webhook).0 == Store(PAYMENTS, CREDITED_BANK, [Credit("o", 0, PAID)])
  {
    assert !IsTaken(st.payments, "o", "p");
    FirstRow();
    assert [] + [Credit("o", 0, PAID)] == [Credit("o", 0, PAID)];
    assert st.payments["o" := PAYMENTS["o"]] == PAYMENTS;
  }

  lemma {:induction false} AfterCredit()
    ensures Run(SHOP, CREDITED).store == Store(PAYMENTS, CREDITED_BANK, [Credit("o", 0, PAID)])
    ensures Run(SHOP, CREDITED).tasks.Keys == {1}
  {
    OrderPlaced();
    WebhookUninterrupted(SHOP, ORDER, 1, "o", PAID);
    FirstCredit(Run(SHOP, ORDER).store);
  }

  /** The credit is spent before it is refunded: the gateway pays, the payment is REFUNDED, and the wallet pays nothing. */
  lemma {:induction false} RefusedDebitLeavesRefunded()
    ensures var spent := CREDITED + [Elsewhere(Tx("s", DEBIT, 100.0, None))];
      var s, t := Run(SHOP, spent), Run(SHOP, spent + RefundActions(2, "o", "s", false, None, "r"));
      && "o" in t.store.payments && t.store.payments["o"].status == REFUNDED
      && t.store.bank == s.store.bank && Balance(t.store.bank, "s") == 0.0
  {
    AfterSpending();
    RefundDebitsIff(SHOP, CREDITED + [Elsewhere(SPENDING)], 2, "o", "s", false, None, "r");
  }

  const SPENDING := Tx("s", DEBIT, 100.0, None)

  lemma {:induction false} AfterSpending()
    ensures var s := Run(SHOP, CREDITED + [Elsewhere(SPENDING)]);
      s.store.payments == PAYMENTS && Balance(s.store.bank, "s") == 0.0 && Reserve(s.store.bank, "s") == 0.0 && 2 !in s.tasks
  {
    AfterCredit();
    RunSnoc(SHOP, CREDITED, Elsewhere(SPENDING));
    SpendingEmpties();
  }

  lemma {:induction false} SpendingEmpties()
    ensures var b := Wallets.Step(CREDITED_BANK, SPENDING); Balance(b, "s") == 0.0 && Reserve(b, "s") == 0.0
  {
    assert Reserve(CREDITED_BANK, "s") == 0.0;
    assert ApplyTransaction(CREDITED_BANK, "s", DEBIT, 100.0, None).Ok?;
  }

  const HALF := Some(50.0)
  const FIRST_CALL := RefundCall(2, "o", "s", false, HALF)
  const SECOND_CALL := RefundCall(3, "o", "s", false, HALF)

  lemma {:induction false} HalfIsRefundable()
    ensures Refund(PAYMENTS, "o", "s", false, HALF) == Refunding("o", PAYMENTS["o"], 50.0)
  {
    assert ToPaise(50.0) == Ok(5000);
  }

  const ASKED := Refunding("o", PAYMENTS["o"], 50.0)

  lemma {:induction false} AfterFirstCall()
    ensures var s := Run(SHOP, CREDITED + [FIRST_CALL]);
      s.store == Run(SHOP, CREDITED).store && 2 in s.tasks && s.tasks[2] == ASKED && 3 !in s.tasks
  {
    AfterCredit();
    HalfIsRefundable();
    RunSnoc(SHOP, CREDITED, FIRST_CALL);
  }

  const BOTH_ASKED := CREDITED + [FIRST_CALL] + [SECOND_CALL]

  lemma {:induction false} AfterSecondCall()
    ensures var s := Run(SHOP, BOTH_ASKED);
      s.store == Run(SHOP, CREDITED).store && 2 in s.tasks && s.tasks[2] == ASKED && 3 in s.tasks && s.tasks[3] == ASKED
  {
    AfterCredit();
    AfterFirstCall();
    HalfIsRefundable();
    RunSnoc(SHOP, CREDITED + [FIRST_CALL], SECOND_CALL);
  }

  const BOTH_MARKED := BOTH_ASKED + ToDebit(2, "a") + ToDebit(3, "b")

  lemma {:induction false} AfterBothMarked()
    ensures var s := Run(SHOP, BOTH_MARKED);
      && s.store.bank == CREDITED_BANK && IsLate(s, 2, "o") && IsLate(s, 3, "o")
      && s.tasks[2] == Debiting("o", PAYMENTS["o"], 50.0, "a") && s.tasks[3] == Debiting("o", PAYMENTS["o"], 50.0, "b")
  {
    AfterCredit();
    AfterSecondCall();
    ReachesDebit(SHOP, BOTH_ASKED, 2, "o", "a");
    ReachesDebit(SHOP, BOTH_ASKED + ToDebit(2, "a"), 3, "o", "b");
  }

  lemma {:induction false} BothAreCovered()
    ensures Covered(CREDITED_BANK, Debiting("o", PAYMENTS["o"], 50.0, "a"))
    ensures Covered(Wallets.Step(CREDITED_BANK, DebitTx(Debiting("o", PAYMENTS["o"], 50.0, "a"))), Debiting("o", PAYMENTS["o"], 50.0, "b"))
  {
    TopupReferences("a", "p");
    TopupReferences("b", "p");
    TopupReferences("p", "p");
    var first := DebitTx(Debiting("o", PAYMENTS["o"], 50.0, "a"));
    var row := Row("s", DEBIT, 50.0, 100.0, 50.0, Some(RefundReference("a")));
    assert FindReference(CREDITED_BANK.ledger, Some(RefundReference("a"))).None?;
    assert Reserve(CREDITED_BANK, "s") == 0.0;
    assert Wallets.Step(CREDITED_BANK, first).ledger == [TOPUP_ROW] + [row];
    assert RefundReference("a") != RefundReference("b") by { assert RefundReference("a")[7] != RefundReference("b")[7]; }
  }

  /** Two refunds of half a payment, within what the gateway captured: asked for together, both debit the wallet. */
  lemma {:induction false} RefundedTwice()
    ensures var t := Run(SHOP, BOTH_MARKED + [Write(2)] + [Write(3)]);
      Balance(t.store.bank, "s") == 0.0 && |t.store.bank.ledger| == 3
  {
    AfterBothMarked();
    BothAreCovered();
    RunSnoc(SHOP, BOTH_MARKED, Write(2));
    RunSnoc(SHOP, BOTH_MARKED + [Write(2)], Write(3));
    OverlappingRefundsBothDebit(Run(SHOP, BOTH_MARKED), 2, 3);
  }

  // ----- the reserve -----

  const FIRST_ORDER := Order("o1", "m", 200.0, "INR", 100000.0)
  const SECOND_ORDER := Order("o2", "m", 200.0, "INR", 100000.0)
  const TWO_ORDERS := [FIRST_ORDER] + [SECOND_ORDER]

  function Placed200(): Payment {
    Payment("m", 200.0, 20000, "INR", PENDING, None, None)
  }

  function Captured200(paymentId: string, order: OrderId): GatewayPayment {
    GatewayPayment(paymentId, order, 20000, "INR", "captured", true)
  }

  function OrderOf(paymentId: string): OrderId {
    if paymentId == "p1" then "o1" else "o2"
  }

  lemma {:induction false} BothPlaced()
    ensures Run(NEW_MERCHANT, TWO_ORDERS) == State(Store(map["o1" := Placed200(), "o2" := Placed200()], NEW_MERCHANT, []), map[])
  {
    assert [FIRST_ORDER][..0] == [];
    assert ToPaise(200.0) == Ok(20000);
    TopupRule(0.0, 0, MERCHANT, 200.0);
    assert Run(NEW_MERCHANT, [FIRST_ORDER]) == State(Store(map["o1" := Placed200()], NEW_MERCHANT, []), map[]);
    RunSnoc(NEW_MERCHANT, [FIRST_ORDER], SECOND_ORDER);
  }

  /**
   * Top-ups alone void the reserve as well: two orders of 200 both pass as first recharges of an empty wallet, and
   * once both are paid it holds 400 after two recharges.
   */
  lemma {:induction false} TwoOrdersVoidTheReserve()
    ensures var st := Run(NEW_MERCHANT, TWO_ORDERS + WebhookActions(1, "o1", Captured200("p1", "o1")) + WebhookActions(2, "o2", Captured200("p2", "o2"))).store;
      && Balance(st.bank, "m") == 400.0 && CompletedRecharges(st.bank.ledger, "m") == 2
      && ReserveHeld(NEW_MERCHANT, "m") && !ReserveHeld(st.bank, "m")
  {
    var p1, p2 := Captured200("p1", "o1"), Captured200("p2", "o2");
    var first := TWO_ORDERS + WebhookActions(1, "o1", p1);
    FirstTopup();
    AfterFirst();
    WebhookCreditsIff(NEW_MERCHANT, first, 2, "o2", p2, OrderOf);
    RolesStay(NEW_MERCHANT, first + WebhookActions(2, "o2", p2), "m");
  }

  lemma {:induction false} FirstTopup()
    ensures var b := Run(NEW_MERCHANT, TWO_ORDERS + WebhookActions(1, "o1", Captured200("p1", "o1"))).store.bank;
      Balance(b, "m") == 200.0 && CompletedRecharges(b.ledger, "m") == 1
  {
    BothPlaced();
    WebhookCreditsIff(NEW_MERCHANT, TWO_ORDERS, 1, "o1", Captured200("p1", "o1"), OrderOf);
  }

  lemma {:induction false} AfterFirst()
    ensures var s := Run(NEW_MERCHANT, TWO_ORDERS + WebhookActions(1, "o1", Captured200("p1", "o1")));
      && 2 !in s.tasks && "o2" in s.store.payments && s.store.payments["o2"] == Placed200()
      && CanBeCredited(s.store, "o2", "p2")
  {
    BothPlaced();
    WebhookUninterrupted(NEW_MERCHANT, TWO_ORDERS, 1, "o1", Captured200("p1", "o1"));
    FirstClaim(Run(NEW_MERCHANT, TWO_ORDERS).store);
  }

  lemma {:induction false} FirstClaim(st: Store)
    requires st.payments == map["o1" := Placed200(), "o2" := Placed200()] && st.bank == NEW_MERCHANT
    ensures var t := Claim(st, "o1", Placed200(), Captured200("p1", "o1"), Webhook).0;
      "o2" in t.payments && t.payments["o2"] == Placed200() && CanBeCredited(t, "o2", "p2")
  {
    var t := Claim(st, "o1", Placed200(), Captured200("p1", "o1"), Webhook).0;
    ClaimCases(st, "o1", Placed200(), Captured200("p1", "o1"), Webhook);
    assert forall o | o in t.payments && o != "o2" :: t.payments[o].razorpayPaymentId != Some("p2") by {
      assert "p1" != "p2";
    }
    assert "m" in t.bank.wallets && t.bank.wallets["m"].isActive;
  }

  lemma {:induction false} RolesStay(bank: Bank, actions: seq<Action>, user: UserId)
    requires InTraining(bank, user)
    ensures InTraining(Run(bank, actions).store.bank, user)
  {
    if actions != [] {
      var init, last := actions[..|actions| - 1], actions[|actions| - 1];
      RolesStay(bank, init, user);
      StepIsTransaction(Run(bank, init), last);
      if TransactionOf(Run(bank, init), last).Some? { StepCases(Run(bank, init).store.bank, TransactionOf(Run(bank, init), last).value); }
    }
  }
}
