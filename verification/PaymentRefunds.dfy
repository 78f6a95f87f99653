/** Refunds: one alone, several of one payment, the webhook's mark, and how the mark is lost. */
module PaymentRefunds {
  import opened Prelude
  import opened Wallets
  import opened Payments
  import opened PaymentSafety
  import opened PaymentRuns

  // ----- one refund -----

  /** By whom, for which payments and for which amounts a refund can be asked; no amount, or zero, is the whole payment. */
  predicate CanBeRefunded(payments: map<OrderId, Payment>, order: OrderId, caller: UserId, isAdmin: bool, rupees: Option<real>) {
    && order in payments && (isAdmin || payments[order].user == caller)
    && payments[order].status == SUCCESS
    && payments[order].razorpayPaymentId.Some? && payments[order].razorpayPaymentId.value != ""
    && (rupees.Some? && rupees.value != 0.0 ==> ToPaise(rupees.value).Ok?)
  }

  function AmountAsked(payment: Payment, rupees: Option<real>): real {
    if rupees.Some? && rupees.value != 0.0 then rupees.value else payment.amountRupees
  }

  /** A refund is let through exactly then, for the amount asked for, from the payment as it is. */
  lemma {:induction false} RefundLetThroughIff(payments: map<OrderId, Payment>, order: OrderId, caller: UserId, isAdmin: bool, rupees: Option<real>)
    ensures var task := Refund(payments, order, caller, isAdmin, rupees);
      && (task.Refunding? <==> CanBeRefunded(payments, order, caller, isAdmin, rupees))
      && (task.Refunding? ==> task == Refunding(order, payments[order], AmountAsked(payments[order], rupees)))
      && (!task.Refunding? ==> task.Done? && task.outcome.Rejected?)
  {
  }

  predicate CanBeDebited(bank: Bank, user: UserId, rupees: real, refundId: string) {
    && user in bank.wallets && bank.wallets[user].isActive
    && FindReference(bank.ledger, Some(RefundReference(refundId))).None?
    && rupees >= MIN_AMOUNT
    && rupees + Reserve(bank, user) <= Balance(bank, user)
  }

  /** A refund, from the request to the last write, without interruption */
  function RefundActions(id: TaskId, order: OrderId, caller: UserId, isAdmin: bool, rupees: Option<real>, refundId: string): seq<Action> {
    [RefundCall(id, order, caller, isAdmin, rupees)] + [RefundMade(id, Some(refundId))] + [Write(id)] + [Write(id)]
  }

  /** Up to the gateway's answer nothing is written. */
  lemma {:induction false} RefundAsked(bank: Bank, actions: seq<Action>, id: TaskId, order: OrderId, caller: UserId, isAdmin: bool, rupees: Option<real>, refundId: string)
    requires id !in Run(bank, actions).tasks
    requires CanBeRefunded(Run(bank, actions).store.payments, order, caller, isAdmin, rupees)
    ensures var s := Run(bank, actions);
      var payment := s.store.payments[order];
      Run(bank, actions + [RefundCall(id, order, caller, isAdmin, rupees)] + [RefundMade(id, Some(refundId))])
      == s.(tasks := s.tasks[id := SavingRefund(order, payment, AmountAsked(payment, rupees), refundId)])
  {
    var s := Run(bank, actions);
    var task := Refund(s.store.payments, order, caller, isAdmin, rupees);
    RefundLetThroughIff(s.store.payments, order, caller, isAdmin, rupees);
    RunSnoc(bank, actions, RefundCall(id, order, caller, isAdmin, rupees));
    RunSnoc(bank, actions + [RefundCall(id, order, caller, isAdmin, rupees)], RefundMade(id, Some(refundId)));
    assert s.tasks[id := task][id := SavingRefund(order, task.snapshot, task.rupees, refundId)]
        == s.tasks[id := SavingRefund(order, task.snapshot, task.rupees, refundId)];
  }

  /** The two writes of a refund, one after the other */
  lemma {:induction false} RefundWrites(s: State, id: TaskId)
    requires id in s.tasks && s.tasks[id].SavingRefund?
    ensures var task := s.tasks[id];
      var (after, outcome) := DebitRefund(SetRefunded(s.store, task.order), task.snapshot.user, task.refundId, task.rupees);
      Next(Next(s, Write(id)), Write(id)) == State(after, s.tasks[id := Done(outcome)])
  {
    var task := s.tasks[id];
    assert Next(s, Write(id)).tasks == s.tasks[id := Debiting(task.order, task.snapshot, task.rupees, task.refundId)];
  }

  lemma {:induction false} RefundUninterrupted(bank: Bank, actions: seq<Action>, id: TaskId, order: OrderId, caller: UserId, isAdmin: bool, rupees: Option<real>, refundId: string)
    requires id !in Run(bank, actions).tasks
    requires CanBeRefunded(Run(bank, actions).store.payments, order, caller, isAdmin, rupees)
    ensures var s, t := Run(bank, actions), Run(bank, actions + RefundActions(id, order, caller, isAdmin, rupees, refundId));
      var payment := s.store.payments[order];
      var (after, outcome) := DebitRefund(SetRefunded(s.store, order), payment.user, refundId, AmountAsked(payment, rupees));
      t.store == after && id in t.tasks && t.tasks[id] == Done(outcome)
  {
    var asked := actions + [RefundCall(id, order, caller, isAdmin, rupees)] + [RefundMade(id, Some(refundId))];
    RefundAsked(bank, actions, id, order, caller, isAdmin, rupees, refundId);
    RefundWrites(Run(bank, asked), id);
    RunSnoc(bank, asked, Write(id));
    RunSnoc(bank, asked + [Write(id)], Write(id));
    assert actions + RefundActions(id, order, caller, isAdmin, rupees, refundId) == asked + [Write(id)] + [Write(id)];
  }

  /**
   * The payment is REFUNDED in any case. Its owner's wallet pays the refund, once per refund id, exactly when the
   * balance beyond the reserve covers it; otherwise the wallet stays as it is though the gateway has paid.
   */
  lemma {:induction false} RefundDebitsIff(bank: Bank, actions: seq<Action>, id: TaskId, order: OrderId, caller: UserId, isAdmin: bool, rupees: Option<real>, refundId: string)
    requires id !in Run(bank, actions).tasks
    requires CanBeRefunded(Run(bank, actions).store.payments, order, caller, isAdmin, rupees)
    ensures var st, t := Run(bank, actions).store, Run(bank, actions + RefundActions(id, order, caller, isAdmin, rupees, refundId)).store;
      var amount := AmountAsked(st.payments[order], rupees);
      var user := st.payments[order].user;
      && order in t.payments && t.payments[order].status == REFUNDED
      && (CanBeDebited(st.bank, user, amount, refundId) <==> t.bank != st.bank)
      && (CanBeDebited(st.bank, user, amount, refundId) ==>
            Balance(t.bank, user) == Balance(st.bank, user) - amount && |t.bank.ledger| == |st.bank.ledger| + 1)
  {
    RefundUninterrupted(bank, actions, id, order, caller, isAdmin, rupees, refundId);
  }

  /** A request that may not be made, or that the gateway refuses, writes nothing, whatever writes follow for it. */
  lemma {:induction false} RefusedRefundWritesNothing(bank: Bank, actions: seq<Action>, id: TaskId, order: OrderId, caller: UserId, isAdmin: bool, rupees: Option<real>, refundId: Option<string>)
    requires id !in Run(bank, actions).tasks
    requires refundId.None? || !CanBeRefunded(Run(bank, actions).store.payments, order, caller, isAdmin, rupees)
    ensures var run := actions + [RefundCall(id, order, caller, isAdmin, rupees)] + [RefundMade(id, refundId)];
      var t := Run(bank, run);
      && id in t.tasks && t.tasks[id].Done? && t.tasks[id].outcome.Rejected?
      && t.store == Run(bank, actions).store && Run(bank, run + [Write(id)]) == t
  {
    var call, made := RefundCall(id, order, caller, isAdmin, rupees), RefundMade(id, refundId);
    RefundLetThroughIff(Run(bank, actions).store.payments, order, caller, isAdmin, rupees);
    RunSnoc(bank, actions, call);
    RunSnoc(bank, actions + [call], made);
    RunSnoc(bank, actions + [call] + [made], Write(id));
    DoneWritesNothing(Run(bank, actions + [call] + [made]), id);
  }

  lemma {:induction false} DoneWritesNothing(s: State, id: TaskId)
    requires id in s.tasks && s.tasks[id].Done?
    ensures Next(s, Write(id)) == s
  {
    assert s.tasks[id := s.tasks[id]] == s.tasks;
  }

  // ----- several refunds of one payment -----

  /** A refund that has been let through and has not saved its mark */
  predicate IsEarly(s: State, id: TaskId, order: OrderId) {
    id in s.tasks && (s.tasks[id].Refunding? || s.tasks[id].SavingRefund?) && s.tasks[id].order == order
  }

  /** A refund that has saved its mark and is about to debit */
  predicate IsLate(s: State, id: TaskId, order: OrderId) {
    id in s.tasks && s.tasks[id].Debiting? && s.tasks[id].order == order
  }

  predicate AcceptsRefund(s: State, action: Action) {
    action.RefundCall? && action.id !in s.tasks
    && CanBeRefunded(s.store.payments, action.order, action.caller, action.isAdmin, action.rupees)
  }

  ghost predicate StaysApart(s: State, action: Action) {
    AcceptsRefund(s, action) ==> forall id :: !IsEarly(s, id, action.order)
  }

  /** No refund is let through while another of the same payment has not saved its mark. */
  ghost function NoOverlap(bank: Bank): (seq<Action>, Action) -> bool {
    (before, action) => StaysApart(Run(bank, before), action)
  }

  predicate IsDebitWrite(s: State, action: Action, order: OrderId) {
    action.Write? && IsLate(s, action.id, order)
  }

  /** How often refunds of an order have come to their debit */
  function DebitWrites(bank: Bank, actions: seq<Action>, order: OrderId): nat {
    if actions == [] then 0
    else
      var init, last := actions[..|actions| - 1], actions[|actions| - 1];
      DebitWrites(bank, init, order) + if IsDebitWrite(Run(bank, init), last, order) then 1 else 0
  }

  /** At most one refund under way that has not saved its mark, or one about to debit, or one debit. */
  ghost predicate Apart(s: State, order: OrderId, debits: nat) {
    && (forall a, b | IsEarly(s, a, order) && IsEarly(s, b, order) :: a == b)
    && (forall a, b | IsLate(s, a, order) && IsLate(s, b, order) :: a == b)
    && (forall a, b | IsLate(s, a, order) :: !IsEarly(s, b, order))
    && (debits > 0 ==> debits == 1 && forall a :: !IsEarly(s, a, order) && !IsLate(s, a, order))
    && (debits > 0 || (exists a :: IsLate(s, a, order)) ==> CreditHidden(s.store, order))
  }

  /** A step that leaves the refunds of the order where they are */
  lemma {:induction false} OtherStepKeepsApart(s: State, t: State, order: OrderId, debits: nat)
    requires Apart(s, order, debits) && (CreditHidden(s.store, order) ==> CreditHidden(t.store, order))
    requires forall id :: (IsEarly(t, id, order) ==> IsEarly(s, id, order)) && (IsLate(t, id, order) ==> IsLate(s, id, order))
    ensures Apart(t, order, debits)
  {
  }

  lemma {:induction false} CallKeepsApart(s: State, action: Action, order: OrderId, debits: nat)
    requires Apart(s, order, debits) && StaysApart(s, action) && action.RefundCall?
    ensures Apart(Next(s, action), order, debits)
  {
    var t := Next(s, action);
    if AcceptsRefund(s, action) && action.order == order {
      assert forall id | id != action.id :: IsEarly(t, id, order) == IsEarly(s, id, order);
      assert forall id :: IsLate(t, id, order) == IsLate(s, id, order);
      assert !CreditHidden(s.store, order);
    } else {
      OtherStepKeepsApart(s, t, order, debits);
    }
  }

  lemma {:induction false} MarkKeepsApart(s: State, id: TaskId, order: OrderId, debits: nat)
    requires Apart(s, order, debits) && RefundsFollowCredits(s)
    requires id in s.tasks && s.tasks[id].SavingRefund? && s.tasks[id].order == order
    ensures Apart(Next(s, Write(id)), order, debits)
  {
    var t := Next(s, Write(id));
    assert IsEarly(s, id, order);
    assert IsRefund(s.tasks[id]);
    assert forall a | a != id :: IsEarly(t, a, order) == IsEarly(s, a, order) && IsLate(t, a, order) == IsLate(s, a, order);
    assert CreditHidden(t.store, order);
  }

  lemma {:induction false} DebitKeepsApart(s: State, id: TaskId, order: OrderId, debits: nat)
    requires Apart(s, order, debits) && IsLate(s, id, order)
    ensures Apart(Next(s, Write(id)), order, debits + 1)
  {
    var t := Next(s, Write(id));
    assert forall a | a != id :: IsEarly(t, a, order) == IsEarly(s, a, order) && IsLate(t, a, order) == IsLate(s, a, order);
    assert !IsEarly(t, id, order) && !IsLate(t, id, order);
  }

  lemma {:induction false} StepKeepsApart(s: State, action: Action, order: OrderId, debits: nat)
    requires Apart(s, order, debits) && StoreInv(s.store) && RefundsFollowCredits(s) && StaysApart(s, action)
    ensures Apart(Next(s, action), order, debits + if IsDebitWrite(s, action, order) then 1 else 0)
  {
    if action.RefundCall? {
      CallKeepsApart(s, action, order, debits);
    } else if IsDebitWrite(s, action, order) {
      DebitKeepsApart(s, action.id, order, debits);
    } else if action.Write? && IsEarly(s, action.id, order) && s.tasks[action.id].SavingRefund? {
      MarkKeepsApart(s, action.id, order, debits);
    } else {
      if CreditHidden(s.store, order) { StepKeepsCreditHidden(s, action, order); }
      RefundsStayPut(s, action, order);
      OtherStepKeepsApart(s, Next(s, action), order, debits);
    }
  }

  lemma {:induction false} RefundsStayPut(s: State, action: Action, order: OrderId)
    requires !action.RefundCall? && !IsDebitWrite(s, action, order)
    requires !(action.Write? && IsEarly(s, action.id, order) && s.tasks[action.id].SavingRefund?)
    ensures var t := Next(s, action);
      forall id :: (IsEarly(t, id, order) ==> IsEarly(s, id, order)) && (IsLate(t, id, order) ==> IsLate(s, id, order))
  {
  }

  lemma {:induction false} ApartAlways(bank: Bank, actions: seq<Action>, order: OrderId)
    requires AtEachTurn(actions, NoOverlap(bank))
    ensures Apart(Run(bank, actions), order, DebitWrites(bank, actions, order))
  {
    if actions != [] {
      var init, last := actions[..|actions| - 1], actions[|actions| - 1];
      AtEachTurnSnoc(actions, NoOverlap(bank));
      ApartAlways(bank, init, order);
      StoreInvAlways(bank, init);
      RefundsAlwaysFollowCredits(bank, init);
      StepKeepsApart(Run(bank, init), last, order, DebitWrites(bank, init, order));
    }
  }

  /** In a run whose refunds of one payment do not overlap, a payment comes to at most one debit. */
  lemma {:induction false} DebitedAtMostOnce(bank: Bank, actions: seq<Action>, order: OrderId)
    requires AtEachTurn(actions, NoOverlap(bank))
    ensures DebitWrites(bank, actions, order) <= 1
  {
    ApartAlways(bank, actions, order);
  }

  // ----- refunds that overlap -----

  /** The gateway's answer, if it is still out, and the mark */
  function ToDebit(id: TaskId, refundId: string): seq<Action> {
    [RefundMade(id, Some(refundId))] + [Write(id)]
  }

  lemma {:induction false} ReachesDebit(bank: Bank, actions: seq<Action>, id: TaskId, order: OrderId, refundId: string)
    requires IsEarly(Run(bank, actions), id, order)
    ensures var s, t := Run(bank, actions), Run(bank, actions + ToDebit(id, refundId));
      && IsLate(t, id, order)
      && t.tasks[id].snapshot == s.tasks[id].snapshot && t.tasks[id].rupees == s.tasks[id].rupees
      && (s.tasks[id].Refunding? ==> t.tasks[id].refundId == refundId)
      && (forall a | a != id && a in s.tasks :: a in t.tasks && t.tasks[a] == s.tasks[a])
      && t.store.bank == s.store.bank
    ensures forall o :: DebitWrites(bank, actions + ToDebit(id, refundId), o) == DebitWrites(bank, actions, o)
  {
    var made := actions + [RefundMade(id, Some(refundId))];
    RunSnoc(bank, actions, RefundMade(id, Some(refundId)));
    assert Run(bank, made).tasks[id].SavingRefund?;
    RunSnoc(bank, made, Write(id));
    assert actions + ToDebit(id, refundId) == made + [Write(id)];
    forall o ensures DebitWrites(bank, actions + ToDebit(id, refundId), o) == DebitWrites(bank, actions, o) {
      DebitWritesSnoc(bank, actions, RefundMade(id, Some(refundId)), o);
      DebitWritesSnoc(bank, made, Write(id), o);
    }
  }

  lemma {:induction false} DebitWritesSnoc(bank: Bank, actions: seq<Action>, action: Action, order: OrderId)
    ensures DebitWrites(bank, actions + [action], order)
         == DebitWrites(bank, actions, order) + if IsDebitWrite(Run(bank, actions), action, order) then 1 else 0
  {
    assert (actions + [action])[..|actions|] == actions;
  }

  function FinishBoth(a: TaskId, b: TaskId): seq<Action> {
    ToDebit(a, "a") + ToDebit(b, "b") + [Write(a)] + [Write(b)]
  }

  /** From any state with two refunds of one payment that have not saved their marks, both can come to their debits. */
  lemma {:induction false} OverlapReachesTwoDebits(bank: Bank, actions: seq<Action>, a: TaskId, b: TaskId, order: OrderId)
    requires a != b && IsEarly(Run(bank, actions), a, order) && IsEarly(Run(bank, actions), b, order)
    ensures var t := Run(bank, actions + ToDebit(a, "a") + ToDebit(b, "b")); IsLate(t, a, order) && IsLate(t, b, order)
    ensures DebitWrites(bank, actions + FinishBoth(a, b), order) == DebitWrites(bank, actions, order) + 2
  {
    var one := actions + ToDebit(a, "a");
    var two := one + ToDebit(b, "b");
    ReachesDebit(bank, actions, a, order, "a");
    ReachesDebit(bank, one, b, order, "b");
    assert IsLate(Run(bank, two), a, order);
    TwoDebitWrites(bank, two, a, b, order);
    assert actions + FinishBoth(a, b) == two + [Write(a)] + [Write(b)];
  }

  lemma {:induction false} TwoDebitWrites(bank: Bank, actions: seq<Action>, a: TaskId, b: TaskId, order: OrderId)
    requires a != b && IsLate(Run(bank, actions), a, order) && IsLate(Run(bank, actions), b, order)
    ensures DebitWrites(bank, actions + [Write(a)] + [Write(b)], order) == DebitWrites(bank, actions, order) + 2
  {
    DebitWritesSnoc(bank, actions, Write(a), order);
    RunSnoc(bank, actions, Write(a));
    DebitWritesSnoc(bank, actions + [Write(a)], Write(b), order);
  }

  ghost predicate NoNewRefund(actions: seq<Action>) {
    forall i | 0 <= i < |actions| :: !actions[i].RefundCall?
  }

  /** However the refunds under way are finished, no payment comes to a second debit. */
  ghost function OnceHoweverFinished(bank: Bank): seq<Action> -> bool {
    before => forall more, order | NoNewRefund(more) :: DebitWrites(bank, before + more, order) <= 1
  }

  lemma {:induction false} StaysApartWhenFinished(bank: Bank, actions: seq<Action>, n: nat, more: seq<Action>)
    requires AtEachTurn(actions, NoOverlap(bank)) && n <= |actions| && NoNewRefund(more)
    ensures AtEachTurn(actions[..n] + more, NoOverlap(bank))
  {
    var run := actions[..n] + more;
    forall k | 0 <= k < |run| ensures NoOverlap(bank)(run[..k], run[k]) {
      if k < n {
        assert run[..k] == actions[..k] && run[k] == actions[k];
        assert NoOverlap(bank)(actions[..k], actions[k]);
      } else {
        assert run[k] == more[k - n];
      }
    }
  }

  lemma {:induction false} OverlapShows(bank: Bank, actions: seq<Action>, action: Action)
    requires !StaysApart(Run(bank, actions), action)
    ensures !OnceHoweverFinished(bank)(actions + [action])
  {
    var b :| IsEarly(Run(bank, actions), b, action.order);
    RunSnoc(bank, actions, action);
    var run := actions + [action];
    OverlapIsNotSafe(bank, run, action.id, b, action.order);
  }

  lemma {:induction false} OverlapIsNotSafe(bank: Bank, actions: seq<Action>, a: TaskId, b: TaskId, order: OrderId)
    requires a != b && IsEarly(Run(bank, actions), a, order) && IsEarly(Run(bank, actions), b, order)
    ensures !OnceHoweverFinished(bank)(actions)
  {
    OverlapReachesTwoDebits(bank, actions, a, b, order);
    assert NoNewRefund(FinishBoth(a, b));
    assert DebitWrites(bank, actions + FinishBoth(a, b), order) > 1;
  }

  /** A payment is safe from a second debit, at every point of a run and however its refunds end, exactly when they do not overlap. */
  lemma {:induction false} RefundedOnceIff(bank: Bank, actions: seq<Action>)
    ensures Throughout(actions, OnceHoweverFinished(bank)) <==> AtEachTurn(actions, NoOverlap(bank))
  {
    if AtEachTurn(actions, NoOverlap(bank)) {
      forall n | 0 <= n <= |actions| ensures OnceHoweverFinished(bank)(actions[..n]) {
        forall more, order | NoNewRefund(more) ensures DebitWrites(bank, actions[..n] + more, order) <= 1 {
          StaysApartWhenFinished(bank, actions, n, more);
          DebitedAtMostOnce(bank, actions[..n] + more, order);
        }
      }
    }
    if Throughout(actions, OnceHoweverFinished(bank)) {
      forall n | 0 <= n < |actions| ensures NoOverlap(bank)(actions[..n], actions[n]) {
        assert actions[..n + 1] == actions[..n] + [actions[n]];
        assert OnceHoweverFinished(bank)(actions[..n + 1]);
        if !StaysApart(Run(bank, actions[..n]), actions[n]) { OverlapShows(bank, actions[..n], actions[n]); }
      }
    }
  }

  // ----- the debits -----

  function DebitTx(task: Task): Tx
    requires task.Debiting? || task.SavingRefund?
  {
    Tx(task.snapshot.user, DEBIT, task.rupees, Some(RefundReference(task.refundId)))
  }

  predicate Covered(bank: Bank, task: Task)
    requires task.Debiting? || task.SavingRefund?
  {
    CanBeDebited(bank, task.snapshot.user, task.rupees, task.refundId)
  }

  /** Whatever else is going on, a refund's debit goes through exactly when the wallet covers it then. */
  lemma {:induction false} DebitIff(s: State, id: TaskId)
    requires id in s.tasks && s.tasks[id].Debiting?
    ensures var task, bank, t := s.tasks[id], s.store.bank, Next(s, Write(id)).store.bank;
      && t == Wallets.Step(bank, DebitTx(task))
      && |t.ledger| == |bank.ledger| + (if Covered(bank, task) then 1 else 0)
      && Balance(t, task.snapshot.user) == Balance(bank, task.snapshot.user) - (if Covered(bank, task) then task.rupees else 0.0)
  {
  }

  function BothDebit(s: State, a: TaskId, b: TaskId): State {
    Next(Next(s, Write(a)), Write(b))
  }

  /** Of two refunds about to debit both do, exactly when the wallet covers the first, and then what it has left covers the second. */
  lemma {:induction false} OverlappingRefundsBothDebit(s: State, a: TaskId, b: TaskId)
    requires a != b && a in s.tasks && b in s.tasks && s.tasks[a].Debiting? && s.tasks[b].Debiting?
    ensures var x, y, bank, t := s.tasks[a], s.tasks[b], s.store.bank, BothDebit(s, a, b).store.bank;
      && (|t.ledger| == |bank.ledger| + 2 <==> Covered(bank, x) && Covered(Wallets.Step(bank, DebitTx(x)), y))
      && (|t.ledger| == |bank.ledger| + 2 && x.snapshot.user == y.snapshot.user ==>
            Balance(t, x.snapshot.user) == Balance(bank, x.snapshot.user) - x.rupees - y.rupees)
  {
    DebitIff(s, a);
    var t := Next(s, Write(a));
    assert t.tasks[b] == s.tasks[b];
    DebitIff(t, b);
  }

  // ----- the webhook's mark -----

  /** The webhook of a refund marks any payment it finds REFUNDED, credited or not, and moves no money. */
  lemma {:induction false} RefundWebhookMovesNoMoney(bank: Bank, actions: seq<Action>, id: TaskId, order: OrderId)
    requires id !in Run(bank, actions).tasks && order in Run(bank, actions).store.payments
    ensures var st, t := Run(bank, actions).store, Run(bank, actions + [RefundEvent(id, order)] + [Write(id)]).store;
      t == st.(payments := st.payments[order := st.payments[order].(status := REFUNDED)])
  {
    RunSnoc(bank, actions, RefundEvent(id, order));
    RunSnoc(bank, actions + [RefundEvent(id, order)], Write(id));
    var st := Run(bank, actions).store;
    assert st.payments[order].status == REFUNDED ==> st.payments[order := st.payments[order].(status := REFUNDED)] == st.payments;
  }

  /** Every REFUNDED payment had its credit. */
  ghost predicate MarksFollowCredits(st: Store) {
    forall o | o in st.payments && st.payments[o].status == REFUNDED :: st.payments[o].transactionId.Some?
  }

  ghost function MarkedAfter(bank: Bank): seq<Action> -> bool {
    before => MarksFollowCredits(Run(bank, before).store)
  }

  /** The step is the write of a refund webhook to a payment without a transactionId. */
  predicate MarksUncredited(s: State, action: Action) {
    && action.Write? && action.id in s.tasks && s.tasks[action.id].MarkingRefunded?
    && s.tasks[action.id].order in s.store.payments && s.store.payments[s.tasks[action.id].order].transactionId.None?
  }

  function NoUncreditedMark(bank: Bank): (seq<Action>, Action) -> bool {
    (before, action) => !MarksUncredited(Run(bank, before), action)
  }

  lemma {:induction false} StepMarksIff(s: State, action: Action)
    requires StoreInv(s.store) && RefundsFollowCredits(s) && MarksFollowCredits(s.store)
    ensures MarksFollowCredits(Next(s, action).store) <==> !MarksUncredited(s, action)
  {
    var t := Next(s, action).store;
    StepEvolves(s, action);
    if MarksUncredited(s, action) {
      var order := s.tasks[action.id].order;
      assert t.payments[order].status == REFUNDED && t.payments[order].transactionId.None?;
    } else {
      forall o | o in t.payments && t.payments[o].status == REFUNDED ensures t.payments[o].transactionId.Some? {
        if o in s.store.payments && s.store.payments[o].transactionId.Some? {
          assert Later(s.store.payments[o], t.payments[o]);
        } else {
          OnlyMarksMark(s, action, o);
        }
      }
    }
  }

  /** Only two writes set REFUNDED: a refund's own, and the webhook's. */
  lemma {:induction false} OnlyMarksMark(s: State, action: Action, order: OrderId)
    requires order in Next(s, action).store.payments && Next(s, action).store.payments[order].status == REFUNDED
    ensures order in s.store.payments
    ensures s.store.payments[order].status == REFUNDED
      || SavesMark(s, action, order)
  {
  }

  /** In every run, each REFUNDED payment had its credit throughout, exactly when no webhook marks one that had not. */
  lemma {:induction false} RefundedMeansCreditedIff(bank: Bank, actions: seq<Action>)
    ensures Throughout(actions, MarkedAfter(bank)) <==> AtEachTurn(actions, NoUncreditedMark(bank))
  {
    forall before, action | MarkedAfter(bank)(before)
      ensures MarkedAfter(bank)(before + [action]) <==> NoUncreditedMark(bank)(before, action)
    {
      RunSnoc(bank, before, action);
      StoreInvAlways(bank, before);
      RefundsAlwaysFollowCredits(bank, before);
      StepMarksIff(Run(bank, before), action);
    }
    ThroughoutIff(actions, MarkedAfter(bank), NoUncreditedMark(bank));
  }

  // ----- SUCCESS and REFUNDED are lost -----

  ghost predicate IsRefunded(st: Store, order: OrderId) {
    order in st.payments && st.payments[order].status == REFUNDED
  }

  /** The step saves a failure over the order, from a copy that was not FAILED. */
  predicate SavesFailure(s: State, action: Action, order: OrderId) {
    && action.Write? && action.id in s.tasks && s.tasks[action.id].SavingFailure?
    && var task := s.tasks[action.id];
       task.order == order && task.snapshot.status != FAILED && !SaveIsRefused(s.store.payments, order, task.snapshot, task.failed)
  }

  lemma {:induction false} RefundedLostIff(s: State, action: Action, order: OrderId)
    requires IsRefunded(s.store, order)
    ensures IsRefunded(Next(s, action).store, order) <==> !SavesFailure(s, action, order)
  {
  }

  /** The step saves the mark of a refund, its own or a webhook's. */
  predicate SavesMark(s: State, action: Action, order: OrderId) {
    && action.Write? && action.id in s.tasks && (s.tasks[action.id].SavingRefund? || s.tasks[action.id].MarkingRefunded?)
    && s.tasks[action.id].order == order
  }

  ghost predicate IsSuccess(st: Store, order: OrderId) {
    order in st.payments && st.payments[order].status == SUCCESS
  }

  /** SUCCESS is lost to such a failure or to a refund's mark, and to nothing else: not to a failed webhook, nor to another claim. */
  lemma {:induction false} SuccessLostIff(s: State, action: Action, order: OrderId)
    requires IsSuccess(s.store, order)
    ensures IsSuccess(Next(s, action).store, order) <==> !SavesFailure(s, action, order) && !SavesMark(s, action, order)
  {
  }

  ghost function SuccessAfter(bank: Bank, actions: seq<Action>, order: OrderId): seq<Action> -> bool {
    before => IsSuccess(Run(bank, actions + before).store, order)
  }

  function NothingSavedOver(bank: Bank, actions: seq<Action>, order: OrderId): (seq<Action>, Action) -> bool {
    (before, action) => var s := Run(bank, actions + before); !SavesFailure(s, action, order) && !SavesMark(s, action, order)
  }

  lemma {:induction false} SuccessAtItsTurn(bank: Bank, actions: seq<Action>, init: seq<Action>, last: Action, order: OrderId)
    requires SuccessAfter(bank, actions, order)(init)
    ensures SuccessAfter(bank, actions, order)(init + [last]) <==> NothingSavedOver(bank, actions, order)(init, last)
  {
    assert actions + (init + [last]) == (actions + init) + [last];
    RunSnoc(bank, actions + init, last);
    SuccessLostIff(Run(bank, actions + init), last, order);
  }

  /** So a SUCCESS payment stays SUCCESS, throughout any continuation, exactly when neither is saved over it. */
  lemma {:induction false} SuccessStaysIff(bank: Bank, actions: seq<Action>, more: seq<Action>, order: OrderId)
    requires IsSuccess(Run(bank, actions).store, order)
    ensures Throughout(more, SuccessAfter(bank, actions, order)) <==> AtEachTurn(more, NothingSavedOver(bank, actions, order))
  {
    var held, turn := SuccessAfter(bank, actions, order), NothingSavedOver(bank, actions, order);
    assert held([]) by { assert actions + [] == actions; }
    forall init, last | held(init) ensures held(init + [last]) <==> turn(init, last) {
      SuccessAtItsTurn(bank, actions, init, last, order);
    }
    ThroughoutIff(more, held, turn);
  }

  ghost function RefundedAfter(bank: Bank, actions: seq<Action>, order: OrderId): seq<Action> -> bool {
    before => IsRefunded(Run(bank, actions + before).store, order)
  }

  function NoFailureSaved(bank: Bank, actions: seq<Action>, order: OrderId): (seq<Action>, Action) -> bool {
    (before, action) => !SavesFailure(Run(bank, actions + before), action, order)
  }

  lemma {:induction false} RefundedAtItsTurn(bank: Bank, actions: seq<Action>, init: seq<Action>, last: Action, order: OrderId)
    requires RefundedAfter(bank, actions, order)(init)
    ensures RefundedAfter(bank, actions, order)(init + [last]) <==> NoFailureSaved(bank, actions, order)(init, last)
  {
    assert actions + (init + [last]) == (actions + init) + [last];
    RunSnoc(bank, actions + init, last);
    RefundedLostIff(Run(bank, actions + init), last, order);
  }

  /** A REFUNDED payment stays REFUNDED, throughout any continuation, exactly when no such failure is saved. */
  lemma {:induction false} RefundedStaysIff(bank: Bank, actions: seq<Action>, more: seq<Action>, order: OrderId)
    requires IsRefunded(Run(bank, actions).store, order)
    ensures Throughout(more, RefundedAfter(bank, actions, order)) <==> AtEachTurn(more, NoFailureSaved(bank, actions, order))
  {
    var held, turn := RefundedAfter(bank, actions, order), NoFailureSaved(bank, actions, order);
    assert held([]) by { assert actions + [] == actions; }
    forall init, last | held(init) ensures held(init + [last]) <==> turn(init, last) {
      RefundedAtItsTurn(bank, actions, init, last, order);
    }
    ThroughoutIff(more, held, turn);
  }

  /** It takes no interleaving: a verification with a bad signature turns any REFUNDED payment into a FAILED one. */
  lemma {:induction false} BadSignatureUnmarks(bank: Bank, actions: seq<Action>, id: TaskId, order: OrderId)
    requires IsRefunded(Run(bank, actions).store, order) && id !in Run(bank, actions).tasks
    ensures var st := Run(bank, actions).store;
      var t := Run(bank, actions + [VerifyCall(id, order, st.payments[order].user, false)] + [Write(id)]).store;
      t == st.(payments := st.payments[order := st.payments[order].(status := FAILED)])
  {
    var call := VerifyCall(id, order, Run(bank, actions).store.payments[order].user, false);
    RunSnoc(bank, actions, call);
    RunSnoc(bank, actions + [call], Write(id));
  }
}
