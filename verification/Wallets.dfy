/**
 * Wallets and their ledger. One call of applyTransaction is one database transaction here; the
 * steps inside it, interleaved, are the subject of WalletSteps.
 */
module Wallets {
  import opened Prelude
  import opened TopupPolicy

  type UserId = string

  datatype Wallet = Wallet(balance: real, isActive: bool)

  datatype TransactionType =
    | CREDIT | DEBIT | TOPUP | SETTLEMENT | REFUND | CHARGE | COD_CREDIT
    | TRANSFER_DEBIT | TRANSFER_CREDIT | DISPUTE_CHARGE | RTO_CHARGE

  datatype Row = Row(user: UserId, kind: TransactionType, amount: real, balanceBefore: real, balanceAfter: real,
                     reference: Option<string>)

  datatype Bank = Bank(wallets: map<UserId, Wallet>, roles: map<UserId, Role>, ledger: seq<Row>)

  /** `available` and `reserve` are the figures in the error message. */
  datatype WalletError = WalletNotFound | WalletInactive | Insufficient(available: real, reserve: real) | AmountTooSmall

  datatype Movement = Movement(balanceBefore: real, balanceAfter: real)

  /** The bank afterwards, and the ledger row that documents the transaction. */
  datatype Applied = Applied(bank: Bank, row: nat, alreadyProcessed: bool)

  predicate IsDebit(kind: TransactionType) {
    kind == DEBIT || kind == CHARGE || kind == SETTLEMENT || kind == TRANSFER_DEBIT || kind == DISPUTE_CHARGE || kind == RTO_CHARGE
  }

  predicate IsRecharge(kind: TransactionType) {
    kind == TOPUP || kind == TRANSFER_CREDIT
  }

  /** The schema refuses ledger rows below one paisa. */
  const MIN_AMOUNT := 0.01

  function CompletedRecharges(ledger: seq<Row>, user: UserId): nat {
    if ledger == [] then 0
    else
      var last := ledger[|ledger| - 1];
      CompletedRecharges(ledger[..|ledger| - 1], user) + (if last.user == user && IsRecharge(last.kind) then 1 else 0)
  }

  function Balance(b: Bank, user: UserId): real {
    if user in b.wallets then b.wallets[user].balance else 0.0
  }

  function Reserve(b: Bank, user: UserId): real {
    if user in b.roles then ReserveAmount(Balance(b, user), CompletedRecharges(b.ledger, user), b.roles[user]) else 0.0
  }

  /** The oldest row with a reference; an empty reference is none. */
  function FindReference(ledger: seq<Row>, reference: Option<string>): (row: Option<nat>)
    ensures row.Some? ==> row.value < |ledger| && reference != None && reference != Some("")
                          && ledger[row.value].reference == reference
    ensures row.Some? ==> forall i | 0 <= i < row.value :: ledger[i].reference != reference
    ensures row.None? && reference != None && reference != Some("") ==> forall i | 0 <= i < |ledger| :: ledger[i].reference != reference
  {
    if reference == None || reference == Some("") || ledger == [] then None
    else
      var earlier := FindReference(ledger[..|ledger| - 1], reference);
      if earlier.Some? then earlier
      else if ledger[|ledger| - 1].reference == reference then Some(|ledger| - 1)
      else None
  }

  /** What debitWallet or creditWallet does to a balance, or why it refuses. */
  function Move(b: Bank, user: UserId, kind: TransactionType, amount: real): Result<Movement, WalletError>
    requires user in b.wallets
  {
    var balance, reserve := Balance(b, user), Reserve(b, user);
    if !IsDebit(kind) then Ok(Movement(balance, balance + amount))
    else if balance >= amount + reserve then Ok(Movement(balance, balance - amount))
    else Err(Insufficient(if reserve > 0.0 then MaxReal(0.0, balance - reserve) else balance, reserve))
  }

  function ApplyTransaction(b: Bank, user: UserId, kind: TransactionType, amount: real, reference: Option<string>)
    : Result<Applied, WalletError>
  {
    if user !in b.wallets then Err(WalletNotFound)
    else if !b.wallets[user].isActive then Err(WalletInactive)
    else if FindReference(b.ledger, reference).Some? then Ok(Applied(b, FindReference(b.ledger, reference).value, true))
    else
      match Move(b, user, kind, amount)
      case Err(e) => Err(e)
      case Ok(m) =>
        if amount < MIN_AMOUNT then Err(AmountTooSmall)
        else
          var row := Row(user, kind, amount, m.balanceBefore, m.balanceAfter, reference);
          Ok(Applied(Bank(b.wallets[user := Wallet(m.balanceAfter, true)], b.roles, b.ledger + [row]), |b.ledger|, false))
  }

  class FinanceStore {
    var wallets: map<UserId, Wallet>
    var roles: map<UserId, Role>
    var ledger: seq<Row>

    function View(): Bank
      reads this
    {
      Bank(wallets, roles, ledger)
    }

    constructor (b: Bank)
      ensures View() == b
    {
      wallets, roles, ledger := b.wallets, b.roles, b.ledger;
    }

    /** Conditional decrement: the balance must cover the amount and the reserve. */
    method DebitWallet(user: UserId, amount: real) returns (r: Result<Movement, WalletError>)
      requires user in wallets && wallets[user].isActive
      modifies this`wallets
      ensures r == Move(old(View()), user, DEBIT, amount)
      ensures wallets == if r.Ok? then old(wallets)[user := Wallet(r.value.balanceAfter, true)] else old(wallets)
    {
      var reserveAmount := Reserve(View(), user);
      var requiredBalance := amount + reserveAmount;
      if wallets[user].isActive && wallets[user].balance >= requiredBalance {
        wallets := wallets[user := wallets[user].(balance := wallets[user].balance - amount)];
        var balanceAfter := wallets[user].balance;
        return Ok(Movement(balanceAfter + amount, balanceAfter));
      }
      if reserveAmount > 0.0 {
        return Err(Insufficient(MaxReal(0.0, wallets[user].balance - reserveAmount), reserveAmount));
      }
      return Err(Insufficient(wallets[user].balance, reserveAmount));
    }

    method CreditWallet(user: UserId, amount: real) returns (m: Movement)
      requires user in wallets && wallets[user].isActive
      modifies this`wallets
      ensures Ok(m) == Move(old(View()), user, CREDIT, amount)
      ensures wallets == old(wallets)[user := Wallet(m.balanceAfter, true)]
    {
      wallets := wallets[user := wallets[user].(balance := wallets[user].balance + amount)];
      var balanceAfter := wallets[user].balance;
      m := Movement(balanceAfter - amount, balanceAfter);
    }

    method MoveBalance(user: UserId, kind: TransactionType, amount: real) returns (r: Result<Movement, WalletError>)
      requires user in wallets && wallets[user].isActive
      modifies this`wallets
      ensures r == Move(old(View()), user, kind, amount)
      ensures wallets == if r.Ok? then old(wallets)[user := Wallet(r.value.balanceAfter, true)] else old(wallets)
    {
      if IsDebit(kind) {
        r := DebitWallet(user, amount);
      } else {
        var m := CreditWallet(user, amount);
        r := Ok(m);
      }
    }

    /** Inside a transaction: an error leaves everything as it was. */
    method Apply(user: UserId, kind: TransactionType, amount: real, reference: Option<string>)
      returns (r: Result<(nat, bool), WalletError>)
      modifies this`wallets, this`ledger
      ensures var spec := ApplyTransaction(old(View()), user, kind, amount, reference);
        && (spec.Err? ==> r == Err(spec.error) && View() == old(View()))
        && (spec.Ok? ==> r == Ok((spec.value.row, spec.value.alreadyProcessed)) && View() == spec.value.bank)
    {
      if user !in wallets {
        return Err(WalletNotFound);
      }
      if !wallets[user].isActive {
        return Err(WalletInactive);
      }
      var existing := FindReference(ledger, reference);
      if existing.Some? {
        return Ok((existing.value, true));
      }
      var snapshot := wallets;
      var moved := MoveBalance(user, kind, amount);
      if moved.Err? {
        return Err(moved.error);
      }
      var m := moved.value;
      if amount < MIN_AMOUNT {
        wallets := snapshot;
        return Err(AmountTooSmall);
      }
      ledger := ledger + [Row(user, kind, amount, m.balanceBefore, m.balanceAfter, reference)];
      return Ok((|ledger| - 1, false));
    }
  }

  // ----- runs -----

  datatype Tx = Tx(user: UserId, kind: TransactionType, amount: real, reference: Option<string>)

  function Step(b: Bank, t: Tx): Bank {
    var r := ApplyTransaction(b, t.user, t.kind, t.amount, t.reference);
    if r.Ok? then r.value.bank else b
  }

  function After(b: Bank, txs: seq<Tx>): Bank {
    if txs == [] then b else Step(After(b, txs[..|txs| - 1]), txs[|txs| - 1])
  }

  function Signed(r: Row): real {
    if IsDebit(r.kind) then -r.amount else r.amount
  }

  /** Credits less debits of one user. */
  function Net(ledger: seq<Row>, user: UserId): real {
    if ledger == [] then 0.0
    else
      var last := ledger[|ledger| - 1];
      Net(ledger[..|ledger| - 1], user) + (if last.user == user then Signed(last) else 0.0)
  }

  /** The steps a transaction can take: none, or one new row that moves one wallet accordingly. */
  lemma StepCases(b: Bank, t: Tx)
    ensures Step(b, t) == b
      || (&& t.user in b.wallets && t.amount >= MIN_AMOUNT
          && FindReference(b.ledger, t.reference).None?
          && (IsDebit(t.kind) ==> Balance(b, t.user) >= t.amount + Reserve(b, t.user))
          && var after := Balance(b, t.user) + (if IsDebit(t.kind) then -t.amount else t.amount);
             Step(b, t) == Bank(b.wallets[t.user := Wallet(after, true)], b.roles,
                                b.ledger + [Row(t.user, t.kind, t.amount, Balance(b, t.user), after, t.reference)]))
  {
  }

  lemma {:induction false} SnocRow(ledger: seq<Row>, r: Row, user: UserId)
    ensures Net(ledger + [r], user) == Net(ledger, user) + (if r.user == user then Signed(r) else 0.0)
    ensures CompletedRecharges(ledger + [r], user)
         == CompletedRecharges(ledger, user) + (if r.user == user && IsRecharge(r.kind) then 1 else 0)
  {
    assert (ledger + [r])[..|ledger|] == ledger;
  }

  lemma {:induction false} StepConserves(b: Bank, t: Tx, user: UserId)
    ensures Balance(Step(b, t), user) - Net(Step(b, t).ledger, user) == Balance(b, user) - Net(b.ledger, user)
  {
    StepCases(b, t);
    if Step(b, t) != b { SnocRow(b.ledger, Step(b, t).ledger[|b.ledger|], user); }
  }

  /** In every run, what a balance has gained is what its ledger rows say. */
  lemma {:induction false} BalancesMatchLedger(b: Bank, txs: seq<Tx>, user: UserId)
    ensures Balance(After(b, txs), user) - Balance(b, user) == Net(After(b, txs).ledger, user) - Net(b.ledger, user)
  {
    if txs != [] {
      BalancesMatchLedger(b, txs[..|txs| - 1], user);
      StepConserves(After(b, txs[..|txs| - 1]), txs[|txs| - 1], user);
    }
  }

  /** One user's rows, as they lie in the ledger, lead from `opening` to `closing` without a gap. */
  ghost predicate RowsChain(opening: real, rows: seq<Row>, user: UserId, closing: real) {
    if rows == [] then opening == closing
    else
      var init, last := rows[..|rows| - 1], rows[|rows| - 1];
      if last.user != user then RowsChain(opening, init, user, closing)
      else
        && last.balanceAfter == closing
        && last.balanceAfter == last.balanceBefore + Signed(last)
        && RowsChain(opening, init, user, last.balanceBefore)
  }

  /** With one database transaction at a time, the new rows of each user chain as they lie, up to the stored balance. */
  lemma {:induction false} RowsChainAsTheyLie(b: Bank, txs: seq<Tx>, user: UserId)
    ensures var c := After(b, txs);
      b.ledger <= c.ledger && RowsChain(Balance(b, user), c.ledger[|b.ledger|..], user, Balance(c, user))
  {
    if txs != [] {
      var c, t := After(b, txs[..|txs| - 1]), txs[|txs| - 1];
      RowsChainAsTheyLie(b, txs[..|txs| - 1], user);
      StepCases(c, t);
      var d := Step(c, t);
      if d != c {
        assert d.ledger[|b.ledger|..][..|c.ledger| - |b.ledger|] == c.ledger[|b.ledger|..];
        assert d.ledger[|b.ledger|..][|c.ledger| - |b.ledger|] == d.ledger[|c.ledger|];
      }
    }
  }

  ghost predicate NonNegative(b: Bank) {
    forall u | u in b.wallets :: b.wallets[u].balance >= 0.0
  }

  lemma {:induction false} NeverNegative(b: Bank, txs: seq<Tx>)
    requires NonNegative(b)
    ensures NonNegative(After(b, txs))
  {
    if txs != [] {
      NeverNegative(b, txs[..|txs| - 1]);
      StepCases(After(b, txs[..|txs| - 1]), txs[|txs| - 1]);
    }
  }

  /** A reference is charged once: applying it again changes nothing and returns the first row. */
  lemma {:induction false} ReferenceAppliesOnce(b: Bank, t: Tx, again: Tx)
    requires t.reference.Some? && t.reference != Some("") && again.reference == t.reference
    requires ApplyTransaction(b, t.user, t.kind, t.amount, t.reference).Ok?
    ensures Step(Step(b, t), again) == Step(b, t)
    ensures var r := ApplyTransaction(Step(b, t), again.user, again.kind, again.amount, again.reference);
      r.Ok? ==> r.value.row == ApplyTransaction(b, t.user, t.kind, t.amount, t.reference).value.row
  {
    StepCases(b, t);
    if Step(b, t) != b {
      assert Step(b, t).ledger[..|b.ledger|] == b.ledger;
    }
  }

  // ----- the reserve -----

  /** What a wallet must keep: 1000 from its second recharge on, or from one recharge on at 1200 or more, for merchants and distributors. */
  function Locked(b: Bank, user: UserId): real {
    var recharges := CompletedRecharges(b.ledger, user);
    if user in b.roles && (b.roles[user] == MERCHANT || b.roles[user] == DISTRIBUTOR)
       && (recharges >= 2 || (recharges == 1 && Balance(b, user) >= 1200.0))
    then 1000.0 else 0.0
  }

  predicate TakesMoney(kind: TransactionType) {
    kind in {DEBIT, CHARGE, SETTLEMENT, TRANSFER_DEBIT, DISPUTE_CHARGE, RTO_CHARGE}
  }

  /** The figures a wallet is shown with, and that a new debit is accepted exactly when it is active and what it shows as available covers it. */
  lemma {:induction false} DebitAcceptedIffAvailable(b: Bank, t: Tx)
    requires t.user in b.wallets && t.user in b.roles && TakesMoney(t.kind) && t.amount >= 0.01
    requires FindReference(b.ledger, t.reference).None?
    ensures var shown := DecorateWalletForRole(Balance(b, t.user), CompletedRecharges(b.ledger, t.user), b.roles[t.user]);
      var free := Balance(b, t.user) - Locked(b, t.user);
      && shown.reservedBalance == Locked(b, t.user)
      && shown.availableBalance == (if free < 0.0 then 0.0 else free)
      && var r := ApplyTransaction(b, t.user, t.kind, t.amount, t.reference);
         && (r.Ok? <==> b.wallets[t.user].isActive && t.amount <= shown.availableBalance)
         && (r.Err? && b.wallets[t.user].isActive ==>
               r.error.Insufficient? && r.error.reserve == Locked(b, t.user)
               && (Balance(b, t.user) >= 0.0 ==> r.error.available == shown.availableBalance))
  {
  }

  /** A transaction goes through for an open wallet, a new reference and at least a paisa, and takes no money that is locked. */
  predicate GoesThrough(b: Bank, t: Tx) {
    && t.user in b.wallets && b.wallets[t.user].isActive
    && FindReference(b.ledger, t.reference).None? && t.amount >= 0.01
    && (TakesMoney(t.kind) ==> t.amount + Locked(b, t.user) <= Balance(b, t.user))
  }

  /** It does anything exactly then, and what it does to balance, recharges and ledger of its user. */
  lemma {:induction false} TransactionEffect(b: Bank, t: Tx)
    ensures var c := Step(b, t);
      && (c != b <==> GoesThrough(b, t))
      && (GoesThrough(b, t) ==>
            && |c.ledger| == |b.ledger| + 1
            && Balance(c, t.user) == Balance(b, t.user) + (if TakesMoney(t.kind) then -t.amount else t.amount)
            && CompletedRecharges(c.ledger, t.user) == CompletedRecharges(b.ledger, t.user)
               + (if t.kind == TOPUP || t.kind == TRANSFER_CREDIT then 1 else 0))
  {
    if GoesThrough(b, t) { SnocRow(b.ledger, Step(b, t).ledger[|b.ledger|], t.user); }
  }

  predicate InTraining(b: Bank, user: UserId) {
    user in b.wallets && user in b.roles && IsTrainingWalletRole(b.roles[user])
  }

  /** Two completed recharges oblige the wallet to hold the reserve. */
  ghost predicate ReserveHeld(b: Bank, user: UserId) {
    InTraining(b, user) && CompletedRecharges(b.ledger, user) >= 2 ==> Balance(b, user) >= WALLET_RESERVE_AMOUNT
  }

  /** The one way to lose it: an accepted second recharge that does not bring the balance up to the reserve. */
  predicate LosesReserve(b: Bank, t: Tx, user: UserId) {
    && t.user == user && InTraining(b, user) && b.wallets[user].isActive
    && IsRecharge(t.kind) && t.amount >= MIN_AMOUNT && FindReference(b.ledger, t.reference).None?
    && CompletedRecharges(b.ledger, user) == 1 && Balance(b, user) + t.amount < WALLET_RESERVE_AMOUNT
  }

  lemma {:induction false} ReserveLostIff(b: Bank, t: Tx, user: UserId)
    requires ReserveHeld(b, user)
    ensures ReserveHeld(Step(b, t), user) <==> !LosesReserve(b, t, user)
  {
    StepCases(b, t);
    if Step(b, t) != b {
      SnocRow(b.ledger, Step(b, t).ledger[|b.ledger|], user);
      assert t.user in b.wallets;
    }
    if LosesReserve(b, t, user) {
      assert Step(b, t).ledger[|b.ledger|].amount == t.amount;
    }
  }

  ghost function HeldAfter(b: Bank, user: UserId): seq<Tx> -> bool {
    before => ReserveHeld(After(b, before), user)
  }

  function SparesReserve(b: Bank, user: UserId): (seq<Tx>, Tx) -> bool {
    (before, t) => !LosesReserve(After(b, before), t, user)
  }

  /** Over a whole run the reserve is held throughout exactly when no transaction is such a recharge at its turn. */
  lemma {:induction false} ReserveHeldThroughoutIff(b: Bank, txs: seq<Tx>, user: UserId)
    requires ReserveHeld(b, user)
    ensures Throughout(txs, HeldAfter(b, user)) <==> AtEachTurn(txs, SparesReserve(b, user))
  {
    forall before, t | HeldAfter(b, user)(before)
      ensures HeldAfter(b, user)(before + [t]) <==> SparesReserve(b, user)(before, t)
    {
      assert (before + [t])[..|before|] == before;
      ReserveLostIff(After(b, before), t, user);
    }
    ThroughoutIff(txs, HeldAfter(b, user), SparesReserve(b, user));
  }

  /** Every recharge passes the top-up policy against the balance it is credited to. */
  function FollowsPolicy(b: Bank): (seq<Tx>, Tx) -> bool {
    (before, t) => PassesPolicy(After(b, before), t)
  }

  predicate PassesPolicy(b: Bank, t: Tx) {
    IsRecharge(t.kind) && t.user in b.roles ==>
      ValidateTopupAmount(Balance(b, t.user), CompletedRecharges(b.ledger, t.user), b.roles[t.user], t.amount).Ok?
  }

  lemma {:induction false} ReserveKept(b: Bank, txs: seq<Tx>, user: UserId)
    requires ReserveHeld(b, user) && AtEachTurn(txs, FollowsPolicy(b))
    ensures Throughout(txs, HeldAfter(b, user))
  {
    forall n | 0 <= n < |txs| ensures SparesReserve(b, user)(txs[..n], txs[n]) {
      var c, t := After(b, txs[..n]), txs[n];
      assert FollowsPolicy(b)(txs[..n], t);
      if t.user in c.roles { TopupRule(Balance(c, t.user), CompletedRecharges(c.ledger, t.user), c.roles[t.user], t.amount); }
    }
    ReserveHeldThroughoutIff(b, txs, user);
  }

  const NEW_MERCHANT := Bank(map["m" := Wallet(0.0, true)], map["m" := MERCHANT], [])
  const ONE_RUPEE_TRANSFER := Tx("m", TRANSFER_CREDIT, 1.0, None)
  const FIRST_ROW := Row("m", TRANSFER_CREDIT, 1.0, 0.0, 1.0, None)

  lemma {:induction false} AfterOneTransfer()
    ensures Step(NEW_MERCHANT, ONE_RUPEE_TRANSFER) == Bank(map["m" := Wallet(1.0, true)], map["m" := MERCHANT], [FIRST_ROW])
    ensures CompletedRecharges([FIRST_ROW], "m") == 1
  {
    var b := NEW_MERCHANT;
    assert ApplyTransaction(b, "m", TRANSFER_CREDIT, 1.0, None).Ok?;
    assert b.wallets["m" := Wallet(1.0, true)] == map["m" := Wallet(1.0, true)];
    assert b.ledger + [FIRST_ROW] == [FIRST_ROW];
    SnocRow([], FIRST_ROW, "m");
    assert [] + [FIRST_ROW] == [FIRST_ROW];
  }

  /** Distributor transfers are recharges that nobody checks against the policy: two of one rupee void the reserve. */
  lemma UncheckedTransfersVoidTheReserve()
    ensures ReserveHeld(NEW_MERCHANT, "m")
    ensures !ReserveHeld(After(NEW_MERCHANT, [ONE_RUPEE_TRANSFER, ONE_RUPEE_TRANSFER]), "m")
  {
    var once := Step(NEW_MERCHANT, ONE_RUPEE_TRANSFER);
    AfterOneTransfer();
    assert LosesReserve(once, ONE_RUPEE_TRANSFER, "m");
    ReserveLostIff(once, ONE_RUPEE_TRANSFER, "m");
    var two := [ONE_RUPEE_TRANSFER, ONE_RUPEE_TRANSFER];
    assert two[..1][..0] == [] && two[..1][0] == ONE_RUPEE_TRANSFER;
    assert After(NEW_MERCHANT, two[..1]) == once;
    assert After(NEW_MERCHANT, two) == Step(once, ONE_RUPEE_TRANSFER);
  }
}
