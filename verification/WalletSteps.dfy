/**
 * Concurrent debits and credits of one wallet, outside any database transaction: each is a read of
 * the wallet, a conditional increment of the stored balance, and the insertion of a ledger row,
 * with anything in between.
 */
module WalletSteps {
  import opened Prelude
  import opened TopupPolicy
  import opened Wallets

  type ActorId = nat

  datatype Direction = Debit | Credit

  datatype Entry = Entry(direction: Direction, amount: real, balanceBefore: real, balanceAfter: real)

  /**
   * Where an actor stands. Loaded holds its copy of the wallet's balance; Missed, that the increment
   * found no matching wallet; Moved, that the balance changed (as move number `index`) and its row is not written.
   */
  datatype Phase =
    | Loaded(direction: Direction, amount: real, snapshot: real)
    | Missed(missed: Direction, reserve: real)
    | Moved(entry: Entry, index: nat)
    | Recorded
    | Unrecorded(lost: Entry, lostIndex: nat)
    | Refused(error: WalletError)
    | Crashed

  /** `moves` and `order` are history variables: every increment in order, and per ledger row the move it records. */
  datatype State = State(wallet: Wallet, role: Role, actors: map<ActorId, Phase>, ledger: seq<Entry>,
                         moves: seq<Entry>, order: seq<nat>)

  /** `completed` is what the count of recharges happened to be when the policy was consulted. */
  datatype Step =
    | Load(id: ActorId, direction: Direction, amount: real)
    | Increment(id: ActorId, completed: nat)
    | Explain(id: ActorId)
    | Insert(id: ActorId)
    | SetActive(active: bool)

  function Change(e: Entry): real {
    if e.direction.Debit? then -e.amount else e.amount
  }

  function DoLoad(s: State, id: ActorId, direction: Direction, amount: real): State {
    if id in s.actors then s
    else if s.wallet.isActive then s.(actors := s.actors[id := Loaded(direction, amount, s.wallet.balance)])
    else s.(actors := s.actors[id := Refused(WalletInactive)])
  }

  predicate Matches(w: Wallet, direction: Direction, amount: real, reserve: real) {
    w.isActive && (direction.Debit? ==> w.balance >= amount + reserve)
  }

  function DoIncrement(s: State, id: ActorId, completed: nat): State {
    if id !in s.actors || !s.actors[id].Loaded? then s
    else
      var me := s.actors[id];
      var reserve := if me.direction.Debit? then ReserveAmount(me.snapshot, completed, s.role) else 0.0;
      if !Matches(s.wallet, me.direction, me.amount, reserve) then
        s.(actors := s.actors[id := Missed(me.direction, reserve)])
      else
        var after := if me.direction.Debit? then s.wallet.balance - me.amount else s.wallet.balance + me.amount;
        var entry := Entry(me.direction, me.amount, s.wallet.balance, after);
        s.(wallet := Wallet(after, true),
           actors := s.actors[id := Moved(entry, |s.moves|)],
           moves := s.moves + [entry])
  }

  /** Why a second read says nothing matched. A credit that finds the wallet active again has no wallet to go on with. */
  function Explanation(w: Wallet, direction: Direction, reserve: real): Phase {
    if !w.isActive then Refused(WalletInactive)
    else if direction.Credit? then Crashed
    else Refused(Insufficient(if reserve > 0.0 then MaxReal(0.0, w.balance - reserve) else w.balance, reserve))
  }

  function DoExplain(s: State, id: ActorId): State {
    if id !in s.actors || !s.actors[id].Missed? then s
    else s.(actors := s.actors[id := Explanation(s.wallet, s.actors[id].missed, s.actors[id].reserve)])
  }

  /** The schema refuses a row below one paisa, and then nothing records the move. */
  function DoInsert(s: State, id: ActorId): State {
    if id !in s.actors || !s.actors[id].Moved? then s
    else
      var entry, index := s.actors[id].entry, s.actors[id].index;
      if entry.amount < MIN_AMOUNT then s.(actors := s.actors[id := Unrecorded(entry, index)])
      else s.(actors := s.actors[id := Recorded], ledger := s.ledger + [entry], order := s.order + [index])
  }

  function Next(s: State, step: Step): State {
    match step
    case Load(id, direction, amount) => DoLoad(s, id, direction, amount)
    case Increment(id, completed) => DoIncrement(s, id, completed)
    case Explain(id) => DoExplain(s, id)
    case Insert(id) => DoInsert(s, id)
    case SetActive(active) => s.(wallet := s.wallet.(isActive := active))
  }

  function Opening(opening: Wallet, role: Role): State {
    State(opening, role, map[], [], [], [])
  }

  function After(opening: Wallet, role: Role, steps: seq<Step>): State {
    if steps == [] then Opening(opening, role)
    else Next(After(opening, role, steps[..|steps| - 1]), steps[|steps| - 1])
  }

  /** The stored wallet, its ledger and the actors at work on them; each method runs between two awaits. */
  class WalletDocument {
    var balance: real
    var isActive: bool
    const role: Role
    var actors: map<ActorId, Phase>
    var ledger: seq<Entry>
    var moves: seq<Entry>
    var order: seq<nat>

    function View(): State
      reads this
    {
      State(Wallet(balance, isActive), role, actors, ledger, moves, order)
    }

    constructor (opening: Wallet, role: Role)
      ensures View() == Opening(opening, role)
    {
      balance, isActive, this.role := opening.balance, opening.isActive, role;
      actors, ledger, moves, order := map[], [], [], [];
    }

    method Find(id: ActorId, direction: Direction, amount: real)
      requires id !in actors
      modifies this`actors
      ensures View() == Next(old(View()), Load(id, direction, amount))
    {
      if isActive {
        actors := actors[id := Loaded(direction, amount, balance)];
      } else {
        actors := actors[id := Refused(WalletInactive)];
      }
    }

    /** findOneAndUpdate: the balances of the move come from the wallet as it is now, not from the actor's copy. */
    method FindOneAndUpdate(id: ActorId, completed: nat)
      requires id in actors && actors[id].Loaded?
      modifies this
      ensures View() == Next(old(View()), Increment(id, completed))
    {
      var me := actors[id];
      var reserve := 0.0;
      if me.direction.Debit? {
        reserve := ReserveAmount(me.snapshot, completed, role);
        if !isActive || balance < me.amount + reserve {
          actors := actors[id := Missed(Debit, reserve)];
          return;
        }
        balance := balance - me.amount;
      } else {
        if !isActive {
          actors := actors[id := Missed(Credit, reserve)];
          return;
        }
        balance := balance + me.amount;
      }
      var before := if me.direction.Debit? then balance + me.amount else balance - me.amount;
      var entry := Entry(me.direction, me.amount, before, balance);
      actors := actors[id := Moved(entry, |moves|)];
      moves := moves + [entry];
    }

    /** The second read after an increment that matched nothing. */
    method FindById(id: ActorId)
      requires id in actors && actors[id].Missed?
      modifies this`actors
      ensures View() == Next(old(View()), Explain(id))
    {
      var direction, reserve := actors[id].missed, actors[id].reserve;
      if !isActive {
        actors := actors[id := Refused(WalletInactive)];
        return;
      }
      if direction.Credit? {
        actors := actors[id := Crashed];
        return;
      }
      var available := balance;
      if reserve > 0.0 {
        available := MaxReal(0.0, balance - reserve);
      }
      actors := actors[id := Refused(Insufficient(available, reserve))];
    }

    method CreateTransaction(id: ActorId)
      requires id in actors && actors[id].Moved?
      modifies this
      ensures View() == Next(old(View()), Insert(id))
    {
      var entry, index := actors[id].entry, actors[id].index;
      if entry.amount < MIN_AMOUNT {
        actors := actors[id := Unrecorded(entry, index)];
        return;
      }
      actors := actors[id := Recorded];
      ledger := ledger + [entry];
      order := order + [index];
    }
  }

  // ----- the increments -----

  /** What a step keeps back: 1000 for a merchant or distributor with two recharges, or with one and 1200 in the copy that was loaded. */
  function Locked(role: Role, completed: nat, snapshot: real): real {
    if (role == MERCHANT || role == DISTRIBUTOR) && (completed >= 2 || (completed == 1 && snapshot >= 1200.0)) then 1000.0 else 0.0
  }

  /** An increment goes through exactly when the wallet, as it is now, is active, and after a debit what the debit's copy locks is left. */
  lemma {:induction false} IncrementMovesIff(s: State, id: ActorId, completed: nat)
    requires id in s.actors && s.actors[id].Loaded?
    ensures var me, t := s.actors[id], Next(s, Increment(id, completed));
      && id in t.actors && (t.actors[id].Moved? || t.actors[id].Missed?)
      && (t.actors[id].Moved? <==>
            s.wallet.isActive && (me.direction.Debit? ==> me.amount + Locked(s.role, completed, me.snapshot) <= s.wallet.balance))
      && t.wallet.balance == (if t.actors[id].Missed? then s.wallet.balance
                              else if me.direction.Debit? then s.wallet.balance - me.amount else s.wallet.balance + me.amount)
  {
  }

  /**
   * With nothing in between, a miss is explained by what caused it: an inactive wallet, or too little available. A credit
   * crashes only where a wallet that was inactive at its increment is active again at the second read.
   */
  lemma {:induction false} MissIsExplained(s: State, id: ActorId, completed: nat)
    requires id in s.actors && s.actors[id].Loaded?
    ensures var me, locked := s.actors[id], Locked(s.role, completed, s.actors[id].snapshot);
      var missed := Next(s, Increment(id, completed));
      var told, later := Next(missed, Explain(id)), Next(Next(missed, SetActive(true)), Explain(id));
      && id in told.actors && id in later.actors
      && (!s.wallet.isActive ==> told.actors[id] == Refused(WalletInactive))
      && (s.wallet.isActive && me.direction.Debit? && s.wallet.balance < me.amount + locked ==>
            told.actors[id] == Refused(Insufficient(if locked == 0.0 then s.wallet.balance
                                                    else if s.wallet.balance < 1000.0 then 0.0 else s.wallet.balance - 1000.0, locked)))
      && !told.actors[id].Crashed?
      && (later.actors[id].Crashed? <==> me.direction.Credit? && !s.wallet.isActive)
  {
  }

  function Total(entries: seq<Entry>): real {
    if entries == [] then 0.0 else Total(entries[..|entries| - 1]) + Change(entries[|entries| - 1])
  }

  /** Each entry starts from the balance the one before it left, from `opening` to `closing`. */
  ghost predicate IsChain(opening: real, entries: seq<Entry>, closing: real) {
    if entries == [] then opening == closing
    else
      var last := entries[|entries| - 1];
      && last.balanceAfter == closing
      && last.balanceAfter == last.balanceBefore + Change(last)
      && IsChain(opening, entries[..|entries| - 1], last.balanceBefore)
  }

  /** In every interleaving the increments form one unbroken chain to the balance now stored. */
  lemma {:induction false} MovesFormAChain(opening: Wallet, role: Role, steps: seq<Step>)
    ensures var s := After(opening, role, steps);
      IsChain(opening.balance, s.moves, s.wallet.balance)
  {
    if steps != [] {
      MovesFormAChain(opening, role, steps[..|steps| - 1]);
      var s, t := After(opening, role, steps[..|steps| - 1]), After(opening, role, steps);
      if t.moves != s.moves {
        assert t.moves[..|s.moves|] == s.moves;
      }
    }
  }

  lemma {:induction false} ChainTotal(opening: real, entries: seq<Entry>, closing: real)
    requires IsChain(opening, entries, closing)
    ensures closing == opening + Total(entries)
  {
    if entries != [] {
      ChainTotal(opening, entries[..|entries| - 1], entries[|entries| - 1].balanceBefore);
    }
  }

  ghost predicate NoNegativeAmounts(steps: seq<Step>) {
    forall i | 0 <= i < |steps| && steps[i].Load? :: steps[i].amount >= 0.0
  }

  ghost predicate Sound(s: State) {
    && s.wallet.balance >= 0.0
    && (forall id | id in s.actors && s.actors[id].Loaded? :: s.actors[id].amount >= 0.0)
    && (forall k | 0 <= k < |s.moves| :: s.moves[k].balanceBefore >= 0.0 && s.moves[k].balanceAfter >= 0.0)
  }

  /** No interleaving, with however stale a reserve, takes the balance or a recorded balance below zero. */
  lemma {:induction false} BalanceNeverNegative(opening: Wallet, role: Role, steps: seq<Step>)
    requires opening.balance >= 0.0 && NoNegativeAmounts(steps)
    ensures Sound(After(opening, role, steps))
  {
    if steps != [] {
      BalanceNeverNegative(opening, role, steps[..|steps| - 1]);
      var s, step := After(opening, role, steps[..|steps| - 1]), steps[|steps| - 1];
      assert step.Load? ==> step.amount >= 0.0;
    }
  }

  // ----- the ledger -----

  /** The move an actor has made and not recorded. */
  function Pending(p: Phase): Option<nat> {
    match p
    case Moved(_, index) => Some(index)
    case Unrecorded(_, index) => Some(index)
    case _ => None
  }

  ghost predicate RowsFollow(rows: seq<Entry>, order: seq<nat>, moves: seq<Entry>) {
    |rows| == |order| && forall i | 0 <= i < |order| :: order[i] < |moves| && rows[i] == moves[order[i]]
  }

  predicate IsPending(s: State, id: ActorId) {
    id in s.actors && Pending(s.actors[id]).Some?
  }

  ghost predicate PendingAreMoves(s: State) {
    forall id | IsPending(s, id) ::
      var index := Pending(s.actors[id]).value;
      && index < |s.moves|
      && (s.actors[id].Moved? ==> s.actors[id].entry == s.moves[index])
  }

  ghost predicate EachMoveOnce(s: State) {
    && (forall i, j | 0 <= i < j < |s.order| :: s.order[i] != s.order[j])
    && (forall id, i | IsPending(s, id) && 0 <= i < |s.order| :: Pending(s.actors[id]).value != s.order[i])
    && (forall a, b | IsPending(s, a) && IsPending(s, b) && a != b :: Pending(s.actors[a]).value != Pending(s.actors[b]).value)
  }

  ghost predicate IsRecorded(s: State, k: nat) {
    k in s.order
  }

  ghost predicate PendingAt(s: State, k: nat) {
    exists id :: IsPending(s, id) && Pending(s.actors[id]).value == k
  }

  ghost predicate NoMoveLost(s: State) {
    forall k | 0 <= k < |s.moves| :: IsRecorded(s, k) || PendingAt(s, k)
  }

  ghost predicate LedgerInv(s: State) {
    RowsFollow(s.ledger, s.order, s.moves) && PendingAreMoves(s) && EachMoveOnce(s) && NoMoveLost(s)
  }

  lemma {:induction false} OthersKeepPending(s: State, t: State, id: ActorId)
    requires forall a | a != id :: IsPending(t, a) == IsPending(s, a) && (IsPending(s, a) ==> t.actors[a] == s.actors[a])
    requires !IsPending(s, id)
    ensures forall k | PendingAt(s, k) :: PendingAt(t, k)
  {
    forall k | PendingAt(s, k) ensures PendingAt(t, k) {
      var a :| IsPending(s, a) && Pending(s.actors[a]).value == k;
      assert IsPending(t, a);
    }
  }

  /** A step that makes no move and leaves every pending actor alone. */
  lemma QuietKeepsLedger(s: State, t: State, id: ActorId)
    requires LedgerInv(s) && t.moves == s.moves && t.ledger == s.ledger && t.order == s.order
    requires forall a | a != id :: IsPending(t, a) == IsPending(s, a) && (IsPending(s, a) ==> t.actors[a] == s.actors[a])
    requires !IsPending(s, id) && !IsPending(t, id)
    ensures LedgerInv(t)
  {
    OthersKeepPending(s, t, id);
    forall k | 0 <= k < |t.moves| ensures IsRecorded(t, k) || PendingAt(t, k) {
      assert IsRecorded(s, k) || PendingAt(s, k);
    }
  }

  lemma IncrementKeepsLedger(s: State, id: ActorId, completed: nat)
    requires LedgerInv(s)
    ensures LedgerInv(DoIncrement(s, id, completed))
  {
    var t := DoIncrement(s, id, completed);
    if t.moves == s.moves {
      if t != s { QuietKeepsLedger(s, t, id); }
    } else {
      OthersKeepPending(s, t, id);
      forall k | 0 <= k < |t.moves| ensures IsRecorded(t, k) || PendingAt(t, k) {
        if k < |s.moves| {
          assert IsRecorded(s, k) || PendingAt(s, k);
        } else {
          assert IsPending(t, id) && Pending(t.actors[id]).value == k;
        }
      }
    }
  }

  lemma RefusedRowKeepsLedger(s: State, id: ActorId)
    requires LedgerInv(s) && id in s.actors && s.actors[id].Moved? && s.actors[id].entry.amount < MIN_AMOUNT
    ensures LedgerInv(DoInsert(s, id))
  {
    var t := DoInsert(s, id);
    assert forall a :: IsPending(t, a) == IsPending(s, a) && (IsPending(s, a) ==> Pending(t.actors[a]) == Pending(s.actors[a]));
    forall k | 0 <= k < |t.moves| ensures IsRecorded(t, k) || PendingAt(t, k) {
      assert IsRecorded(s, k) || PendingAt(s, k);
      if a :| IsPending(s, a) && Pending(s.actors[a]).value == k { assert IsPending(t, a); }
    }
  }

  lemma NewRowLosesNothing(s: State, id: ActorId)
    requires LedgerInv(s) && id in s.actors && s.actors[id].Moved? && s.actors[id].entry.amount >= MIN_AMOUNT
    ensures NoMoveLost(DoInsert(s, id))
  {
    var t := DoInsert(s, id);
    forall k | 0 <= k < |t.moves| ensures IsRecorded(t, k) || PendingAt(t, k) {
      assert IsRecorded(s, k) || PendingAt(s, k);
      if IsRecorded(s, k) || k == s.actors[id].index {
        assert t.order == s.order + [s.actors[id].index];
      } else if a :| IsPending(s, a) && Pending(s.actors[a]).value == k {
        assert IsPending(t, a);
      }
    }
  }

  lemma NewRowKeepsLedger(s: State, id: ActorId)
    requires LedgerInv(s) && id in s.actors && s.actors[id].Moved? && s.actors[id].entry.amount >= MIN_AMOUNT
    ensures LedgerInv(DoInsert(s, id))
  {
    var t := DoInsert(s, id);
    assert IsPending(s, id) && !IsPending(t, id);
    assert forall a | a != id :: IsPending(t, a) == IsPending(s, a) && (IsPending(s, a) ==> t.actors[a] == s.actors[a]);
    NewRowLosesNothing(s, id);
  }

  lemma {:induction false} LedgerInvAlways(opening: Wallet, role: Role, steps: seq<Step>)
    ensures LedgerInv(After(opening, role, steps))
  {
    if steps != [] {
      LedgerInvAlways(opening, role, steps[..|steps| - 1]);
      var s, t := After(opening, role, steps[..|steps| - 1]), After(opening, role, steps);
      match steps[|steps| - 1]
      case Load(id, direction, amount) => if t != s { QuietKeepsLedger(s, t, id); }
      case Increment(id, completed) => IncrementKeepsLedger(s, id, completed);
      case Explain(id) => if t != s { QuietKeepsLedger(s, t, id); }
      case Insert(id) =>
        if t != s {
          if s.actors[id].entry.amount < MIN_AMOUNT { RefusedRowKeepsLedger(s, id); } else { NewRowKeepsLedger(s, id); }
        }
      case SetActive(active) =>
        forall k | 0 <= k < |t.moves| ensures IsRecorded(t, k) || PendingAt(t, k) {
          assert IsRecorded(s, k) || PendingAt(s, k);
          if PendingAt(s, k) {
            var a :| IsPending(s, a) && Pending(s.actors[a]).value == k;
            assert IsPending(t, a);
          }
        }
    }
  }

  function Without<T>(xs: seq<T>, i: nat): seq<T>
    requires i < |xs|
  {
    xs[..i] + xs[i + 1..]
  }

  lemma {:induction false} TotalWithout(entries: seq<Entry>, i: nat)
    requires i < |entries|
    ensures Total(entries) == Total(Without(entries, i)) + Change(entries[i])
  {
    var n := |entries| - 1;
    if i == n {
      assert Without(entries, i) == entries[..n];
    } else {
      TotalWithout(entries[..n], i);
      assert Without(entries, i)[..n - 1] == Without(entries[..n], i);
    }
  }

  ghost predicate IsOrder(order: seq<nat>, n: nat) {
    && (forall i | 0 <= i < |order| :: order[i] < n)
    && (forall i, j | 0 <= i < j < |order| :: order[i] != order[j])
    && (forall k | 0 <= k < n :: k in order)
  }

  lemma FewerIsOrder(order: seq<nat>, i: nat, n: nat)
    requires IsOrder(order, n + 1) && i < |order| && order[i] == n
    ensures IsOrder(Without(order, i), n)
  {
    var fewer := Without(order, i);
    assert forall j | 0 <= j < |fewer| :: fewer[j] == order[if j < i then j else j + 1];
    forall k | 0 <= k < n ensures k in fewer {
      assert k in order;
      var j :| 0 <= j < |order| && order[j] == k;
      assert fewer[if j < i then j else j - 1] == k;
    }
  }

  lemma FewerFollow(rows: seq<Entry>, order: seq<nat>, moves: seq<Entry>, i: nat)
    requires RowsFollow(rows, order, moves) && IsOrder(order, |moves|) && i < |order| && order[i] == |moves| - 1
    ensures RowsFollow(Without(rows, i), Without(order, i), moves[..|moves| - 1])
  {
    var r, o := Without(rows, i), Without(order, i);
    forall j | 0 <= j < |o| ensures o[j] < |moves| - 1 && r[j] == moves[o[j]] {
      var k := if j < i then j else j + 1;
      assert o[j] == order[k] && r[j] == rows[k];
    }
  }

  /** Rows that record each of the moves once add up to the same. */
  lemma {:induction false} SameTotalInAnyOrder(rows: seq<Entry>, order: seq<nat>, moves: seq<Entry>)
    requires RowsFollow(rows, order, moves) && IsOrder(order, |moves|)
    ensures Total(rows) == Total(moves) && |rows| == |moves|
    decreases |moves|
  {
    if order == [] {
      assert |moves| > 0 ==> 0 in order;
    } else {
      assert order[0] < |moves|;
      var n := |moves| - 1;
      assert n in order;
      var i :| 0 <= i < |order| && order[i] == n;
      TotalWithout(rows, i);
      FewerIsOrder(order, i, n);
      FewerFollow(rows, order, moves, i);
      SameTotalInAnyOrder(Without(rows, i), Without(order, i), moves[..n]);
    }
  }

  /** Nothing under way between increment and row, and no row refused. */
  ghost predicate Settled(s: State) {
    forall id | id in s.actors :: Pending(s.actors[id]).None?
  }

  /**
   * Once settled, the ledger records every move exactly once, though perhaps in another order, and
   * the balance is the opening balance plus its credits less its debits.
   */
  lemma SettledLedgerExplainsBalance(opening: Wallet, role: Role, steps: seq<Step>)
    requires Settled(After(opening, role, steps))
    ensures var s := After(opening, role, steps);
      && s.wallet.balance == opening.balance + Total(s.ledger)
      && |s.ledger| == |s.moves| == |s.order|
      && IsOrder(s.order, |s.moves|)
      && RowsFollow(s.ledger, s.order, s.moves)
  {
    var s := After(opening, role, steps);
    LedgerInvAlways(opening, role, steps);
    MovesFormAChain(opening, role, steps);
    ChainTotal(opening.balance, s.moves, s.wallet.balance);
    forall k | 0 <= k < |s.moves| ensures k in s.order {
      assert IsRecorded(s, k) || PendingAt(s, k);
      assert !PendingAt(s, k);
    }
    SameTotalInAnyOrder(s.ledger, s.order, s.moves);
  }

  // ----- when the rows lie in order -----

  /** Each row records the move of its own position. */
  ghost predicate RowsInOrder(s: State) {
    forall i | 0 <= i < |s.order| :: s.order[i] == i
  }

  /** A step that writes a row writes that of the oldest move not recorded. */
  predicate RecordsOldest(s: State, step: Step) {
    step.Insert? && step.id in s.actors && s.actors[step.id].Moved? && s.actors[step.id].entry.amount >= MIN_AMOUNT
    ==> s.actors[step.id].index == |s.order|
  }

  function OldestFirst(opening: Wallet, role: Role): (seq<Step>, Step) -> bool {
    (before, step) => RecordsOldest(After(opening, role, before), step)
  }

  lemma {:induction false} StepInOrder(s: State, step: Step)
    ensures RowsInOrder(Next(s, step)) <==> RowsInOrder(s) && RecordsOldest(s, step)
  {
    var t := Next(s, step);
    assert s.order <= t.order;
    assert forall i | 0 <= i < |s.order| :: t.order[i] == s.order[i];
    if t.order != s.order {
      assert t.order[|s.order|] == s.actors[step.id].index;
    }
  }

  /** Over every interleaving, the rows lie in the order of their moves exactly when each was the oldest one's as it was written. */
  lemma {:induction false} RowsInOrderIff(opening: Wallet, role: Role, steps: seq<Step>)
    ensures RowsInOrder(After(opening, role, steps)) <==> AtEachTurn(steps, OldestFirst(opening, role))
  {
    if steps != [] {
      RowsInOrderIff(opening, role, steps[..|steps| - 1]);
      AtEachTurnSnoc(steps, OldestFirst(opening, role));
      StepInOrder(After(opening, role, steps[..|steps| - 1]), steps[|steps| - 1]);
    }
  }

  function Closing(opening: real, entries: seq<Entry>): real {
    if entries == [] then opening else entries[|entries| - 1].balanceAfter
  }

  lemma {:induction false} ChainPrefix(opening: real, entries: seq<Entry>, closing: real, n: nat)
    requires IsChain(opening, entries, closing) && n <= |entries|
    ensures IsChain(opening, entries[..n], Closing(opening, entries[..n]))
  {
    if n < |entries| {
      var init := entries[..|entries| - 1];
      ChainPrefix(opening, init, entries[|entries| - 1].balanceBefore, n);
      assert init[..n] == entries[..n];
    } else {
      assert entries[..n] == entries;
    }
  }

  /** And then they chain as they lie: from the opening balance, and once settled up to the stored one. */
  lemma {:induction false} RowsInOrderChain(opening: Wallet, role: Role, steps: seq<Step>)
    requires AtEachTurn(steps, OldestFirst(opening, role))
    ensures var s := After(opening, role, steps);
      && IsChain(opening.balance, s.ledger, Closing(opening.balance, s.ledger))
      && (Settled(s) ==> Closing(opening.balance, s.ledger) == s.wallet.balance)
  {
    var s := After(opening, role, steps);
    RowsInOrderIff(opening, role, steps);
    LedgerInvAlways(opening, role, steps);
    MovesFormAChain(opening, role, steps);
    OrderFits(s);
    assert s.ledger == s.moves[..|s.ledger|];
    ChainPrefix(opening.balance, s.moves, s.wallet.balance, |s.ledger|);
    if Settled(s) {
      SettledLedgerExplainsBalance(opening, role, steps);
      assert s.ledger == s.moves;
    }
  }

  lemma OrderFits(s: State)
    requires RowsFollow(s.ledger, s.order, s.moves) && RowsInOrder(s)
    ensures |s.ledger| <= |s.moves| && forall i | 0 <= i < |s.ledger| :: s.ledger[i] == s.moves[i]
  {
    if |s.order| > 0 { assert s.order[|s.order| - 1] == |s.order| - 1; }
    forall i | 0 <= i < |s.ledger| ensures s.ledger[i] == s.moves[i] {
      assert s.order[i] == i;
    }
  }

  lemma {:induction false} AfterSnoc(opening: Wallet, role: Role, steps: seq<Step>, step: Step)
    ensures After(opening, role, steps + [step]) == Next(After(opening, role, steps), step)
  {
    assert (steps + [step])[..|steps|] == steps;
  }

  const RICH := Wallet(1000.0, true)
  const BOTH_LOADED := [Load(1, Debit, 300.0)] + [Load(2, Credit, 500.0)]
  const BOTH_MOVED := BOTH_LOADED + [Increment(1, 0)] + [Increment(2, 0)]
  const OUT := Entry(Debit, 300.0, 1000.0, 700.0)
  const IN := Entry(Credit, 500.0, 700.0, 1200.0)

  lemma AfterBothMoved()
    ensures After(RICH, SUPER_ADMIN, BOTH_MOVED)
         == State(Wallet(1200.0, true), SUPER_ADMIN, map[1 := Moved(OUT, 0), 2 := Moved(IN, 1)], [], [OUT, IN], [])
  {
    AfterSnoc(RICH, SUPER_ADMIN, [], Load(1, Debit, 300.0));
    assert [] + [Load(1, Debit, 300.0)] == [Load(1, Debit, 300.0)];
    AfterSnoc(RICH, SUPER_ADMIN, [Load(1, Debit, 300.0)], Load(2, Credit, 500.0));
    var actors := map[1 := Loaded(Debit, 300.0, 1000.0), 2 := Loaded(Credit, 500.0, 1000.0)];
    assert After(RICH, SUPER_ADMIN, BOTH_LOADED) == State(RICH, SUPER_ADMIN, actors, [], [], []);
    AfterSnoc(RICH, SUPER_ADMIN, BOTH_LOADED, Increment(1, 0));
    AfterSnoc(RICH, SUPER_ADMIN, BOTH_LOADED + [Increment(1, 0)], Increment(2, 0));
  }

  /** The rows as they lie in the ledger need not chain: a debit and a credit can write theirs in the other order. */
  lemma RowsMayLieOutOfOrder()
    ensures var s := After(RICH, SUPER_ADMIN, BOTH_MOVED + [Insert(2)] + [Insert(1)]);
      Settled(s) && s.order == [1, 0] && !IsChain(1000.0, s.ledger, s.wallet.balance)
  {
    AfterBothMoved();
    AfterSnoc(RICH, SUPER_ADMIN, BOTH_MOVED, Insert(2));
    AfterSnoc(RICH, SUPER_ADMIN, BOTH_MOVED + [Insert(2)], Insert(1));
    assert After(RICH, SUPER_ADMIN, BOTH_MOVED + [Insert(2)] + [Insert(1)]).ledger == [IN, OUT];
  }
}
