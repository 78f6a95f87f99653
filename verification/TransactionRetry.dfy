/**
 * runInTransaction: a body is run in a transaction, and again after a transient failure, three
 * times at most. The database is any state S. A body works on a copy; only a commit installs it.
 */
module TransactionRetry {
  import opened Prelude

  const MAX_RETRIES := 3

  datatype DbError = DbError(message: string, errorLabels: Option<seq<string>>)

  /** What one call of the body did: the writes it made, and the value it returned or the error it threw. */
  datatype BodyRun<S, V> = BodyRun(written: S, outcome: Result<V, DbError>)

  /**
   * The surroundings of the attempts, numbered from 0: the body, the errors that commit and abort
   * throw if they do, and what other clients do to the store before the next attempt.
   */
  datatype World<!S, !V> = World(body: (S, nat) -> BodyRun<S, V>, commitError: nat -> Option<DbError>,
                                 abortError: nat -> Option<DbError>, others: (S, nat) -> S)

  /** Unreadable: asking for it throws. */
  datatype Topology = Single | ReplicaSet | Unknown | Unreadable

  predicate IsTransient(e: DbError) {
    e.errorLabels.Some? && "TransientTransactionError" in e.errorLabels.value
  }

  /** The store that attempt i starts from, when the attempts before it left nothing behind. */
  function Before<S, V>(w: World<S, V>, s: S, i: nat): S {
    if i == 0 then s else w.others(Before(w, s, i - 1), i - 1)
  }

  /** What attempt i's body or commit throws, if either does */
  function Failure<S, V>(w: World<S, V>, s: S, i: nat): Option<DbError> {
    var run := w.body(Before(w, s, i), i);
    if run.outcome.Err? then Some(run.outcome.error) else w.commitError(i)
  }

  /** How attempt i ends: with its body's value after a commit, or with an error, which is the abort's own if that throws. */
  function Attempt<S, V>(w: World<S, V>, s: S, i: nat): Result<V, DbError> {
    var failure := Failure(w, s, i);
    if failure.Some? then Err(w.abortError(i).GetOr(failure.value)) else w.body(Before(w, s, i), i).outcome
  }

  /** Attempt i is followed by another: it failed transiently, its abort went through, and it is not the third. */
  predicate IsRetried<S, V>(w: World<S, V>, s: S, i: nat) {
    var failure := Failure(w, s, i);
    failure.Some? && w.abortError(i).None? && IsTransient(failure.value) && i < MAX_RETRIES - 1
  }

  predicate Decisive<S, V>(w: World<S, V>, s: S, i: nat) {
    !IsRetried(w, s, i)
  }

  class TransactionRunner<S, V> {
    var store: S
    var isTransactionsSupported: Option<bool>

    constructor (store: S)
      ensures this.store == store && isTransactionsSupported == None
    {
      this.store := store;
      this.isTransactionsSupported := None;
    }

    /** The answer is remembered once the connection is ready. */
    method CheckTransactionSupport(connected: bool, topology: Topology) returns (supported: bool)
      modifies this`isTransactionsSupported
      ensures old(isTransactionsSupported).Some? ==>
        supported == old(isTransactionsSupported).value && isTransactionsSupported == old(isTransactionsSupported)
      ensures old(isTransactionsSupported).None? ==>
        && supported == (connected && topology != Single && topology != Unreadable)
        && isTransactionsSupported == if connected then Some(supported) else None
    {
      if isTransactionsSupported.Some? {
        return isTransactionsSupported.value;
      }
      if !connected {
        return false;
      }
      isTransactionsSupported := Some(topology != Single && topology != Unreadable);
      return isTransactionsSupported.value;
    }

    /**
     * With transactions: the first decisive attempt, among at most three, gives the result. If it
     * committed, exactly its writes are in the store; if not, nothing of any attempt is.
     * `result` None would be falling out of the loop.
     */
    method RunInTransaction(w: World<S, V>, connected: bool, topology: Topology)
      returns (result: Option<Result<V, DbError>>, attempts: nat)
      modifies this
      ensures result.Some?
      ensures isTransactionsSupported == Some(true) ==>
        && 1 <= attempts <= 3
        && Decisive(w, old(store), attempts - 1)
        && (forall i: nat | i < attempts - 1 :: !Decisive(w, old(store), i))
        && result.value == Attempt(w, old(store), attempts - 1)
        && var before := Before(w, old(store), attempts - 1);
           store == if result.value.Ok? then w.body(before, attempts - 1).written else before
      ensures isTransactionsSupported == Some(true) ==> IsOutcome(w, old(store), Outcome(result.value, store))
      ensures isTransactionsSupported != Some(true) ==>
        attempts == 1 && result.value == w.body(old(store), 0).outcome && store == w.body(old(store), 0).written
    {
      var supported := CheckTransactionSupport(connected, topology);
      attempts := 0;
      if !supported {
        var run := w.body(store, 0);
        store := run.written;
        return Some(run.outcome), 1;
      }
      var attempt := 0;
      result := None;
      while attempt < MAX_RETRIES
        invariant attempt <= MAX_RETRIES - 1
        invariant result == None && isTransactionsSupported == Some(true)
        invariant store == Before(w, old(store), attempt)
        invariant forall i: nat | i < attempt :: !Decisive(w, old(store), i)
      {
        var run := w.body(store, attempt);
        var error := if run.outcome.Err? then Some(run.outcome.error) else w.commitError(attempt);
        if error.None? {
          store := run.written;
          return Some(Ok(run.outcome.value)), attempt + 1;
        }
        if w.abortError(attempt).Some? {
          return Some(Err(w.abortError(attempt).value)), attempt + 1;
        }
        if IsTransient(error.value) && attempt < MAX_RETRIES - 1 {
          store := w.others(store, attempt);
          attempt := attempt + 1;
          continue;
        }
        return Some(Err(error.value)), attempt + 1;
      }
    }
  }

  /** Some attempt is decisive, and which one comes first is settled. */
  lemma FirstDecisiveAttempt<S, V>(w: World<S, V>, s: S) returns (k: nat)
    ensures k < MAX_RETRIES && Decisive(w, s, k) && forall i: nat | i < k :: !Decisive(w, s, i)
  {
    k := 0;
    while !Decisive(w, s, k)
      invariant k < MAX_RETRIES && forall i: nat | i < k :: !Decisive(w, s, i)
      decreases MAX_RETRIES - k
    {
      k := k + 1;
    }
  }

  /** The outcome of a run with transactions. */
  datatype Outcome<S, V> = Outcome(result: Result<V, DbError>, store: S)

  ghost predicate IsOutcome<S, V>(w: World<S, V>, s: S, o: Outcome<S, V>) {
    exists k: nat | k < MAX_RETRIES ::
      && Decisive(w, s, k) && (forall i: nat | i < k :: !Decisive(w, s, i))
      && o.result == Attempt(w, s, k)
      && o.store == if o.result.Ok? then w.body(Before(w, s, k), k).written else Before(w, s, k)
  }

  /** With nobody else about, a run commits one body's writes or leaves the store as it was. */
  lemma AllOrNothing<S, V>(w: World<S, V>, s: S, o: Outcome<S, V>)
    requires (forall t, i :: w.others(t, i) == t) && IsOutcome(w, s, o)
    ensures o.result.Err? ==> o.store == s
    ensures o.result.Ok? ==> exists k: nat :: k < MAX_RETRIES && o == Outcome(w.body(s, k).outcome, w.body(s, k).written)
  {
    var k: nat :| k < MAX_RETRIES && Decisive(w, s, k)
      && o.result == Attempt(w, s, k)
      && o.store == if o.result.Ok? then w.body(Before(w, s, k), k).written else Before(w, s, k);
    QuietWorld(w, s, k);
  }

  lemma {:induction false} QuietWorld<S, V>(w: World<S, V>, s: S, i: nat)
    requires forall t, j :: w.others(t, j) == t
    ensures Before(w, s, i) == s
  {
    if i > 0 { QuietWorld(w, s, i - 1); }
  }

  /** An error is what the abort threw, or else what the body or the commit did. */
  predicate IsErrorOf<S, V>(w: World<S, V>, s: S, i: nat, e: DbError) {
    var run := w.body(Before(w, s, i), i);
    && (run.outcome.Err? || w.commitError(i).Some?)
    && e == if w.abortError(i).Some? then w.abortError(i).value
            else if run.outcome.Err? then run.outcome.error
            else w.commitError(i).value
  }

  lemma {:induction false} FailedAttempt<S, V>(w: World<S, V>, s: S, i: nat)
    ensures Attempt(w, s, i).Err? ==> IsErrorOf(w, s, i, Attempt(w, s, i).error)
  {
    var run := w.body(Before(w, s, i), i);
    if Failure(w, s, i).None? {
      assert run.outcome.Ok?;
      assert Attempt(w, s, i) == run.outcome;
    } else {
      assert Attempt(w, s, i) == Err(w.abortError(i).GetOr(Failure(w, s, i).value));
    }
  }

  /** A failed run throws the error of the last of its attempts, three at most. */
  lemma {:induction false} ErrorComesFrom<S, V>(w: World<S, V>, s: S, o: Outcome<S, V>) returns (k: nat)
    requires IsOutcome(w, s, o) && o.result.Err?
    ensures k < 3 && Decisive(w, s, k) && IsErrorOf(w, s, k, o.result.error)
    ensures forall i: nat | i < k :: !Decisive(w, s, i)
  {
    k :| k < MAX_RETRIES && Decisive(w, s, k) && (forall i: nat | i < k :: !Decisive(w, s, i)) && o.result == Attempt(w, s, k);
    FailedAttempt(w, s, k);
  }

  /** There is exactly one outcome. */
  lemma OutcomeIsUnique<S, V>(w: World<S, V>, s: S, o: Outcome<S, V>, p: Outcome<S, V>)
    requires IsOutcome(w, s, o) && IsOutcome(w, s, p)
    ensures o == p
  {
  }

  /** An error that the driver labels as transient */
  predicate IsLabelled(e: DbError) {
    e.errorLabels.Some? && "TransientTransactionError" in e.errorLabels.value
  }

  /** Attempt k commits after nothing but failures that were labelled as transient and cleanly aborted. */
  predicate CommitsAt<S, V>(w: World<S, V>, s: S, k: nat) {
    && Failure(w, s, k).None?
    && forall i: nat | i < k ::
         Failure(w, s, i).Some? && IsLabelled(Failure(w, s, i).value) && w.abortError(i).None?
  }

  /** A run succeeds exactly when one of the three attempts commits before any fails for good or cannot be aborted. */
  lemma SuccessMeansCommit<S, V>(w: World<S, V>, s: S, o: Outcome<S, V>)
    requires IsOutcome(w, s, o)
    ensures o.result.Ok? <==> exists k: nat :: k < 3 && CommitsAt(w, s, k)
  {
    var k: nat :| k < MAX_RETRIES && Decisive(w, s, k) && (forall i: nat | i < k :: !Decisive(w, s, i))
      && o.result == Attempt(w, s, k);
    forall i: nat | i < k ensures Failure(w, s, i).Some? && IsTransient(Failure(w, s, i).value) && w.abortError(i).None? {
      assert !Decisive(w, s, i);
    }
    assert o.result.Ok? ==> CommitsAt(w, s, k);
    forall j: nat | j < MAX_RETRIES && CommitsAt(w, s, j) ensures o.result.Ok? {
      assert Decisive(w, s, j);
      assert k <= j;
      assert k < j ==> !Decisive(w, s, k);
    }
  }
}
