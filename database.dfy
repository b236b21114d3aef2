/** The JDBC connection as the checkout sees it: an auto-commit flag, the stored procedure
    purchase_product, and rollback. Every call is recorded in a ghost log so that contracts can
    speak about the exact order of calls. */
module Database {

  /** One call made on the connection. */
  datatype Event =
    | AutoCommitSet(on: bool)
    | Purchase(productId: int, qty: int, unitPrice: int)
    | Committed
    | RolledBack

  /** What one execution of purchase_product gives back: the out-parameters amount_got and
      total_paid (cents), or an exception. */
  datatype PurchaseResult = Purchased(gotQty: int, paid: int) | Failed

  /** The auto-commit flag after the calls in `log`, starting from `initial`. */
  function AutoCommitAfter(initial: bool, log: seq<Event>): bool
  {
    if log == [] then initial
    else if log[|log| - 1].AutoCommitSet? then log[|log| - 1].on
    else AutoCommitAfter(initial, log[..|log| - 1])
  }

  /** The number of times `e` occurs in `log`. */
  function Count(log: seq<Event>, e: Event): (n: nat)
    ensures n <= |log|
    ensures n == 0 <==> e !in log
  {
    if log == [] then 0
    else (if log[0] == e then 1 else 0) + Count(log[1..], e)
  }

  /** The number of purchase_product calls in `log`. */
  function PurchaseCount(log: seq<Event>): (n: nat)
    ensures n <= |log|
    ensures n == 0 <==> forall k :: 0 <= k < |log| ==> !log[k].Purchase?
  {
    if log == [] then 0
    else (if log[0].Purchase? then 1 else 0) + PurchaseCount(log[1..])
  }

  lemma {:induction false} CountConcat(a: seq<Event>, b: seq<Event>, e: Event)
    ensures Count(a + b, e) == Count(a, e) + Count(b, e)
  {
    if a == [] {
      assert a + b == b;
    } else {
      assert (a + b)[1..] == a[1..] + b;
      CountConcat(a[1..], b, e);
    }
  }

  lemma {:induction false} PurchaseCountConcat(a: seq<Event>, b: seq<Event>)
    ensures PurchaseCount(a + b) == PurchaseCount(a) + PurchaseCount(b)
  {
    if a == [] {
      assert a + b == b;
    } else {
      assert (a + b)[1..] == a[1..] + b;
      PurchaseCountConcat(a[1..], b);
    }
  }

  /** Replaying a log in two parts gives the same flag as replaying it at once. */
  lemma {:induction false} AutoCommitAfterConcat(initial: bool, a: seq<Event>, b: seq<Event>)
    ensures AutoCommitAfter(initial, a + b) == AutoCommitAfter(AutoCommitAfter(initial, a), b)
  {
    if b == [] {
      assert a + b == a;
    } else {
      assert (a + b)[..|a + b| - 1] == a + b[..|b| - 1];
      AutoCommitAfterConcat(initial, a, b[..|b| - 1]);
    }
  }

  /** A log without AutoCommitSet events leaves the flag as it was. */
  lemma {:induction false} AutoCommitAfterUntouched(initial: bool, log: seq<Event>)
    requires forall k :: 0 <= k < |log| ==> !log[k].AutoCommitSet?
    ensures AutoCommitAfter(initial, log) == initial
  {
    if log != [] {
      AutoCommitAfterUntouched(initial, log[..|log| - 1]);
    }
  }

  class Connection {
    /** The flag that setAutoCommit sets. */
    var autoCommit: bool
    /** Every call made on this connection, oldest first. */
    ghost var log: seq<Event>

    /** A connection as the interfaces receive it: opened elsewhere, already in the auto-commit
        state `on` that earlier use left it in, with no calls recorded yet. */
    constructor (on: bool)
      ensures autoCommit == on && log == []
    {
      autoCommit := on;
      log := [];
    }

    method SetAutoCommit(on: bool)
      modifies this
      ensures autoCommit == on
      ensures log == old(log) + [AutoCommitSet(on)]
    {
      autoCommit := on;
      log := log + [AutoCommitSet(on)];
    }

    method Rollback()
      modifies this
      ensures autoCommit == old(autoCommit)
      ensures log == old(log) + [RolledBack]
    {
      log := log + [RolledBack];
    }

    /** Executes purchase_product(productId, qty, unitPrice, ?, ?). The stored procedure's body
        lives in the database, so its answer is left unconstrained. */
    method PurchaseProduct(productId: int, qty: int, unitPrice: int) returns (r: PurchaseResult)
      modifies this
      ensures autoCommit == old(autoCommit)
      ensures log == old(log) + [Purchase(productId, qty, unitPrice)]
    {
      r := *;
      log := log + [Purchase(productId, qty, unitPrice)];
    }
  }
}
