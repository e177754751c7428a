/** The transaction recorder (TransactionService): the listener on the
    settlement queue turns each payment message into a ledger entry and
    appends it to the transaction repository. */
module Transactions {
  import opened Domain

  /** The ledger entry built from a payment message, saved under `id`. */
  function ToTransaction(p: Payment, id: nat): Transaction {
    Transaction(id, p.orderId, p.userId, p.receivedAmount)
  }

  /** The ledger after the messages have been consumed one after the other. */
  function Record(ledger: seq<Transaction>, msgs: seq<Payment>): seq<Transaction>
    decreases |msgs|
  {
    if msgs == [] then ledger
    else Record(ledger + [ToTransaction(msgs[0], |ledger| + 1)], msgs[1..])
  }

  /** The transaction repository hands out ids 1, 2, 3, ... in saving order. */
  ghost predicate Numbered(ledger: seq<Transaction>) {
    forall i :: 0 <= i < |ledger| ==> ledger[i].id == i + 1
  }

  /** The sum of the ledger's amounts. */
  function Total(ledger: seq<Transaction>): real
    decreases |ledger|
  {
    if ledger == [] then 0.0 else Total(ledger[..|ledger| - 1]) + ledger[|ledger| - 1].amount
  }

  /** The sum of the amounts received by the payments. */
  function Received(msgs: seq<Payment>): real
    decreases |msgs|
  {
    if msgs == [] then 0.0 else msgs[0].receivedAmount + Received(msgs[1..])
  }

  /** Consuming only appends: the old ledger is kept as it was, and there is
      one new entry per message, in message order, with the message's amount,
      user and order and the next id. */
  lemma {:induction false} RecordAppends(ledger: seq<Transaction>, msgs: seq<Payment>)
    ensures var r := Record(ledger, msgs);
            && |r| == |ledger| + |msgs|
            && r[..|ledger|] == ledger
            && forall k :: 0 <= k < |msgs| ==>
                 && r[|ledger| + k].amount == msgs[k].receivedAmount
                 && r[|ledger| + k].userId == msgs[k].userId
                 && r[|ledger| + k].orderId == msgs[k].orderId
                 && r[|ledger| + k].id == |ledger| + k + 1
    decreases |msgs|
  {
    if msgs != [] {
      var next := ledger + [ToTransaction(msgs[0], |ledger| + 1)];
      RecordAppends(next, msgs[1..]);
      var r := Record(ledger, msgs);
      assert r == Record(next, msgs[1..]);
      assert r[..|ledger|] == r[..|next|][..|ledger|];
      forall k | 0 <= k < |msgs|
        ensures && r[|ledger| + k].amount == msgs[k].receivedAmount
                && r[|ledger| + k].userId == msgs[k].userId
                && r[|ledger| + k].orderId == msgs[k].orderId
                && r[|ledger| + k].id == |ledger| + k + 1
      {
        if k == 0 {
          assert r[|ledger|] == r[..|next|][|ledger|] == next[|ledger|];
        } else {
          assert msgs[1..][k - 1] == msgs[k];
          assert r[|ledger| + k] == r[|next| + (k - 1)];
        }
      }
    }
  }

  /** Consuming keeps the ledger numbered 1, 2, 3, ... */
  lemma RecordKeepsNumbered(ledger: seq<Transaction>, msgs: seq<Payment>)
    requires Numbered(ledger)
    ensures Numbered(Record(ledger, msgs))
  {
    RecordAppends(ledger, msgs);
    var r := Record(ledger, msgs);
    forall i | 0 <= i < |r| ensures r[i].id == i + 1 {
      if i < |ledger| {
        assert r[i] == r[..|ledger|][i];
      } else {
        var k := i - |ledger|;
        assert r[|ledger| + k].orderId == msgs[k].orderId;
      }
    }
  }

  /** Consuming messages one at a time is consuming them all at once. */
  lemma {:induction false} RecordSnoc(ledger: seq<Transaction>, msgs: seq<Payment>, p: Payment)
    ensures Record(ledger, msgs + [p]) == Record(Record(ledger, msgs), [p])
    decreases |msgs|
  {
    if msgs == [] {
      assert msgs + [p] == [p];
    } else {
      assert (msgs + [p])[0] == msgs[0];
      assert (msgs + [p])[1..] == msgs[1..] + [p];
      RecordSnoc(ledger + [ToTransaction(msgs[0], |ledger| + 1)], msgs[1..], p);
    }
  }

  /** The ledger's total grows by exactly the amounts of the consumed payments. */
  lemma {:induction false} RecordTotal(ledger: seq<Transaction>, msgs: seq<Payment>)
    ensures Total(Record(ledger, msgs)) == Total(ledger) + Received(msgs)
    decreases |msgs|
  {
    if msgs != [] {
      var t := ToTransaction(msgs[0], |ledger| + 1);
      var next := ledger + [t];
      assert next[..|next| - 1] == ledger;
      assert Total(next) == Total(ledger) + msgs[0].receivedAmount;
      RecordTotal(next, msgs[1..]);
    }
  }

  /** There is no deduplication: the same message consumed twice gives two
      entries that agree on amount, user and order and differ only in id. */
  lemma NoDeduplication(ledger: seq<Transaction>, p: Payment)
    ensures var r := Record(ledger, [p, p]);
            && |r| == |ledger| + 2
            && r[|ledger|].amount == r[|ledger| + 1].amount == p.receivedAmount
            && r[|ledger|].userId == r[|ledger| + 1].userId == p.userId
            && r[|ledger|].orderId == r[|ledger| + 1].orderId == p.orderId
            && r[|ledger|].id != r[|ledger| + 1].id
  {
    RecordAppends(ledger, [p, p]);
    var r := Record(ledger, [p, p]);
    assert r[|ledger| + 0].id == |ledger| + 1;
    assert r[|ledger| + 1].id == |ledger| + 2;
  }

  class TransactionService {
    /** The transaction repository; the entry at index i has id i + 1. */
    var ledger: seq<Transaction>

    ghost predicate Valid()
      reads this
    {
      Numbered(ledger)
    }

    constructor ()
      ensures Valid() && ledger == []
    {
      ledger := [];
    }

    /** consumePayments: records the message as the next ledger entry. */
    method ConsumePayments(p: Payment)
      requires Valid()
      modifies this`ledger
      ensures Valid()
      ensures ledger == Record(old(ledger), [p])
      ensures |ledger| == |old(ledger)| + 1 && ledger[..|old(ledger)|] == old(ledger)
      ensures ledger[|ledger| - 1] == Transaction(|ledger|, p.orderId, p.userId, p.receivedAmount)
    {
      var t := Transaction(|ledger| + 1, p.orderId, p.userId, p.receivedAmount);
      ledger := ledger + [t];
      assert ledger[..|old(ledger)|] == old(ledger);
      assert [p][1..] == [];
    }
  }
}
