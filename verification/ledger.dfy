/**
 * The wallet ledger: the append-only list of WalletTransaction rows and the
 * sums the backend takes over it.
 *
 * A member's WalletBalance is a cached field that every money-moving action
 * updates next to the ledger row it appends. `LedgerCoupled` states what that
 * pairing guarantees: for every member, WalletBalance minus the sum of that
 * member's Completed entries is the same before and after the action.
 */
module Ledger {
  import opened Domain

  /** What entry `t` adds to member `id`'s total of Completed amounts. */
  function Contribution(t: WalletTransaction, id: int): real
  {
    if t.memberId == id && t.status == TransactionStatus.Completed then t.amount else 0.0
  }

  /** Sum of the amounts of member `id`'s Completed entries. */
  function CompletedSum(l: seq<WalletTransaction>, id: int): real
  {
    if l == [] then 0.0 else CompletedSum(l[..|l| - 1], id) + Contribution(l[|l| - 1], id)
  }

  /** Whether entry `t` is one of member `id`'s approved deposits. */
  predicate IsCompletedDeposit(t: WalletTransaction, id: int)
  {
    t.memberId == id && t.kind == TransactionType.Deposit && t.status == TransactionStatus.Completed
  }

  /**
   * Sum of Amount over member `id`'s entries of type Deposit and status
   * Completed: the query that reconciles TotalDeposit with the ledger.
   */
  function CompletedDepositSum(l: seq<WalletTransaction>, id: int): real
  {
    if l == [] then 0.0
    else CompletedDepositSum(l[..|l| - 1], id) + (if IsCompletedDeposit(l[|l| - 1], id) then l[|l| - 1].amount else 0.0)
  }

  /** The Completed entry that pairs with a balance change of `amount`. */
  function Entry(id: int, amount: real, kind: TransactionType, related: RelatedId, memo: Memo, now: int): (t: WalletTransaction)
    ensures Contribution(t, id) == amount
  {
    WalletTransaction(id, amount, kind, TransactionStatus.Completed, related, memo, now)
  }

  /** A member after a credit (or, for a negative amount, a debit) that leaves TotalSpent alone. */
  function Credited(m: Member, amount: real): (r: Member)
    ensures r.walletBalance - m.walletBalance == amount
    ensures r.(walletBalance := m.walletBalance) == m
  {
    m.(walletBalance := m.walletBalance + amount)
  }

  /**
   * A member after paying `price`: balance down and TotalSpent up by the same
   * amount (a negative price is the refund of a payment).
   */
  function Spent(m: Member, price: real): (r: Member)
    ensures r.walletBalance == m.walletBalance - price
    ensures r.totalSpent == m.totalSpent + price
    ensures r.(walletBalance := m.walletBalance, totalSpent := m.totalSpent) == m
  {
    m.(walletBalance := m.walletBalance - price, totalSpent := m.totalSpent + price)
  }

  /**
   * The ledger invariant between two states: the same members exist and
   * each one's WalletBalance moved by exactly the change in its Completed sum.
   */
  ghost predicate LedgerCoupled(m0: map<int, Member>, l0: seq<WalletTransaction>, m1: map<int, Member>, l1: seq<WalletTransaction>)
  {
    && m1.Keys == m0.Keys
    && forall id | id in m1 ::
         m1[id].walletBalance - CompletedSum(l1, id) == m0[id].walletBalance - CompletedSum(l0, id)
  }

  // ------------------------------------------------------------- lemmas

  lemma {:induction false} CompletedSumAppend(l: seq<WalletTransaction>, t: WalletTransaction, id: int)
    ensures CompletedSum(l + [t], id) == CompletedSum(l, id) + Contribution(t, id)
  {
    assert (l + [t])[..|l|] == l;
  }

  lemma {:induction false} CompletedDepositSumAppend(l: seq<WalletTransaction>, t: WalletTransaction, id: int)
    ensures CompletedDepositSum(l + [t], id)
         == CompletedDepositSum(l, id) + (if IsCompletedDeposit(t, id) then t.amount else 0.0)
  {
    assert (l + [t])[..|l|] == l;
  }

  /** Rewriting one entry changes the sum by the difference of the two contributions. */
  lemma {:induction false} CompletedSumUpdate(l: seq<WalletTransaction>, i: nat, t: WalletTransaction, id: int)
    requires i < |l|
    ensures CompletedSum(l[i := t], id) == CompletedSum(l, id) - Contribution(l[i], id) + Contribution(t, id)
  {
    var n := |l| - 1;
    if i == n {
      assert l[i := t][..n] == l[..n];
    } else {
      assert l[i := t][..n] == l[..n][i := t];
      CompletedSumUpdate(l[..n], i, t, id);
    }
  }

  lemma {:induction false} CompletedDepositSumUpdate(l: seq<WalletTransaction>, i: nat, t: WalletTransaction, id: int)
    requires i < |l|
    ensures CompletedDepositSum(l[i := t], id)
         == CompletedDepositSum(l, id)
            - (if IsCompletedDeposit(l[i], id) then l[i].amount else 0.0)
            + (if IsCompletedDeposit(t, id) then t.amount else 0.0)
  {
    var n := |l| - 1;
    if i == n {
      assert l[i := t][..n] == l[..n];
    } else {
      assert l[i := t][..n] == l[..n][i := t];
      CompletedDepositSumUpdate(l[..n], i, t, id);
    }
  }

  /** A deposit total counts only the member's own Completed Deposit rows. */
  lemma {:induction false} CompletedDepositSumIgnores(l: seq<WalletTransaction>, t: WalletTransaction, id: int)
    requires t.memberId != id || t.kind != TransactionType.Deposit || t.status != TransactionStatus.Completed
    ensures CompletedDepositSum(l + [t], id) == CompletedDepositSum(l, id)
  {
    CompletedDepositSumAppend(l, t, id);
  }

  lemma CoupledRefl(m: map<int, Member>, l: seq<WalletTransaction>)
    ensures LedgerCoupled(m, l, m, l)
  {
  }

  lemma CoupledTrans(
    m0: map<int, Member>, l0: seq<WalletTransaction>,
    m1: map<int, Member>, l1: seq<WalletTransaction>,
    m2: map<int, Member>, l2: seq<WalletTransaction>)
    requires LedgerCoupled(m0, l0, m1, l1) && LedgerCoupled(m1, l1, m2, l2)
    ensures LedgerCoupled(m0, l0, m2, l2)
  {
  }

  /** Moving a balance by `amount` together with a Completed entry of `amount` keeps the coupling. */
  lemma {:induction false} PostingCoupled(m: map<int, Member>, l: seq<WalletTransaction>, id: int, r: Member, t: WalletTransaction)
    requires id in m && t.memberId == id && t.status == TransactionStatus.Completed
    requires r.walletBalance == m[id].walletBalance + t.amount
    ensures LedgerCoupled(m, l, m[id := r], l + [t])
  {
    forall k | k in m {
      CompletedSumAppend(l, t, k);
    }
  }

  /** A ledger row that is not Completed changes no Completed sum. */
  lemma {:induction false} UncompletedEntryCoupled(m: map<int, Member>, l: seq<WalletTransaction>, t: WalletTransaction)
    requires t.status != TransactionStatus.Completed
    ensures LedgerCoupled(m, l, m, l + [t])
  {
    forall k | k in m {
      CompletedSumAppend(l, t, k);
    }
  }

  /** Fields other than the balance may change freely. */
  lemma UnrelatedFieldsCoupled(m: map<int, Member>, l: seq<WalletTransaction>, id: int, r: Member)
    requires id in m && r.walletBalance == m[id].walletBalance
    ensures LedgerCoupled(m, l, m[id := r], l)
  {
  }

  /** Approving a Pending entry while crediting its member keeps the coupling. */
  lemma {:induction false} ApprovalCoupled(m: map<int, Member>, l: seq<WalletTransaction>, i: nat, memo: Memo, r: Member)
    requires i < |l| && l[i].status == TransactionStatus.Pending
    requires l[i].memberId in m && r.walletBalance == m[l[i].memberId].walletBalance + l[i].amount
    ensures LedgerCoupled(m, l, m[l[i].memberId := r], l[i := l[i].(status := TransactionStatus.Completed, memo := memo)])
  {
    var t := l[i].(status := TransactionStatus.Completed, memo := memo);
    forall k | k in m {
      CompletedSumUpdate(l, i, t, k);
    }
  }

  /** Approving a Pending entry of a member that does not exist touches no member's sum. */
  lemma {:induction false} OrphanApprovalCoupled(m: map<int, Member>, l: seq<WalletTransaction>, i: nat, memo: Memo)
    requires i < |l| && l[i].status == TransactionStatus.Pending && l[i].memberId !in m
    ensures LedgerCoupled(m, l, m, l[i := l[i].(status := TransactionStatus.Completed, memo := memo)])
  {
    var t := l[i].(status := TransactionStatus.Completed, memo := memo);
    forall k | k in m {
      CompletedSumUpdate(l, i, t, k);
    }
  }

  /** Rejecting a Pending entry touches no member's sum. */
  lemma {:induction false} RejectionCoupled(m: map<int, Member>, l: seq<WalletTransaction>, i: nat, memo: Memo)
    requires i < |l| && l[i].status == TransactionStatus.Pending
    ensures LedgerCoupled(m, l, m, l[i := l[i].(status := TransactionStatus.Rejected, memo := memo)])
  {
    var t := l[i].(status := TransactionStatus.Rejected, memo := memo);
    forall k | k in m {
      CompletedSumUpdate(l, i, t, k);
    }
  }

  // ------------------------------------------------- deposit totals

  /** Every member's TotalDeposit equals the sum of its approved deposits. */
  ghost predicate DepositTotalsMatch(m: map<int, Member>, l: seq<WalletTransaction>)
  {
    forall id | id in m :: m[id].totalDeposit == CompletedDepositSum(l, id)
  }

  /** A new entry that is not a Completed deposit keeps every deposit total. */
  lemma {:induction false} NonDepositEntryKeepsTotals(m: map<int, Member>, l: seq<WalletTransaction>, t: WalletTransaction)
    requires t.kind != TransactionType.Deposit || t.status != TransactionStatus.Completed
    requires DepositTotalsMatch(m, l)
    ensures DepositTotalsMatch(m, l + [t])
  {
    forall id | id in m
      ensures m[id].totalDeposit == CompletedDepositSum(l + [t], id)
    {
      CompletedDepositSumIgnores(l, t, id);
    }
  }

  /**
   * Moving a Pending deposit to Completed raises its owner's deposit sum by
   * its amount; if the owner's TotalDeposit moves by the same amount (or the
   * owner does not exist) the totals still match.
   */
  lemma {:induction false} DepositApprovalKeepsTotals(m: map<int, Member>, l: seq<WalletTransaction>, i: nat, memo: Memo, m': map<int, Member>)
    requires i < |l| && l[i].status == TransactionStatus.Pending && l[i].kind == TransactionType.Deposit
    requires DepositTotalsMatch(m, l)
    requires m'.Keys == m.Keys
    requires forall id | id in m && id != l[i].memberId :: m'[id].totalDeposit == m[id].totalDeposit
    requires l[i].memberId in m ==> m'[l[i].memberId].totalDeposit == m[l[i].memberId].totalDeposit + l[i].amount
    ensures DepositTotalsMatch(m', l[i := l[i].(status := TransactionStatus.Completed, memo := memo)])
  {
    var t := l[i].(status := TransactionStatus.Completed, memo := memo);
    forall id | id in m'
      ensures m'[id].totalDeposit == CompletedDepositSum(l[i := t], id)
    {
      CompletedDepositSumUpdate(l, i, t, id);
    }
  }

  /** Moving a Pending entry to Rejected changes no deposit sum. */
  lemma {:induction false} RejectionKeepsTotals(m: map<int, Member>, l: seq<WalletTransaction>, i: nat, memo: Memo)
    requires i < |l| && l[i].status == TransactionStatus.Pending
    requires DepositTotalsMatch(m, l)
    ensures DepositTotalsMatch(m, l[i := l[i].(status := TransactionStatus.Rejected, memo := memo)])
  {
    var t := l[i].(status := TransactionStatus.Rejected, memo := memo);
    forall id | id in m
      ensures m[id].totalDeposit == CompletedDepositSum(l[i := t], id)
    {
      CompletedDepositSumUpdate(l, i, t, id);
    }
  }
}
