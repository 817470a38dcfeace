/**
 * The administrator's deposit approval (Controllers/AdminController.cs):
 * like the wallet approval, but it also raises TotalDeposit and recomputes
 * the member's tier.
 */
module Admin {
  import opened Domain
  import opened Ledger
  import opened Tiers
  import opened Data
  import Wallet

  /** A member after an approved deposit: balance and TotalDeposit up by `amount`, tier recomputed. */
  function DepositCredited(m: Member, amount: real): (r: Member)
    ensures r.walletBalance == m.walletBalance + amount
    ensures r.totalDeposit == m.totalDeposit + amount
    ensures r.tier == TierFor(m.totalDeposit + amount)
    ensures r.(walletBalance := m.walletBalance, totalDeposit := m.totalDeposit, tier := m.tier) == m
  {
    UpdateTier(m.(walletBalance := m.walletBalance + amount, totalDeposit := m.totalDeposit + amount))
  }

  /**
   * Approve a Pending entry: Completed, and its member (if any) gets balance
   * and TotalDeposit raised by the amount and a recomputed tier. Refused
   * exactly as the wallet approval is.
   */
  method ApproveWalletDeposit(db: ClubDb, id: nat) returns (r: Result<()>)
    modifies db`members, db`ledger
    ensures LedgerCoupled(old(db.members), old(db.ledger), db.members, db.ledger)
    ensures r.Err? <==> Wallet.ProcessFailure(old(db.ledger), id).Some?
    ensures r.Err? ==> r.error == Wallet.ProcessFailure(old(db.ledger), id).value
                       && db.members == old(db.members) && db.ledger == old(db.ledger)
    ensures r.Ok? ==>
      && id < |old(db.ledger)|
      && var t := old(db.ledger)[id];
      && db.ledger == old(db.ledger)[id := t.(status := TransactionStatus.Completed, memo := DepositApproved)]
      && (t.memberId in old(db.members) ==>
            db.members == old(db.members)[t.memberId := DepositCredited(old(db.members)[t.memberId], t.amount)])
      && (t.memberId !in old(db.members) ==> db.members == old(db.members))
    // Approving a deposit this way keeps every TotalDeposit equal to the
    // member's sum of approved deposits.
    ensures r.Ok? && old(db.ledger)[id].kind == TransactionType.Deposit && DepositTotalsMatch(old(db.members), old(db.ledger))
            ==> DepositTotalsMatch(db.members, db.ledger)
  {
    if id >= |db.ledger| {
      CoupledRefl(db.members, db.ledger);
      return Err(NotFound);
    }
    var wt := db.ledger[id];
    if wt.status != TransactionStatus.Pending {
      CoupledRefl(db.members, db.ledger);
      return Err(AlreadyProcessed);
    }
    var approved := wt.(status := TransactionStatus.Completed, memo := DepositApproved);
    ghost var m0 := db.members;
    if wt.memberId in db.members {
      var member := DepositCredited(db.members[wt.memberId], wt.amount);
      ApprovalCoupled(db.members, db.ledger, id, DepositApproved, member);
      db.members := db.members[wt.memberId := member];
    } else {
      OrphanApprovalCoupled(db.members, db.ledger, id, DepositApproved);
    }
    if wt.kind == TransactionType.Deposit && DepositTotalsMatch(m0, db.ledger) {
      DepositApprovalKeepsTotals(m0, db.ledger, id, DepositApproved, db.members);
    }
    db.ledger := db.ledger[id := approved];
    return Ok(());
  }

  /**
   * A second approval of the same entry fails and leaves every balance and
   * TotalDeposit as the first approval left them.
   */
  method ApproveTwice(db: ClubDb, id: nat) returns (first: Result<()>, second: Result<()>)
    modifies db`members, db`ledger
    ensures first.Ok? ==> second == Err(AlreadyProcessed)
    ensures first.Ok? ==>
      && id < |old(db.ledger)|
      && var t := old(db.ledger)[id];
      && db.ledger == old(db.ledger)[id := t.(status := TransactionStatus.Completed, memo := DepositApproved)]
      && (t.memberId in old(db.members) ==>
            db.members == old(db.members)[t.memberId := DepositCredited(old(db.members)[t.memberId], t.amount)])
  {
    first := ApproveWalletDeposit(db, id);
    second := ApproveWalletDeposit(db, id);
  }
}
