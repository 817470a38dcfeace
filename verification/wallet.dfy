/**
 * Deposits through the member wallet (Controllers/WalletController.cs): a
 * member files a Pending deposit, an administrator approves it (the balance
 * is credited) or rejects it. This approval path does not touch
 * TotalDeposit or the tier.
 */
module Wallet {
  import opened Domain
  import opened Ledger
  import opened Data

  /** A deposit is refused only to a caller with no member record. */
  function DepositFailure(members: map<int, Member>, caller: int): Option<Error>
  {
    if caller !in members then Some(NotFound) else None
  }

  /** The Pending row a deposit request files; any amount is accepted. */
  function DepositRow(caller: int, amount: real, now: int): (t: WalletTransaction)
    ensures t.status == TransactionStatus.Pending && t.kind == TransactionType.Deposit
    ensures t.memberId == caller && t.amount == amount
  {
    WalletTransaction(caller, amount, TransactionType.Deposit, TransactionStatus.Pending, NoRelated, DepositAwaitingApproval, now)
  }

  /** File a deposit: one Pending entry, and no balance changes. Returns the entry id. */
  method Deposit(db: ClubDb, caller: int, amount: real, now: int) returns (r: Result<nat>)
    modifies db`ledger
    ensures LedgerCoupled(old(db.members), old(db.ledger), db.members, db.ledger)
    ensures DepositTotalsMatch(old(db.members), old(db.ledger)) ==> DepositTotalsMatch(db.members, db.ledger)
    ensures r.Err? <==> DepositFailure(db.members, caller).Some?
    ensures r.Err? ==> r.error == NotFound && db.ledger == old(db.ledger)
    ensures r.Ok? ==> r.value == |old(db.ledger)| && db.ledger == old(db.ledger) + [DepositRow(caller, amount, now)]
  {
    if caller !in db.members {
      CoupledRefl(db.members, db.ledger);
      return Err(NotFound);
    }
    var t := DepositRow(caller, amount, now);
    r := Ok(|db.ledger|);
    UncompletedEntryCoupled(db.members, db.ledger, t);
    if DepositTotalsMatch(db.members, db.ledger) {
      NonDepositEntryKeepsTotals(db.members, db.ledger, t);
    }
    db.ledger := db.ledger + [t];
  }

  /** Approve and reject both refuse a missing entry, then one no longer Pending. */
  function ProcessFailure(ledger: seq<WalletTransaction>, id: nat): Option<Error>
  {
    if id >= |ledger| then Some(NotFound)
    else if ledger[id].status != TransactionStatus.Pending then Some(AlreadyProcessed)
    else None
  }

  /**
   * Approve a Pending entry: it becomes Completed and its member, if one
   * exists, is credited its amount. The entry's type is not checked.
   */
  method ApproveDeposit(db: ClubDb, id: nat) returns (r: Result<()>)
    modifies db`members, db`ledger
    ensures LedgerCoupled(old(db.members), old(db.ledger), db.members, db.ledger)
    ensures r.Err? <==> ProcessFailure(old(db.ledger), id).Some?
    ensures r.Err? ==> r.error == ProcessFailure(old(db.ledger), id).value
                       && db.members == old(db.members) && db.ledger == old(db.ledger)
    ensures r.Ok? ==>
      && id < |old(db.ledger)|
      && var t := old(db.ledger)[id];
      && db.ledger == old(db.ledger)[id := t.(status := TransactionStatus.Completed, memo := DepositApproved)]
      && (t.memberId in old(db.members) ==>
            db.members == old(db.members)[t.memberId := Credited(old(db.members)[t.memberId], t.amount)])
      && (t.memberId !in old(db.members) ==> db.members == old(db.members))
    // TotalDeposit and Tier stay as they were, so a deposit approved here leaves
    // the owner's TotalDeposit behind its approved-deposit sum by the amount.
    ensures r.Ok? ==>
      && db.members.Keys == old(db.members).Keys
      && (forall k | k in db.members ::
            db.members[k].totalDeposit == old(db.members)[k].totalDeposit && db.members[k].tier == old(db.members)[k].tier)
      && var t := old(db.ledger)[id];
      && (t.kind == TransactionType.Deposit ==>
            CompletedDepositSum(db.ledger, t.memberId) == CompletedDepositSum(old(db.ledger), t.memberId) + t.amount)
  {
    if id >= |db.ledger| {
      CoupledRefl(db.members, db.ledger);
      return Err(NotFound);
    }
    var transaction := db.ledger[id];
    if transaction.status != TransactionStatus.Pending {
      CoupledRefl(db.members, db.ledger);
      return Err(AlreadyProcessed);
    }
    var approved := transaction.(status := TransactionStatus.Completed, memo := DepositApproved);
    CompletedDepositSumUpdate(db.ledger, id, approved, transaction.memberId);
    if transaction.memberId in db.members {
      var owner := transaction.memberId;
      var credited := Credited(db.members[owner], transaction.amount);
      ApprovalCoupled(db.members, db.ledger, id, DepositApproved, credited);
      db.members := db.members[owner := credited];
    } else {
      OrphanApprovalCoupled(db.members, db.ledger, id, DepositApproved);
    }
    db.ledger := db.ledger[id := approved];
    return Ok(());
  }

  /** Reject a Pending entry; no balance changes. */
  method RejectDeposit(db: ClubDb, id: nat) returns (r: Result<()>)
    modifies db`ledger
    ensures LedgerCoupled(old(db.members), old(db.ledger), db.members, db.ledger)
    ensures DepositTotalsMatch(old(db.members), old(db.ledger)) ==> DepositTotalsMatch(db.members, db.ledger)
    ensures r.Err? <==> ProcessFailure(old(db.ledger), id).Some?
    ensures r.Err? ==> r.error == ProcessFailure(old(db.ledger), id).value && db.ledger == old(db.ledger)
    ensures r.Ok? ==>
      && id < |old(db.ledger)|
      && db.ledger == old(db.ledger)[id := old(db.ledger)[id].(status := TransactionStatus.Rejected, memo := DepositRejected)]
  {
    if id >= |db.ledger| {
      CoupledRefl(db.members, db.ledger);
      return Err(NotFound);
    }
    var transaction := db.ledger[id];
    if transaction.status != TransactionStatus.Pending {
      CoupledRefl(db.members, db.ledger);
      return Err(AlreadyProcessed);
    }
    RejectionCoupled(db.members, db.ledger, id, DepositRejected);
    if DepositTotalsMatch(db.members, db.ledger) {
      RejectionKeepsTotals(db.members, db.ledger, id, DepositRejected);
    }
    db.ledger := db.ledger[id := transaction.(status := TransactionStatus.Rejected, memo := DepositRejected)];
    return Ok(());
  }

  /**
   * Each entry is processed at most once: once an approval or a rejection has
   * moved it out of Pending, a further approval or rejection of it fails with
   * AlreadyProcessed and changes nothing.
   */
  method RetryProcessed(db: ClubDb, id: nat, approve: bool) returns (r: Result<()>)
    requires id < |db.ledger| && db.ledger[id].status != TransactionStatus.Pending
    modifies db`members, db`ledger
    ensures r == Err(AlreadyProcessed)
    ensures db.members == old(db.members) && db.ledger == old(db.ledger)
  {
    if approve {
      r := ApproveDeposit(db, id);
    } else {
      r := RejectDeposit(db, id);
    }
  }
}
