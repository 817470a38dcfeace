/**
 * Reconciling a member's TotalDeposit and tier with the ledger
 * (Controllers/AuthController.cs, the private helper run on profile reads).
 */
module Auth {
  import opened Domain
  import opened Ledger
  import opened Tiers
  import opened Data

  /** The member with TotalDeposit recomputed from `l` and the tier that goes with it. */
  function Synced(m: Member, l: seq<WalletTransaction>, id: int): (r: Member)
    ensures r.totalDeposit == CompletedDepositSum(l, id)
    ensures r.tier == TierFor(CompletedDepositSum(l, id))
    ensures r.(totalDeposit := m.totalDeposit, tier := m.tier) == m
  {
    UpdateTier(m.(totalDeposit := CompletedDepositSum(l, id)))
  }

  /** Syncing is idempotent: a synced member is its own sync. */
  lemma SyncedIdempotent(m: Member, l: seq<WalletTransaction>, id: int)
    ensures Synced(Synced(m, l, id), l, id) == Synced(m, l, id)
  {
  }

  /** Only Completed entries of type Deposit and of this member count towards the sum. */
  lemma {:induction false} SumIgnoresOtherEntries(l: seq<WalletTransaction>, l': seq<WalletTransaction>, id: int)
    requires |l| == |l'|
    requires forall i | 0 <= i < |l| :: IsCompletedDeposit(l[i], id) == IsCompletedDeposit(l'[i], id)
    requires forall i | 0 <= i < |l| && IsCompletedDeposit(l[i], id) :: l[i].amount == l'[i].amount
    ensures CompletedDepositSum(l, id) == CompletedDepositSum(l', id)
  {
    if l != [] {
      var n := |l| - 1;
      SumIgnoresOtherEntries(l[..n], l'[..n], id);
    }
  }

  /**
   * Set member `id`'s TotalDeposit to the sum of its approved deposits and
   * recompute its tier; balances and the ledger are not touched.
   */
  method SyncMemberTotalDepositAndTier(db: ClubDb, id: int)
    requires id in db.members
    modifies db`members
    ensures db.members == old(db.members)[id := Synced(old(db.members)[id], db.ledger, id)]
    ensures db.members[id].walletBalance == old(db.members)[id].walletBalance
    ensures LedgerCoupled(old(db.members), db.ledger, db.members, db.ledger)
  {
    var totalDeposit := CompletedDepositSum(db.ledger, id);
    var member := db.members[id].(totalDeposit := totalDeposit);
    member := UpdateTier(member);
    UnrelatedFieldsCoupled(db.members, db.ledger, id, member);
    db.members := db.members[id := member];
  }

  /** A second sync yields the same TotalDeposit and tier. */
  method SyncTwice(db: ClubDb, id: int)
    requires id in db.members
    modifies db`members
    ensures db.members == old(db.members)[id := Synced(old(db.members)[id], db.ledger, id)]
  {
    SyncMemberTotalDepositAndTier(db, id);
    ghost var once := db.members;
    SyncMemberTotalDepositAndTier(db, id);
    SyncedIdempotent(old(db.members)[id], db.ledger, id);
    assert db.members == once;
  }
}
