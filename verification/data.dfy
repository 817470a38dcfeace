/**
 * The club's database context: one mutable store that every controller action
 * and background sweep reads and updates (Data/PcmDbContext.cs is its schema).
 */
module Data {
  import opened Domain
  import opened Ledger

  class ClubDb {
    /** Members by id. */
    var members: map<int, Member>
    /** The court catalogue by id. */
    var courts: map<int, Court>
    /** WalletTransactions; an entry's id is its index. Rows are only appended or have their status changed. */
    var ledger: seq<WalletTransaction>
    /** Bookings; a booking's id is its index. */
    var bookings: seq<Booking>
    /** Challenges; a challenge's id is its index. */
    var challenges: seq<Challenge>
    /** Tournaments; a tournament's id is its index. */
    var tournaments: seq<Tournament>
    var participants: seq<TournamentParticipant>
    var matches: seq<Match>

    constructor (members: map<int, Member>, courts: map<int, Court>)
      ensures this.members == members && this.courts == courts
      ensures ledger == [] && bookings == [] && challenges == []
      ensures tournaments == [] && participants == [] && matches == []
    {
      this.members := members;
      this.courts := courts;
      ledger := [];
      bookings := [];
      challenges := [];
      tournaments := [];
      participants := [];
      matches := [];
    }
  }

  /**
   * The pairing every money-moving action performs: member `id` becomes `r`,
   * whose balance differs by exactly the amount of the Completed entry `t`
   * appended to the ledger.
   */
  method Post(db: ClubDb, id: int, r: Member, t: WalletTransaction)
    requires id in db.members && t.memberId == id && t.status == TransactionStatus.Completed
    requires r.walletBalance == db.members[id].walletBalance + t.amount
    modifies db`members, db`ledger
    ensures db.ledger == old(db.ledger) + [t]
    ensures db.members == old(db.members)[id := r]
    ensures LedgerCoupled(old(db.members), old(db.ledger), db.members, db.ledger)
  {
    PostingCoupled(db.members, db.ledger, id, r, t);
    db.ledger := db.ledger + [t];
    db.members := db.members[id := r];
  }
}
