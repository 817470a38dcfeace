/**
 * Entities and enumerations of the club backend: members and their wallet,
 * the wallet ledger, courts and bookings, challenges, tournaments, their
 * participants and matches.
 *
 * Conventions used throughout the model:
 *  - money (C# `decimal`) is a `real`, so it is exact;
 *  - an instant (C# `DateTime`) is a whole number of seconds since
 *    0001-01-01 00:00, the origin of `DateTime`; that day was a Monday;
 *  - a row's database id is its index in the store's sequence of rows,
 *    except for members and courts, which are kept in maps by id.
 */
module Domain {

  datatype Option<+T> = None | Some(value: T)

  // ---------------------------------------------------------------- enums

  datatype MemberTier = Standard | Silver | Gold | Diamond

  datatype TransactionType = Deposit | Withdraw | Payment | Refund | Reward

  datatype TransactionStatus = Pending | Completed | Rejected | Failed

  datatype BookingStatus = PendingPayment | Confirmed | Cancelled | Completed | Holding

  datatype TournamentFormat = RoundRobin | Knockout | Hybrid

  datatype TournamentStatus = Open | Registering | DrawCompleted | Ongoing | Finished

  datatype MatchStatus = Scheduled | InProgress | Finished

  datatype WinningSide = Team1 | Team2 | Draw

  datatype ChallengeStatus = Pending | Accepted | Finished | Cancelled

  // ------------------------------------------------------------- entities

  /** A club member; the map key of the store is the member's id. */
  datatype Member = Member(
    walletBalance: real,
    totalSpent: real,
    totalDeposit: real,
    tier: MemberTier,
    rankLevel: real)

  datatype Court = Court(pricePerHour: real)

  /**
   * What a ledger entry's `RelatedId` text holds: nothing, the id of a
   * booking, or the fixed tag that marks challenge stakes, prizes and refunds.
   */
  datatype RelatedId = NoRelated | BookingRef(bookingId: nat) | ChallengeTag

  /**
   * The purpose written in a ledger entry's description, with the values the
   * source interpolates into it.
   */
  datatype Memo =
    | DepositAwaitingApproval
    | DepositApproved
    | DepositRejected
    | HoldPayment(courtId: int)
    | CourtPayment(courtId: int)
    | CancellationRefund(courtId: int)
    | RecurringPayment(sessions: nat)
    | ChallengeStake
    | ChallengeAcceptStake(challengeId: nat)
    | ChallengePrize(challengeId: nat)
    | ChallengeRefund(challengeId: nat)
    | EntryFee(tournamentId: nat)

  /** One ledger entry; `amount` is signed (+ credit, - debit). */
  datatype WalletTransaction = WalletTransaction(
    memberId: int,
    amount: real,
    kind: TransactionType,
    status: TransactionStatus,
    related: RelatedId,
    memo: Memo,
    createdDate: int)

  /** A court booking over the half-open interval [startTime, endTime). */
  datatype Booking = Booking(
    courtId: int,
    memberId: int,
    startTime: int,
    endTime: int,
    totalPrice: real,
    status: BookingStatus,
    createdDate: int,
    transactionId: Option<nat>)

  /** A staked duel; `opponentId == None` means open to anyone. */
  datatype Challenge = Challenge(
    challengerId: int,
    opponentId: Option<int>,
    stakeAmount: real,
    status: ChallengeStatus,
    winnerId: Option<int>,
    message: Option<string>,
    createdDate: int,
    acceptedDate: Option<int>,
    finishedDate: Option<int>)

  datatype Tournament = Tournament(
    name: string,
    startDate: int,
    endDate: int,
    format: TournamentFormat,
    entryFee: real,
    prizePool: real,
    status: TournamentStatus)

  datatype TournamentParticipant = TournamentParticipant(
    tournamentId: nat,
    memberId: int,
    teamName: string,
    paymentStatus: bool)

  /** The two round labels the schedule generator writes. */
  datatype RoundName = FirstRound | GroupStage

  /** A match; `date` is a day number and `startHour` the hour it starts. */
  datatype Match = Match(
    tournamentId: Option<nat>,
    roundName: RoundName,
    date: int,
    startHour: int,
    team1Player1: Option<int>,
    team1Player2: Option<int>,
    team2Player1: Option<int>,
    team2Player2: Option<int>,
    score1: int,
    score2: int,
    details: Option<string>,
    winningSide: Option<WinningSide>,
    isRanked: bool,
    status: MatchStatus)

  // ---------------------------------------------------------------- errors

  /** The reasons an action is refused (HTTP 400/401/403/404 in the source). */
  datatype Error =
    | Unauthorized
    | NotFound
    | Forbidden
    | MissingRequest
    | SlotTaken
    | InvalidCourt
    | NotHolding
    | HoldExpired
    | InsufficientFunds
    | AlreadyCancelled
    | TierTooLow
    | NoSlotsAvailable
    | InvalidStake
    | NotPending
    | SelfAccept
    | InvitedOther
    | NotAccepted
    | NotParticipant
    | InvalidWinner
    | AlreadyFinished
    | AlreadyProcessed
    | AlreadyJoined
    | NotEnoughParticipants

  datatype Result<+T> = Ok(value: T) | Err(error: Error)

  const SECONDS_PER_DAY: int := 86400
  const SECONDS_PER_HOUR: int := 3600
}
