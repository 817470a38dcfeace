# PcmBackend club core, modelled in Dafny

A model of the money and scheduling core of a pickleball club backend:
members with a wallet, an append-only ledger of wallet transactions, court
bookings (hold, confirm, direct booking, cancellation, recurring booking),
peer challenges with staked escrow, deposits and their approval, membership
tiers, tournament registration and schedule generation, match results and
rank updates, and the two background sweeps (stale holds, tournament
status).

The database context is one class, `Data.ClubDb`, whose fields are the
tables: members and courts are maps by id, every other table is a sequence
whose index is the row id. Each controller action is a method on that store
with a field-granular `modifies` frame. Each action's checks are an ordered
`...Failure` function (the first failing check decides the error). The
method's contract ties the error to that function, leaves the store unchanged
on error (except that confirm cancels an expired hold before failing), and
states the whole new state on success.

The invariant shared by every money-moving action is `Ledger.LedgerCoupled`.
For each member, `WalletBalance` minus the sum of that member's Completed
ledger amounts is the same before and after the action. In other words,
every balance change is paired with a Completed entry of the same signed
amount. Every action that touches balances or the ledger ensures it.

Conventions:

- money (`decimal`) is `real`;
- an instant (`DateTime`) is whole seconds since 0001-01-01 (a Monday) and a
  date is a day number, so `Weekday(day) = (day + 1) % 7` with 0 = Sunday;
- `RankLevel` (`double`) is `real`;
- the knockout shuffle is an input permutation;
- the clock (`DateTime.Now`) is a `now` parameter.

The model follows the code as written, including these behaviours a reader
might not expect:

- cancelling a booking always refunds its price, also for a Holding booking
  that was never charged;
- cancelling a challenge refunds the recorded opponent even if the opponent
  never accepted;
- joining a tournament checks funds before checking for a duplicate entry;
- the wallet approval path credits the balance but leaves `TotalDeposit` and
  the tier as they were; only the admin approval and the profile sync
  update them.

## Model

| member | source | states |
|---|---|---|
| Tiers.TierFor | PcmBackend/Models/MemberTierHelper.cs:9-19 | Diamond iff TotalDeposit ≥ 10,000,000; Gold iff in [5,000,000, 10,000,000); Silver iff in [1,000,000, 5,000,000); Standard iff below 1,000,000, negatives included |
| Tiers.UpdateTier | PcmBackend/Models/MemberTierHelper.cs:14-20 | the new tier is a function of TotalDeposit alone and no field but `tier` changes |
| Tiers.TierMonotone | PcmBackend/Models/MemberTierHelper.cs:16-19 | a larger TotalDeposit never yields a lower tier |
| Tiers.TierBoundaries | PcmBackend/Models/MemberTierHelper.cs:9-19 | 999,999 is Standard, 1,000,000 Silver, 4,999,999 Silver, 5,000,000 Gold, 9,999,999 Gold, 10,000,000 Diamond, −1 Standard |
| Tiers.TierRank | Backend/PcmBackend/Models/Enums.cs:3-9 | the enum's numeric value is at most 3 |
| Ledger.Entry | PcmBackend/Controllers/BookingsController.cs:106-116 | a Completed entry adds exactly its signed amount to its member's Completed sum |
| Ledger.Credited | Backend/PcmBackend/Controllers/ChallengesController.cs:56 | the balance moves by exactly the amount and no other field changes |
| Ledger.Spent | PcmBackend/Controllers/BookingsController.cs:118-119 | balance down and TotalSpent up by the same price, nothing else changes |
| Ledger.PostingCoupled | PcmBackend/Controllers/BookingsController.cs:106-119 | a balance change paired with a Completed entry of the same amount keeps every member's balance-minus-ledger difference |
| Ledger.UncompletedEntryCoupled | PcmBackend/Controllers/WalletController.cs:33-44 | appending an entry that is not Completed keeps the coupling with no balance change |
| Ledger.ApprovalCoupled | PcmBackend/Controllers/WalletController.cs:81-88 | moving a Pending entry to Completed while crediting its member by its amount keeps the coupling |
| Ledger.OrphanApprovalCoupled | PcmBackend/Controllers/WalletController.cs:81-88 | completing the entry of a member that does not exist touches no member's difference |
| Ledger.RejectionCoupled | PcmBackend/Controllers/WalletController.cs:108-109 | rejecting a Pending entry keeps the coupling |
| Ledger.CompletedSumUpdate | PcmBackend/Controllers/WalletController.cs:81 | rewriting one entry changes a Completed sum by exactly the difference of the two contributions |
| Ledger.CompletedDepositSumUpdate | PcmBackend/Controllers/AdminController.cs:81 | the same for the sum of Completed deposits |
| Ledger.NonDepositEntryKeepsTotals | Backend/PcmBackend/Controllers/AuthController.cs:133-135 | an appended entry that is not a Completed deposit keeps TotalDeposit equal to the approved-deposit sum for every member |
| Ledger.DepositApprovalKeepsTotals | PcmBackend/Controllers/AdminController.cs:81-87 | completing a Pending deposit while raising its owner's TotalDeposit by its amount keeps every TotalDeposit equal to the approved-deposit sum |
| Ledger.RejectionKeepsTotals | PcmBackend/Controllers/WalletController.cs:108-109 | rejecting a Pending entry keeps every TotalDeposit equal to the approved-deposit sum |
| Data.Post | PcmBackend/Controllers/BookingsController.cs:106-119 | the ledger gains exactly one Completed entry, one member is replaced, and the coupling holds |
| Bookings.BlocksIffIntersects | PcmBackend/Controllers/BookingsController.cs:44-49 | for non-empty intervals the three-disjunct test is `start < b.End && end > b.Start`, on the same court, for every status but Cancelled |
| Bookings.HoldBooking | PcmBackend/Controllers/BookingsController.cs:37-76 | fails (member, overlap, court, in that order) and adds nothing, or appends one Holding booking priced hours × PricePerHour with CreatedDate = now; balances and ledger untouched |
| Bookings.ConfirmAtWindowEdge | PcmBackend/Controllers/BookingsController.cs:93 | a hold aged exactly five minutes is not expired: confirm then succeeds iff the balance covers the price |
| Bookings.ConfirmBooking | PcmBackend/Controllers/BookingsController.cs:80-141 | ordered checks (owner, Holding, expiry, funds); an expired hold is set Cancelled and fails; success posts a Completed Payment of −price tied to the booking, balance −price, TotalSpent +price, status Confirmed, TransactionId = that entry; coupling kept |
| Bookings.CreateBooking | PcmBackend/Controllers/BookingsController.cs:145-222 | same overlap check, then funds; success appends one Confirmed booking linked to one Payment of −price that refers back to it; balance −price, TotalSpent +price |
| Bookings.CancelAcceptsEveryLiveStatus | PcmBackend/Controllers/BookingsController.cs:241-242 | an owned booking can be cancelled exactly when it is not already Cancelled, whatever else its status |
| Bookings.CancelBooking | PcmBackend/Controllers/BookingsController.cs:230-279 | owner checked first, then already-Cancelled; success sets Cancelled and always refunds: Refund entry +price, balance +price, TotalSpent −price |
| Bookings.HoldThenCancel | PcmBackend/Controllers/BookingsController.cs:250-262 | a hold followed by its cancellation succeeds exactly when the hold is accepted, and then leaves the member richer by the slot's price |
| Bookings.TimeOfDay | PcmBackend/Controllers/BookingsController.cs:305-306 | the time part of an instant lies in one day |
| Bookings.Weekday | PcmBackend/Controllers/BookingsController.cs:303 | a weekday number lies in 0..6 |
| Bookings.RecurringMissesContainedBooking | PcmBackend/Controllers/BookingsController.cs:309-313 | the two-disjunct recurring test lets through a slot that strictly contains an existing booking, which the hold test rejects |
| Bookings.RecurringSlotsSound | PcmBackend/Controllers/BookingsController.cs:300-333 | every collected slot is the slot of a day in the range whose weekday is selected and that has no recurring conflict |
| Bookings.RecurringSlotsComplete | PcmBackend/Controllers/BookingsController.cs:300-333 | every selected, conflict-free day of the range contributes its slot, so conflicts skip a day rather than fail |
| Bookings.CollectRecurringSlots | PcmBackend/Controllers/BookingsController.cs:296-333 | the loop collects exactly the slots of the days StartDate.Date … EndDate.Date, and totalCost is the sum of their prices |
| Bookings.CreateRecurringBooking | PcmBackend/Controllers/BookingsController.cs:282-375 | fails below Gold first, then on court, no slots, funds; success posts one Payment of −totalCost, balance −totalCost, TotalSpent +totalCost, and appends every slot Confirmed with TransactionId = that entry |
| Challenges.Create | Backend/PcmBackend/Controllers/ChallengesController.cs:35-81 | stake ≤ 0 then funds fail with no change; success appends a Pending challenge (any OpponentId, the challenger included), balance −stake, one Completed Payment of −stake |
| Challenges.Accept | Backend/PcmBackend/Controllers/ChallengesController.cs:131-177 | ordered checks Pending, not the challenger, the invited member if targeted, funds; success sets OpponentId = caller, Accepted, AcceptedDate, balance −stake, one Payment entry |
| Challenges.SetResult | Backend/PcmBackend/Controllers/ChallengesController.cs:181-231 | requires Accepted, a participating caller and a winner among challenger and `OpponentId ?? 0`; success sets Finished, WinnerId, FinishedDate and pays an existing winner exactly 2 × stake as one Reward entry; the loser is untouched |
| Challenges.RefundCount | Backend/PcmBackend/Controllers/ChallengesController.cs:257-290 | a member receives at most two stakes from one cancellation |
| Challenges.Cancel | Backend/PcmBackend/Controllers/ChallengesController.cs:235-295 | fails on Finished, then Cancelled, then a non-participant; success sets Cancelled and credits every member one stake per role (challenger, recorded opponent) with one Refund entry each |
| Challenges.TerminalStatesRefuseEverything | Backend/PcmBackend/Controllers/ChallengesController.cs:141-142 | on a Finished or Cancelled challenge accept, set-result and cancel all fail, so nothing changes |
| Challenges.StakeAcceptSettle | Backend/PcmBackend/Controllers/ChallengesController.cs:56-221 | create, accept, settle between two members succeeds exactly when both exist, the stake is positive and covered by both, and the invite is open or names the acceptor; then winner +stake, loser −stake, the pair's total unchanged |
| Challenges.StakeAcceptCancel | Backend/PcmBackend/Controllers/ChallengesController.cs:56-290 | create, accept, cancel succeeds exactly under the same conditions with one of the two cancelling; then both members restored exactly |
| Challenges.OpenStakeCancel | Backend/PcmBackend/Controllers/ChallengesController.cs:56-271 | an open challenge cancelled by its challenger succeeds exactly when the challenger exists and can cover a positive stake, and then restores every member exactly |
| Challenges.InviteeCancelsUnaccepted | Backend/PcmBackend/Controllers/ChallengesController.cs:250-290 | the invitee of a Pending challenge may cancel it and is credited a stake it never paid |
| Wallet.DepositRow | PcmBackend/Controllers/WalletController.cs:33-41 | the filed row is a Pending Deposit of the requested amount, for the caller |
| Wallet.Deposit | PcmBackend/Controllers/WalletController.cs:27-49 | fails only for an unknown member; success appends one Pending Deposit of any amount, no balance change |
| Wallet.ApproveDeposit | PcmBackend/Controllers/WalletController.cs:73-96 | fails unless the entry exists and is Pending; success sets Completed and credits the existing member by the amount, changes only that entry and that balance, and leaves TotalDeposit and tier, so the deposit sum runs ahead of TotalDeposit by the amount |
| Wallet.RejectDeposit | PcmBackend/Controllers/WalletController.cs:100-114 | fails unless Pending; success sets Rejected and changes no balance and no other entry |
| Wallet.RetryProcessed | PcmBackend/Controllers/WalletController.cs:78-79 | an entry no longer Pending is refused by both approve and reject with no change: each entry is processed at most once |
| Admin.DepositCredited | PcmBackend/Controllers/AdminController.cs:86-88 | balance and TotalDeposit both rise by the amount and the tier is that of the new TotalDeposit |
| Admin.ApproveWalletDeposit | PcmBackend/Controllers/AdminController.cs:74-92 | fails unless Pending; success sets Completed, raises the existing member's balance and TotalDeposit and recomputes the tier; a missing member leaves only the entry changed; approved deposits keep TotalDeposit equal to the deposit sum |
| Admin.ApproveTwice | PcmBackend/Controllers/AdminController.cs:78-79 | a second approval fails and leaves balance and TotalDeposit as the first left them |
| Auth.Synced | Backend/PcmBackend/Controllers/AuthController.cs:133-137 | TotalDeposit becomes the member's Completed-deposit sum, the tier follows it, nothing else changes |
| Auth.SumIgnoresOtherEntries | Backend/PcmBackend/Controllers/AuthController.cs:134 | entries that are not this member's Completed deposits do not affect the sum |
| Auth.SyncedIdempotent | Backend/PcmBackend/Controllers/AuthController.cs:133-137 | syncing a synced member changes nothing |
| Auth.SyncMemberTotalDepositAndTier | Backend/PcmBackend/Controllers/AuthController.cs:131-139 | only that member's TotalDeposit and tier change; balance and ledger are untouched |
| Auth.SyncTwice | Backend/PcmBackend/Controllers/AuthController.cs:131-139 | two syncs leave what one leaves |
| Tournaments.JoinedFundedCallerRefused | PcmBackend/Controllers/TournamentsController.cs:121-126 | the funds check comes before the duplicate check |
| Tournaments.JoinTournament | PcmBackend/Controllers/TournamentsController.cs:110-163 | fails in order on missing request, unknown tournament, no member, funds, already joined; success posts a Payment of −fee, balance −fee, TotalSpent +fee, appends one paid participant, and keeps one participant per (tournament, member) |
| Tournaments.ParticipantsOf | PcmBackend/Controllers/TournamentsController.cs:173-176 | a member is listed iff it has a participant row in the tournament; with one row per member the list has no repeats |
| Tournaments.Positions | PcmBackend/Controllers/TournamentsController.cs:186 | the positions of an n-element list are exactly 0 … n−1, n of them |
| Tournaments.ImageOf | PcmBackend/Controllers/TournamentsController.cs:186 | k pairwise different positions form a set of k elements |
| Tournaments.PermutationIsOnto | PcmBackend/Controllers/TournamentsController.cs:186 | a shuffle order of n different positions below n uses every position |
| Tournaments.Reordered | PcmBackend/Controllers/TournamentsController.cs:186 | the shuffled list has the same length and exactly the same members as the participant list, and has no repeats when the list has none |
| Tournaments.DrawUsesOnlyParticipants | PcmBackend/Controllers/TournamentsController.cs:187-225 | every drawn match seats a participant on each side |
| Tournaments.DrawCoversParticipants | PcmBackend/Controllers/TournamentsController.cs:187-225 | at most one participant is left out of the draw; none in a round robin or an even knockout |
| Tournaments.GenerateSchedule | PcmBackend/Controllers/TournamentsController.cs:168-231 | fails on unknown tournament or fewer than 2 participants with no change; success appends the draw, sets DrawCompleted and returns its count: n div 2 for Knockout, n(n−1)/2 otherwise; every seat goes to a registered participant; at most one participant is left out, none unless the knockout count is odd; nobody plays twice in a knockout round |
| Schedule.Generated | PcmBackend/Controllers/TournamentsController.cs:189-199 | a generated match is Scheduled, ranked, in the tournament, one player per side, starting between 9 and 12 |
| Schedule.SlotsDistinct | PcmBackend/Controllers/TournamentsController.cs:215-216 | distinct match numbers get distinct (day, hour) slots, four per day |
| Schedule.KnockoutRound | PcmBackend/Controllers/TournamentsController.cs:187-202 | the first round has ⌊n/2⌋ matches |
| Schedule.KnockoutPlaysEachOnce | PcmBackend/Controllers/TournamentsController.cs:187-196 | with distinct participants no one appears twice, and with odd n the last one is unpaired |
| Schedule.KnockoutSeatsAllButLast | PcmBackend/Controllers/TournamentsController.cs:187-196 | every position of the shuffled list plays in the first round except the last one of an odd count |
| Schedule.PairKnockoutRound | PcmBackend/Controllers/TournamentsController.cs:187-202 | the loop pairs positions (0,1), (2,3), … all on the start day |
| Schedule.RowPrefix | PcmBackend/Controllers/TournamentsController.cs:209 | the inner loop's pairs for row i up to column j all start at i and end in (i, j) |
| Schedule.RowsBefore | PcmBackend/Controllers/TournamentsController.cs:207-209 | every visited pair has the lower index first and lies within the list |
| Schedule.RowsBeforeLength | PcmBackend/Controllers/TournamentsController.cs:207-209 | rows 0 … i−1 hold i(2n − i − 1)/2 pairs |
| Schedule.RowsBeforeComplete | PcmBackend/Controllers/TournamentsController.cs:207-209 | a pair (a, b) is visited in rows 0 … i−1 iff a < i and a < b < n |
| Schedule.RowsBeforeIncreasing | PcmBackend/Controllers/TournamentsController.cs:207-209 | pairs are visited in strictly increasing lexicographic order, so never twice |
| Schedule.RoundRobinShape | PcmBackend/Controllers/TournamentsController.cs:204-225 | exactly n(n−1)/2 matches, one per pair i < j with i on Team1, no pair twice, no two in the same (day, hour) slot |
| Schedule.RoundRobinSeatsEveryone | PcmBackend/Controllers/TournamentsController.cs:207-218 | with at least two participants, every one of them plays in the round robin |
| Schedule.PairRoundRobin | PcmBackend/Controllers/TournamentsController.cs:207-225 | the nested loops produce exactly the round robin, match k on day StartDate + k div 4 at hour 9 + k mod 4 |
| Matches.Clamp | PcmBackend/Controllers/MatchesController.cs:65 | the result lies in [1.0, 6.0] and equals the input when it already does |
| Matches.Raised | PcmBackend/Controllers/MatchesController.cs:59-65 | the winner's new rank lies in [1.0, 6.0], is 0.05 higher below the cap, and never lower |
| Matches.Lowered | PcmBackend/Controllers/MatchesController.cs:59-70 | the loser's new rank lies in [1.0, 6.0], is 0.05 lower above the floor, and never higher |
| Matches.WithResult | PcmBackend/Controllers/MatchesController.cs:51-55 | scores, details and WinningSide are set and the status is Finished, whatever it was; nothing else changes |
| Matches.UpdateResult | PcmBackend/Controllers/MatchesController.cs:44-80 | unknown match fails; otherwise the result is written; only a ranked match with a player 1 moves ranks; the winner is Team1's player 1 only for Team1 (a Draw counts as Team2); only the two player-1 ranks change |
| Matches.PostResultTwice | PcmBackend/Controllers/MatchesController.cs:48-57 | nothing refuses a second result, and the winner's rank is raised twice |
| BookingCleanup.Swept | Backend/PcmBackend/Services/BookingCleanupService.cs:36-45 | only the status can change; it changes iff the booking is Holding and created before now − 5 min, and then to Cancelled; no stale hold remains |
| BookingCleanup.StaleIffConfirmExpired | Backend/PcmBackend/Services/BookingCleanupService.cs:33-37 | the sweep releases a hold exactly when confirm would reject it as expired |
| BookingCleanup.Sweep | Backend/PcmBackend/Services/BookingCleanupService.cs:28-51 | every booking ends as one sweep leaves it; no other table changes |
| BookingCleanup.SweepTwice | Backend/PcmBackend/Services/BookingCleanupService.cs:37 | a second sweep at the same instant changes nothing |
| TournamentCleanup.Checked | PcmBackend/Services/TournamentCleanupService.cs:45-70 | ended tournaments become Finished; an Open one under way becomes Ongoing; one still running is never finished; a Finished one never changes; only an Open one becomes Ongoing |
| TournamentCleanup.CheckedIdempotent | PcmBackend/Services/TournamentCleanupService.cs:42-72 | checking twice at the same instant is checking once |
| TournamentCleanup.CheckTournaments | PcmBackend/Services/TournamentCleanupService.cs:37-73 | the two passes leave every tournament as `Checked` says and change no other table |

## Left out

- HTTP and identity plumbing: the caller is an already-resolved member id, and "no such member" is an error value. Role attributes are not modelled.
- SignalR notifications and logging: fire-and-forget output with no effect on the state.
- Entity Framework mechanics: each successful action is one atomic update. An entity's id is its row index, and the two-phase assignment of TransactionId and RelatedId collapses to that index. Database transactions and rollback are not modelled.
- Concurrency: the races between check and write, and between the sweeper and confirm, are out of scope for a sequential model.
- Timer loops: each sweep is one iteration with `now` as a parameter.
- Floating point: `TotalHours` is an exact ratio of seconds, and `RankLevel` is an exact real, so rounding is not modelled.
- Randomness: the knockout shuffle is an input permutation.
- Calendar: dates are day numbers with a weekday function, and time zones and `DateTime.Kind` are not modelled.
- Bookings.CreateBooking and Bookings.CreateRecurringBooking: the Booking entity file is not part of this model, so a booking's CreatedDate defaults to the instant of its creation.
- Bookings.CreateRecurringBooking: a slot conflicts only with bookings already stored, not with slots from the same request, because the source queries the stored bookings only.
- Decimal range: money is an unbounded real, so the overflow exception `decimal` raises past about 7.9 × 10^28 is not modelled.
- Decimal precision: the schema stores WalletBalance, TotalSpent, TotalDeposit and Amount as `decimal(18,2)`, so saved amounts are rounded to cents; the model keeps exact reals, for example the price of a fractional number of hours.
- Tournaments.ParticipantsOf: lists participants in row (id) order. The generator's query has no ordering clause, so the database decides the order that fixes Team1/Team2 and each round-robin slot; the model assumes row order.
- Ledger descriptions: free text is modelled as the `Memo` datatype, carrying the values the text interpolates. The tournament name in the entry-fee text becomes the tournament id.
- The list, calendar and dashboard queries, seeding, migrations and `CreateTournament` are not part of this model.
