/**
 * Court booking (Controllers/BookingsController.cs): the overlap test, the
 * Holding -> Confirmed/Cancelled lifecycle with its five-minute expiry, direct
 * paid booking, cancellation with refund, and recurring booking.
 *
 * Every action first runs its checks in the source's order; the first one
 * that fails decides the error and (except for an expired hold) nothing
 * changes. Each `...Failure` function below is that ordered list of checks.
 */
module Bookings {
  import opened Domain
  import opened Ledger
  import opened Tiers
  import opened Data

  /** How long a hold lasts: five minutes, in seconds. */
  const HOLD_WINDOW: int := 300

  datatype BookingRequest = BookingRequest(courtId: int, startTime: int, endTime: int)

  /**
   * A recurring request: a date range (only the date part of the two instants
   * counts), a time of day range (only the time part counts) and the selected
   * weekdays, 0 = Sunday.
   */
  datatype RecurringRequest = RecurringRequest(
    courtId: int,
    startDate: int,
    endDate: int,
    startTime: int,
    endTime: int,
    daysOfWeek: seq<int>)

  // ------------------------------------------------------- overlap and price

  /** The three-disjunct overlap test of hold and direct booking against booking `b`. */
  predicate Overlaps(start: int, end: int, b: Booking)
  {
    || (start >= b.startTime && start < b.endTime)
    || (end > b.startTime && end <= b.endTime)
    || (start <= b.startTime && end >= b.endTime)
  }

  /** Booking `b` occupies the requested slot: same court, not Cancelled, overlapping. */
  predicate Blocks(b: Booking, courtId: int, start: int, end: int)
  {
    b.courtId == courtId && b.status != BookingStatus.Cancelled && Overlaps(start, end, b)
  }

  predicate IsOverlapping(bookings: seq<Booking>, courtId: int, start: int, end: int)
  {
    exists i :: 0 <= i < |bookings| && Blocks(bookings[i], courtId, start, end)
  }

  /** Price of a slot: its length in hours times the court's hourly price. */
  function SlotPrice(start: int, end: int, pricePerHour: real): real
  {
    (end - start) as real / SECONDS_PER_HOUR as real * pricePerHour
  }

  /** The expiry test of confirm: CreatedDate + 5 minutes < now. */
  predicate HoldHasExpired(createdDate: int, now: int)
  {
    createdDate + HOLD_WINDOW < now
  }

  /**
   * For non-empty intervals the three-disjunct test is the half-open interval
   * intersection test, and every status but Cancelled blocks.
   */
  lemma BlocksIffIntersects(b: Booking, courtId: int, start: int, end: int)
    requires start < end && b.startTime < b.endTime
    ensures Blocks(b, courtId, start, end)
        <==> b.courtId == courtId && b.status != BookingStatus.Cancelled && start < b.endTime && end > b.startTime
  {
  }

  // ------------------------------------------------------------------ hold

  function HoldFailure(members: map<int, Member>, bookings: seq<Booking>, courts: map<int, Court>, caller: int, req: BookingRequest): Option<Error>
  {
    if caller !in members then Some(Unauthorized)
    else if IsOverlapping(bookings, req.courtId, req.startTime, req.endTime) then Some(SlotTaken)
    else if req.courtId !in courts then Some(InvalidCourt)
    else None
  }

  /** Hold a slot for five minutes; no money moves. Returns the new booking's id. */
  method HoldBooking(db: ClubDb, caller: int, req: BookingRequest, now: int) returns (r: Result<nat>)
    modifies db`bookings
    ensures r.Err? <==> HoldFailure(old(db.members), old(db.bookings), db.courts, caller, req).Some?
    ensures r.Err? ==> r.error == HoldFailure(old(db.members), old(db.bookings), db.courts, caller, req).value
                       && db.bookings == old(db.bookings)
    ensures r.Ok? ==>
      && r.value == |old(db.bookings)|
      && req.courtId in db.courts
      && db.bookings == old(db.bookings) + [Booking(req.courtId, caller, req.startTime, req.endTime,
           SlotPrice(req.startTime, req.endTime, db.courts[req.courtId].pricePerHour),
           BookingStatus.Holding, now, None)]
  {
    if caller !in db.members {
      return Err(Unauthorized);
    }
    if IsOverlapping(db.bookings, req.courtId, req.startTime, req.endTime) {
      return Err(SlotTaken);
    }
    if req.courtId !in db.courts {
      return Err(InvalidCourt);
    }
    var totalPrice := SlotPrice(req.startTime, req.endTime, db.courts[req.courtId].pricePerHour);
    r := Ok(|db.bookings|);
    db.bookings := db.bookings + [Booking(req.courtId, caller, req.startTime, req.endTime, totalPrice, BookingStatus.Holding, now, None)];
  }

  // --------------------------------------------------------------- confirm

  function ConfirmFailure(members: map<int, Member>, bookings: seq<Booking>, caller: int, id: nat, now: int): Option<Error>
  {
    if caller !in members then Some(Unauthorized)
    else if id >= |bookings| then Some(NotFound)
    else if bookings[id].memberId != caller then Some(Forbidden)
    else if bookings[id].status != BookingStatus.Holding then Some(NotHolding)
    else if HoldHasExpired(bookings[id].createdDate, now) then Some(HoldExpired)
    else if members[caller].walletBalance < bookings[id].totalPrice then Some(InsufficientFunds)
    else None
  }

  /** A hold aged exactly five minutes is not expired: the check decides on the balance alone. */
  lemma ConfirmAtWindowEdge(members: map<int, Member>, bookings: seq<Booking>, caller: int, id: nat, now: int)
    requires caller in members && id < |bookings|
    requires bookings[id].memberId == caller && bookings[id].status == BookingStatus.Holding
    requires now == bookings[id].createdDate + HOLD_WINDOW
    ensures ConfirmFailure(members, bookings, caller, id, now) == None
        <==> members[caller].walletBalance >= bookings[id].totalPrice
  {
  }

  /**
   * Pay for a hold. Returns the new balance. An expired hold is set Cancelled
   * and the call fails.
   */
  method ConfirmBooking(db: ClubDb, caller: int, id: nat, now: int) returns (r: Result<real>)
    modifies db`members, db`ledger, db`bookings
    ensures LedgerCoupled(old(db.members), old(db.ledger), db.members, db.ledger)
    ensures r.Err? <==> ConfirmFailure(old(db.members), old(db.bookings), caller, id, now).Some?
    ensures r.Err? ==> r.error == ConfirmFailure(old(db.members), old(db.bookings), caller, id, now).value
                       && db.members == old(db.members) && db.ledger == old(db.ledger)
    ensures r.Err? && r.error != HoldExpired ==> db.bookings == old(db.bookings)
    ensures r == Err(HoldExpired) ==>
      id < |old(db.bookings)| && db.bookings == old(db.bookings)[id := old(db.bookings)[id].(status := BookingStatus.Cancelled)]
    ensures r.Ok? ==>
      && caller in old(db.members) && id < |old(db.bookings)|
      && var b := old(db.bookings)[id];
      && db.ledger == old(db.ledger) + [Entry(caller, -b.totalPrice, TransactionType.Payment, BookingRef(id), HoldPayment(b.courtId), now)]
      && db.members == old(db.members)[caller := Spent(old(db.members)[caller], b.totalPrice)]
      && db.bookings == old(db.bookings)[id := b.(status := BookingStatus.Confirmed, transactionId := Some(|old(db.ledger)|))]
      && r.value == db.members[caller].walletBalance
  {
    if caller !in db.members {
      return Err(Unauthorized);
    }
    if id >= |db.bookings| {
      return Err(NotFound);
    }
    var booking := db.bookings[id];
    if booking.memberId != caller {
      return Err(Forbidden);
    }
    if booking.status != BookingStatus.Holding {
      return Err(NotHolding);
    }
    if booking.createdDate + HOLD_WINDOW < now {
      db.bookings := db.bookings[id := booking.(status := BookingStatus.Cancelled)];
      return Err(HoldExpired);
    }
    if db.members[caller].walletBalance < booking.totalPrice {
      return Err(InsufficientFunds);
    }
    var txId := |db.ledger|;
    Post(db, caller, Spent(db.members[caller], booking.totalPrice),
      Entry(caller, -booking.totalPrice, TransactionType.Payment, BookingRef(id), HoldPayment(booking.courtId), now));
    db.bookings := db.bookings[id := booking.(status := BookingStatus.Confirmed, transactionId := Some(txId))];
    return Ok(db.members[caller].walletBalance);
  }

  // ---------------------------------------------------------- direct booking

  function CreateFailure(members: map<int, Member>, bookings: seq<Booking>, courts: map<int, Court>, caller: int, req: BookingRequest): Option<Error>
  {
    if caller !in members then Some(Unauthorized)
    else if IsOverlapping(bookings, req.courtId, req.startTime, req.endTime) then Some(SlotTaken)
    else if req.courtId !in courts then Some(InvalidCourt)
    else if members[caller].walletBalance < SlotPrice(req.startTime, req.endTime, courts[req.courtId].pricePerHour) then Some(InsufficientFunds)
    else None
  }

  /** Book and pay in one step. Returns the new booking's id. */
  method CreateBooking(db: ClubDb, caller: int, req: BookingRequest, now: int) returns (r: Result<nat>)
    modifies db`members, db`ledger, db`bookings
    ensures LedgerCoupled(old(db.members), old(db.ledger), db.members, db.ledger)
    ensures r.Err? <==> CreateFailure(old(db.members), old(db.bookings), db.courts, caller, req).Some?
    ensures r.Err? ==> r.error == CreateFailure(old(db.members), old(db.bookings), db.courts, caller, req).value
                       && db.members == old(db.members) && db.ledger == old(db.ledger) && db.bookings == old(db.bookings)
    ensures r.Ok? ==>
      && caller in old(db.members) && req.courtId in db.courts
      && var price := SlotPrice(req.startTime, req.endTime, db.courts[req.courtId].pricePerHour);
      && r.value == |old(db.bookings)|
      && db.ledger == old(db.ledger) + [Entry(caller, -price, TransactionType.Payment, BookingRef(r.value), CourtPayment(req.courtId), now)]
      && db.members == old(db.members)[caller := Spent(old(db.members)[caller], price)]
      && db.bookings == old(db.bookings) + [Booking(req.courtId, caller, req.startTime, req.endTime, price,
           BookingStatus.Confirmed, now, Some(|old(db.ledger)|))]
  {
    if caller !in db.members {
      return Err(Unauthorized);
    }
    if IsOverlapping(db.bookings, req.courtId, req.startTime, req.endTime) {
      return Err(SlotTaken);
    }
    if req.courtId !in db.courts {
      return Err(InvalidCourt);
    }
    var totalPrice := SlotPrice(req.startTime, req.endTime, db.courts[req.courtId].pricePerHour);
    if db.members[caller].walletBalance < totalPrice {
      return Err(InsufficientFunds);
    }
    var txId := |db.ledger|;
    var bookingId := |db.bookings|;
    Post(db, caller, Spent(db.members[caller], totalPrice),
      Entry(caller, -totalPrice, TransactionType.Payment, BookingRef(bookingId), CourtPayment(req.courtId), now));
    db.bookings := db.bookings + [Booking(req.courtId, caller, req.startTime, req.endTime, totalPrice, BookingStatus.Confirmed, now, Some(txId))];
    return Ok(bookingId);
  }

  // ---------------------------------------------------------------- cancel

  function CancelFailure(members: map<int, Member>, bookings: seq<Booking>, caller: int, id: nat): Option<Error>
  {
    if caller !in members then Some(Unauthorized)
    else if id >= |bookings| then Some(NotFound)
    else if bookings[id].memberId != caller then Some(Forbidden)
    else if bookings[id].status == BookingStatus.Cancelled then Some(AlreadyCancelled)
    else None
  }

  /** Every owned booking that is not Cancelled can be cancelled, whatever its status. */
  lemma CancelAcceptsEveryLiveStatus(members: map<int, Member>, bookings: seq<Booking>, caller: int, id: nat)
    requires caller in members && id < |bookings| && bookings[id].memberId == caller
    ensures CancelFailure(members, bookings, caller, id) == None <==> bookings[id].status != BookingStatus.Cancelled
  {
  }

  /**
   * Cancel a booking and refund its full price, whatever its status was
   * (a Holding booking was never charged). Returns the refunded amount.
   */
  method CancelBooking(db: ClubDb, caller: int, id: nat, now: int) returns (r: Result<real>)
    modifies db`members, db`ledger, db`bookings
    ensures LedgerCoupled(old(db.members), old(db.ledger), db.members, db.ledger)
    ensures r.Err? <==> CancelFailure(old(db.members), old(db.bookings), caller, id).Some?
    ensures r.Err? ==> r.error == CancelFailure(old(db.members), old(db.bookings), caller, id).value
                       && db.members == old(db.members) && db.ledger == old(db.ledger) && db.bookings == old(db.bookings)
    ensures r.Ok? ==>
      && caller in old(db.members) && id < |old(db.bookings)|
      && var b := old(db.bookings)[id];
      && r.value == b.totalPrice
      && db.ledger == old(db.ledger) + [Entry(caller, b.totalPrice, TransactionType.Refund, BookingRef(id), CancellationRefund(b.courtId), now)]
      && db.members == old(db.members)[caller := Spent(old(db.members)[caller], -b.totalPrice)]
      && db.bookings == old(db.bookings)[id := b.(status := BookingStatus.Cancelled)]
  {
    if caller !in db.members {
      return Err(Unauthorized);
    }
    if id >= |db.bookings| {
      return Err(NotFound);
    }
    var booking := db.bookings[id];
    if booking.memberId != caller {
      return Err(Forbidden);
    }
    if booking.status == BookingStatus.Cancelled {
      return Err(AlreadyCancelled);
    }
    db.bookings := db.bookings[id := booking.(status := BookingStatus.Cancelled)];
    Post(db, caller, Spent(db.members[caller], -booking.totalPrice),
      Entry(caller, booking.totalPrice, TransactionType.Refund, BookingRef(id), CancellationRefund(booking.courtId), now));
    return Ok(booking.totalPrice);
  }

  /**
   * Hold followed by cancel credits the member the price of a slot that was
   * never paid for: cancellation refunds whatever the booking's status.
   */
  method HoldThenCancel(db: ClubDb, caller: int, req: BookingRequest, now: int) returns (ok: bool)
    modifies db`members, db`ledger, db`bookings
    ensures ok <==> HoldFailure(old(db.members), old(db.bookings), db.courts, caller, req) == None
    ensures ok ==> caller in db.members && caller in old(db.members) && req.courtId in db.courts
    ensures ok ==> (db.members[caller].walletBalance
                    == old(db.members)[caller].walletBalance + SlotPrice(req.startTime, req.endTime, db.courts[req.courtId].pricePerHour))
    ensures LedgerCoupled(old(db.members), old(db.ledger), db.members, db.ledger)
  {
    var held := HoldBooking(db, caller, req, now);
    if held.Err? {
      CoupledRefl(db.members, db.ledger);
      return false;
    }
    var cancelled := CancelBooking(db, caller, held.value, now);
    ok := cancelled.Ok?;
  }

  // ------------------------------------------------------------- recurring

  /** The day number of an instant (DateTime.Date). */
  function DayOf(t: int): int
  {
    t / SECONDS_PER_DAY
  }

  /** Seconds since midnight (DateTime.TimeOfDay). */
  function TimeOfDay(t: int): (s: int)
    ensures 0 <= s < SECONDS_PER_DAY
  {
    t % SECONDS_PER_DAY
  }

  /** Day of the week of a day number, 0 = Sunday; day 0 (0001-01-01) was a Monday. */
  function Weekday(day: int): (w: int)
    ensures 0 <= w < 7
  {
    (day + 1) % 7
  }

  /** The recurring path's weaker overlap test: only the first two disjuncts. */
  predicate RecurringOverlaps(start: int, end: int, b: Booking)
  {
    || (start >= b.startTime && start < b.endTime)
    || (end > b.startTime && end <= b.endTime)
  }

  predicate RecurringConflict(bookings: seq<Booking>, courtId: int, start: int, end: int)
  {
    exists i :: 0 <= i < |bookings| && bookings[i].courtId == courtId
                && bookings[i].status != BookingStatus.Cancelled && RecurringOverlaps(start, end, bookings[i])
  }

  /** A candidate slot that strictly contains an existing booking passes the recurring test but not the hold test. */
  lemma RecurringMissesContainedBooking(start: int, end: int, b: Booking)
    requires start < b.startTime && b.endTime < end
    ensures !RecurringOverlaps(start, end, b)
    ensures Overlaps(start, end, b)
  {
  }

  /** The Confirmed booking the recurring path would create on `day`. */
  function SlotOn(caller: int, req: RecurringRequest, pricePerHour: real, now: int, day: int): Booking
  {
    var start := day * SECONDS_PER_DAY + TimeOfDay(req.startTime);
    var end := day * SECONDS_PER_DAY + TimeOfDay(req.endTime);
    Booking(req.courtId, caller, start, end, SlotPrice(start, end, pricePerHour), BookingStatus.Confirmed, now, None)
  }

  /** Day `day` yields a slot: its weekday is selected and its slot has no recurring conflict. */
  predicate Collects(existing: seq<Booking>, caller: int, req: RecurringRequest, pricePerHour: real, now: int, day: int)
  {
    && Weekday(day) in req.daysOfWeek
    && var s := SlotOn(caller, req, pricePerHour, now, day);
       !RecurringConflict(existing, req.courtId, s.startTime, s.endTime)
  }

  /** The slots collected over the days [fromDay, toDay), in day order. */
  function RecurringSlots(existing: seq<Booking>, caller: int, req: RecurringRequest, pricePerHour: real, now: int, fromDay: int, toDay: int): seq<Booking>
    decreases toDay - fromDay
  {
    if toDay <= fromDay then []
    else
      RecurringSlots(existing, caller, req, pricePerHour, now, fromDay, toDay - 1)
      + (if Collects(existing, caller, req, pricePerHour, now, toDay - 1) then [SlotOn(caller, req, pricePerHour, now, toDay - 1)] else [])
  }

  function PriceSum(slots: seq<Booking>): real
  {
    if slots == [] then 0.0 else PriceSum(slots[..|slots| - 1]) + slots[|slots| - 1].totalPrice
  }

  /** Each collected slot is the slot of a selected, conflict-free day of the range. */
  lemma {:induction false} RecurringSlotsSound(existing: seq<Booking>, caller: int, req: RecurringRequest, pricePerHour: real, now: int, fromDay: int, toDay: int)
    ensures forall k :: 0 <= k < |RecurringSlots(existing, caller, req, pricePerHour, now, fromDay, toDay)| ==>
      exists day :: fromDay <= day < toDay && Collects(existing, caller, req, pricePerHour, now, day)
                 && RecurringSlots(existing, caller, req, pricePerHour, now, fromDay, toDay)[k] == SlotOn(caller, req, pricePerHour, now, day)
    decreases toDay - fromDay
  {
    if toDay > fromDay {
      var prefix := RecurringSlots(existing, caller, req, pricePerHour, now, fromDay, toDay - 1);
      var all := RecurringSlots(existing, caller, req, pricePerHour, now, fromDay, toDay);
      RecurringSlotsSound(existing, caller, req, pricePerHour, now, fromDay, toDay - 1);
      var last := Collects(existing, caller, req, pricePerHour, now, toDay - 1);
      assert all == prefix + (if last then [SlotOn(caller, req, pricePerHour, now, toDay - 1)] else []);
      forall k | 0 <= k < |all|
        ensures exists day :: fromDay <= day < toDay && Collects(existing, caller, req, pricePerHour, now, day)
                              && all[k] == SlotOn(caller, req, pricePerHour, now, day)
      {
        if k < |prefix| {
          assert all[k] == prefix[k];
        } else {
          assert last && all[k] == SlotOn(caller, req, pricePerHour, now, toDay - 1);
        }
      }
    } else {
      assert RecurringSlots(existing, caller, req, pricePerHour, now, fromDay, toDay) == [];
    }
  }

  /** Every selected, conflict-free day of the range contributes its slot: conflicts skip a day, they do not fail the request. */
  lemma {:induction false} RecurringSlotsComplete(existing: seq<Booking>, caller: int, req: RecurringRequest, pricePerHour: real, now: int, fromDay: int, toDay: int, day: int)
    requires fromDay <= day < toDay && Collects(existing, caller, req, pricePerHour, now, day)
    ensures SlotOn(caller, req, pricePerHour, now, day) in RecurringSlots(existing, caller, req, pricePerHour, now, fromDay, toDay)
    decreases toDay - fromDay
  {
    if day < toDay - 1 {
      RecurringSlotsComplete(existing, caller, req, pricePerHour, now, fromDay, toDay - 1, day);
    }
  }

  /** The generation loop: walk the days from StartDate.Date to EndDate.Date and collect the free slots. */
  method CollectRecurringSlots(existing: seq<Booking>, caller: int, req: RecurringRequest, pricePerHour: real, now: int)
    returns (slots: seq<Booking>, totalCost: real)
    ensures slots == RecurringSlots(existing, caller, req, pricePerHour, now, DayOf(req.startDate), DayOf(req.endDate) + 1)
    ensures totalCost == PriceSum(slots)
  {
    slots, totalCost := [], 0.0;
    var currentDate := DayOf(req.startDate);
    var endDate := DayOf(req.endDate);
    while currentDate <= endDate
      invariant DayOf(req.startDate) <= currentDate
      invariant currentDate <= endDate + 1 || currentDate == DayOf(req.startDate)
      invariant slots == RecurringSlots(existing, caller, req, pricePerHour, now, DayOf(req.startDate), currentDate)
      invariant totalCost == PriceSum(slots)
      decreases endDate - currentDate
    {
      if Weekday(currentDate) in req.daysOfWeek {
        var start := currentDate * SECONDS_PER_DAY + TimeOfDay(req.startTime);
        var end := currentDate * SECONDS_PER_DAY + TimeOfDay(req.endTime);
        if !RecurringConflict(existing, req.courtId, start, end) {
          var price := SlotPrice(start, end, pricePerHour);
          var b := Booking(req.courtId, caller, start, end, price, BookingStatus.Confirmed, now, None);
          assert (slots + [b])[..|slots|] == slots;
          slots := slots + [b];
          totalCost := totalCost + price;
        }
      }
      currentDate := currentDate + 1;
    }
  }

  function RecurringFailure(members: map<int, Member>, bookings: seq<Booking>, courts: map<int, Court>, caller: int, req: RecurringRequest, now: int): Option<Error>
  {
    if caller !in members then Some(Unauthorized)
    else if TierRank(members[caller].tier) < 2 then Some(TierTooLow)
    else if req.courtId !in courts then Some(InvalidCourt)
    else
      var slots := RecurringSlots(bookings, caller, req, courts[req.courtId].pricePerHour, now, DayOf(req.startDate), DayOf(req.endDate) + 1);
      if slots == [] then Some(NoSlotsAvailable)
      else if members[caller].walletBalance < PriceSum(slots) then Some(InsufficientFunds)
      else None
  }

  /** The collected slots, each linked to the one payment entry. */
  function Linked(slots: seq<Booking>, txId: nat): (r: seq<Booking>)
    ensures |r| == |slots|
    ensures forall k :: 0 <= k < |r| ==> r[k] == slots[k].(transactionId := Some(txId))
  {
    seq(|slots|, k requires 0 <= k < |slots| => slots[k].(transactionId := Some(txId)))
  }

  /**
   * Book the same time on every selected weekday of a date range (Gold tier
   * and above), paying once for all slots. Returns the number of bookings and
   * the total cost.
   */
  method CreateRecurringBooking(db: ClubDb, caller: int, req: RecurringRequest, now: int) returns (r: Result<(nat, real)>)
    modifies db`members, db`ledger, db`bookings
    ensures LedgerCoupled(old(db.members), old(db.ledger), db.members, db.ledger)
    ensures r.Err? <==> RecurringFailure(old(db.members), old(db.bookings), db.courts, caller, req, now).Some?
    ensures r.Err? ==> r.error == RecurringFailure(old(db.members), old(db.bookings), db.courts, caller, req, now).value
                       && db.members == old(db.members) && db.ledger == old(db.ledger) && db.bookings == old(db.bookings)
    ensures r.Ok? ==>
      && caller in old(db.members) && req.courtId in db.courts
      && var slots := RecurringSlots(old(db.bookings), caller, req, db.courts[req.courtId].pricePerHour, now, DayOf(req.startDate), DayOf(req.endDate) + 1);
      && r.value == (|slots|, PriceSum(slots))
      && db.ledger == old(db.ledger) + [Entry(caller, -PriceSum(slots), TransactionType.Payment, NoRelated, RecurringPayment(|slots|), now)]
      && db.members == old(db.members)[caller := Spent(old(db.members)[caller], PriceSum(slots))]
      && db.bookings == old(db.bookings) + Linked(slots, |old(db.ledger)|)
  {
    if caller !in db.members {
      return Err(Unauthorized);
    }
    if TierRank(db.members[caller].tier) < 2 {
      return Err(TierTooLow);
    }
    if req.courtId !in db.courts {
      return Err(InvalidCourt);
    }
    var bookingsToCreate, totalCost := CollectRecurringSlots(db.bookings, caller, req, db.courts[req.courtId].pricePerHour, now);
    if bookingsToCreate == [] {
      return Err(NoSlotsAvailable);
    }
    if db.members[caller].walletBalance < totalCost {
      return Err(InsufficientFunds);
    }
    var txId := |db.ledger|;
    Post(db, caller, Spent(db.members[caller], totalCost),
      Entry(caller, -totalCost, TransactionType.Payment, NoRelated, RecurringPayment(|bookingsToCreate|), now));
    var i := 0;
    while i < |bookingsToCreate|
      invariant 0 <= i <= |bookingsToCreate|
      invariant db.bookings == old(db.bookings) + Linked(bookingsToCreate[..i], txId)
      modifies db`bookings
    {
      assert Linked(bookingsToCreate[..i + 1], txId) == Linked(bookingsToCreate[..i], txId) + [bookingsToCreate[i].(transactionId := Some(txId))];
      db.bookings := db.bookings + [bookingsToCreate[i].(transactionId := Some(txId))];
      i := i + 1;
    }
    assert bookingsToCreate[..i] == bookingsToCreate;
    return Ok((|bookingsToCreate|, totalCost));
  }
}
