/**
 * One iteration of the background sweep that releases stale holds
 * (Services/BookingCleanupService.cs): every Holding booking created more
 * than five minutes before `now` becomes Cancelled.
 */
module BookingCleanup {
  import opened Domain
  import opened Data
  import Bookings

  /** A hold the sweep releases: Holding and created before `now - 5 min`. */
  predicate Stale(b: Booking, now: int)
  {
    b.status == BookingStatus.Holding && b.createdDate < now - Bookings.HOLD_WINDOW
  }

  /** One booking as the sweep leaves it. */
  function Swept(b: Booking, now: int): (r: Booking)
    ensures r.(status := b.status) == b
    ensures r.status != b.status <==> Stale(b, now)
    ensures Stale(b, now) ==> r.status == BookingStatus.Cancelled
    ensures !Stale(r, now)
  {
    if Stale(b, now) then b.(status := BookingStatus.Cancelled) else b
  }

  /** The sweep and confirm share one boundary: a hold is swept exactly when confirm would call it expired. */
  lemma StaleIffConfirmExpired(b: Booking, now: int)
    requires b.status == BookingStatus.Holding
    ensures Stale(b, now) <==> Bookings.HoldHasExpired(b.createdDate, now)
  {
  }

  /** Release every stale hold; nothing else in the store changes. */
  method Sweep(db: ClubDb, now: int)
    modifies db`bookings
    ensures |db.bookings| == |old(db.bookings)|
    ensures forall i | 0 <= i < |db.bookings| :: db.bookings[i] == Swept(old(db.bookings)[i], now)
  {
    var i := 0;
    while i < |db.bookings|
      invariant 0 <= i <= |db.bookings| == |old(db.bookings)|
      invariant forall j | 0 <= j < i :: db.bookings[j] == Swept(old(db.bookings)[j], now)
      invariant forall j | i <= j < |db.bookings| :: db.bookings[j] == old(db.bookings)[j]
    {
      var booking := db.bookings[i];
      if booking.status == BookingStatus.Holding && booking.createdDate < now - Bookings.HOLD_WINDOW {
        db.bookings := db.bookings[i := booking.(status := BookingStatus.Cancelled)];
      }
      i := i + 1;
    }
  }

  /** A second sweep at the same instant changes nothing: two sweeps leave what one leaves. */
  method SweepTwice(db: ClubDb, now: int)
    modifies db`bookings
    ensures |db.bookings| == |old(db.bookings)|
    ensures forall i | 0 <= i < |db.bookings| :: db.bookings[i] == Swept(old(db.bookings)[i], now)
  {
    Sweep(db, now);
    Sweep(db, now);
  }
}
