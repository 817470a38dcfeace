/**
 * The periodic tournament status check (Services/TournamentCleanupService.cs):
 * a first pass finishes every tournament whose end has passed, a second
 * pass starts every Open tournament that is under way.
 */
module TournamentCleanup {
  import opened Domain
  import opened Data

  /** First pass: ended and not yet Finished. */
  predicate Ended(t: Tournament, now: int)
  {
    t.endDate <= now && t.status != TournamentStatus.Finished
  }

  /** Second pass: Open and `StartDate <= now < EndDate`. */
  predicate Started(t: Tournament, now: int)
  {
    t.startDate <= now && t.endDate > now && t.status == TournamentStatus.Open
  }

  /** A tournament as both passes leave it. */
  function Checked(t: Tournament, now: int): (r: Tournament)
    ensures r.(status := t.status) == t
    ensures t.endDate <= now ==> r.status == TournamentStatus.Finished
    ensures t.status == TournamentStatus.Open && t.startDate <= now < t.endDate ==> r.status == TournamentStatus.Ongoing
    // A tournament still running is never finished, a finished one never
    // changes, and only an Open one can become Ongoing.
    ensures t.endDate > now && !(t.status == TournamentStatus.Open && t.startDate <= now) ==> r == t
    ensures t.status == TournamentStatus.Finished ==> r == t
    ensures r.status == TournamentStatus.Ongoing ==> t.status in {TournamentStatus.Open, TournamentStatus.Ongoing}
  {
    var t1 := if Ended(t, now) then t.(status := TournamentStatus.Finished) else t;
    if Started(t1, now) then t1.(status := TournamentStatus.Ongoing) else t1
  }

  /** Checking twice at the same instant is checking once. */
  lemma CheckedIdempotent(t: Tournament, now: int)
    ensures Checked(Checked(t, now), now) == Checked(t, now)
  {
  }

  /** Run both passes over every tournament; nothing else in the store changes. */
  method CheckTournaments(db: ClubDb, now: int)
    modifies db`tournaments
    ensures |db.tournaments| == |old(db.tournaments)|
    ensures forall i | 0 <= i < |db.tournaments| :: db.tournaments[i] == Checked(old(db.tournaments)[i], now)
  {
    var i := 0;
    while i < |db.tournaments|
      invariant 0 <= i <= |db.tournaments| == |old(db.tournaments)|
      invariant forall j | 0 <= j < i :: db.tournaments[j] == (if Ended(old(db.tournaments)[j], now)
                                                                then old(db.tournaments)[j].(status := TournamentStatus.Finished)
                                                                else old(db.tournaments)[j])
      invariant forall j | i <= j < |db.tournaments| :: db.tournaments[j] == old(db.tournaments)[j]
    {
      var t := db.tournaments[i];
      if t.endDate <= now && t.status != TournamentStatus.Finished {
        db.tournaments := db.tournaments[i := t.(status := TournamentStatus.Finished)];
      }
      i := i + 1;
    }
    ghost var afterFirst := db.tournaments;
    i := 0;
    while i < |db.tournaments|
      invariant 0 <= i <= |db.tournaments| == |afterFirst|
      invariant forall j | 0 <= j < i :: db.tournaments[j] == Checked(old(db.tournaments)[j], now)
      invariant forall j | i <= j < |db.tournaments| :: db.tournaments[j] == afterFirst[j]
    {
      var t := db.tournaments[i];
      if t.startDate <= now && t.endDate > now && t.status == TournamentStatus.Open {
        db.tournaments := db.tournaments[i := t.(status := TournamentStatus.Ongoing)];
      }
      i := i + 1;
    }
  }
}
