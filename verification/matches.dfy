/**
 * Recording a match result (Controllers/MatchesController.cs): the result
 * fields are overwritten and, for a ranked match, player 1 of the winning
 * side gains 0.05 rank and player 1 of the other side loses 0.05, both kept
 * within [1.0, 6.0].
 */
module Matches {
  import opened Domain
  import opened Ledger
  import opened Data

  const RANK_DELTA: real := 0.05
  const RANK_MIN: real := 1.0
  const RANK_MAX: real := 6.0

  /** `Math.Max(1.0, Math.Min(6.0, x))`. */
  function Clamp(x: real): (r: real)
    ensures RANK_MIN <= r <= RANK_MAX
    ensures RANK_MIN <= x <= RANK_MAX ==> r == x
    ensures x < RANK_MIN ==> r == RANK_MIN
    ensures x > RANK_MAX ==> r == RANK_MAX
  {
    if x > RANK_MAX then RANK_MAX else if x < RANK_MIN then RANK_MIN else x
  }

  function Raised(rank: real): (r: real)
    ensures RANK_MIN <= r <= RANK_MAX
    ensures rank < RANK_MAX - RANK_DELTA && RANK_MIN <= rank ==> r == rank + RANK_DELTA
    ensures rank >= RANK_MIN ==> r >= rank || rank > RANK_MAX
  {
    Clamp(rank + RANK_DELTA)
  }

  function Lowered(rank: real): (r: real)
    ensures RANK_MIN <= r <= RANK_MAX
    ensures RANK_MIN + RANK_DELTA < rank <= RANK_MAX ==> r == rank - RANK_DELTA
    ensures rank <= RANK_MAX ==> r <= rank || rank < RANK_MIN
  {
    Clamp(rank - RANK_DELTA)
  }

  /** Ranks move only for a ranked match with at least one player 1 set. */
  predicate AdjustsRanks(m: Match)
  {
    m.isRanked && (m.team1Player1.Some? || m.team2Player1.Some?)
  }

  /** The side credited with the win: Team1 only for Team1; Team2 for Team2 and for Draw. */
  function WinnerOf(m: Match, side: WinningSide): Option<int>
  {
    if side == WinningSide.Team1 then m.team1Player1 else m.team2Player1
  }

  function LoserOf(m: Match, side: WinningSide): Option<int>
  {
    if side == WinningSide.Team1 then m.team2Player1 else m.team1Player1
  }

  /** The match after a result is posted, whatever its prior status. */
  function WithResult(m: Match, score1: int, score2: int, details: Option<string>, side: WinningSide): (r: Match)
    ensures r.status == MatchStatus.Finished && r.winningSide == Some(side)
    ensures r.score1 == score1 && r.score2 == score2 && r.details == details
    ensures r.(score1 := m.score1, score2 := m.score2, details := m.details, winningSide := m.winningSide, status := m.status) == m
  {
    m.(score1 := score1, score2 := score2, details := details, winningSide := Some(side), status := MatchStatus.Finished)
  }

  /** Whether member `k` is the (existing) player 1 the rank update touches as winner or loser. */
  predicate Touched(m: Match, side: WinningSide, k: int)
  {
    AdjustsRanks(m) && (WinnerOf(m, side) == Some(k) || LoserOf(m, side) == Some(k))
  }

  method UpdateResult(db: ClubDb, id: nat, score1: int, score2: int, details: Option<string>, side: WinningSide) returns (r: Result<()>)
    modifies db`matches, db`members
    ensures r.Err? <==> id >= |old(db.matches)|
    ensures r.Err? ==> r.error == NotFound && db.matches == old(db.matches) && db.members == old(db.members)
    ensures r.Ok? ==> db.matches == old(db.matches)[id := WithResult(old(db.matches)[id], score1, score2, details, side)]
    // Only RankLevel changes, and only for the two player-1 slots.
    ensures LedgerCoupled(old(db.members), db.ledger, db.members, db.ledger)
    ensures r.Ok? ==>
      && var m := old(db.matches)[id];
      && (forall k | k in db.members :: db.members[k] == old(db.members)[k].(rankLevel := db.members[k].rankLevel))
      && (forall k | k in db.members && !Touched(m, side, k) :: db.members[k] == old(db.members)[k])
    ensures r.Ok? ==>
      && var m := old(db.matches)[id];
      && var w, lo := WinnerOf(m, side), LoserOf(m, side);
      && (AdjustsRanks(m) && w.Some? && w != lo && w.value in old(db.members) ==>
            db.members[w.value].rankLevel == Raised(old(db.members)[w.value].rankLevel))
      && (AdjustsRanks(m) && lo.Some? && w != lo && lo.value in old(db.members) ==>
            db.members[lo.value].rankLevel == Lowered(old(db.members)[lo.value].rankLevel))
      // The same member in both player-1 slots is raised and then lowered.
      && (AdjustsRanks(m) && w.Some? && w == lo && w.value in old(db.members) ==>
            db.members[w.value].rankLevel == Lowered(Raised(old(db.members)[w.value].rankLevel)))
  {
    if id >= |db.matches| {
      return Err(NotFound);
    }
    var played := db.matches[id];
    db.matches := db.matches[id := WithResult(played, score1, score2, details, side)];
    if played.isRanked && (played.team1Player1.Some? || played.team2Player1.Some?) {
      var winnerId := if side == WinningSide.Team1 then played.team1Player1 else played.team2Player1;
      var loserId := if side == WinningSide.Team1 then played.team2Player1 else played.team1Player1;
      if winnerId.Some? && winnerId.value in db.members {
        var w := db.members[winnerId.value];
        db.members := db.members[winnerId.value := w.(rankLevel := Raised(w.rankLevel))];
      }
      if loserId.Some? && loserId.value in db.members {
        var l := db.members[loserId.value];
        db.members := db.members[loserId.value := l.(rankLevel := Lowered(l.rankLevel))];
      }
    }
    return Ok(());
  }

  /**
   * Nothing stops a result from being posted twice: with distinct players in
   * a ranked match, the winner's rank is raised twice.
   */
  method PostResultTwice(db: ClubDb, id: nat, score1: int, score2: int, side: WinningSide) returns (ok: bool)
    modifies db`matches, db`members
    ensures ok <==> id < |old(db.matches)|
    ensures db.members.Keys == old(db.members).Keys
    ensures ok ==>
      && var m := old(db.matches)[id];
      && var w, lo := WinnerOf(m, side), LoserOf(m, side);
      && (AdjustsRanks(m) && w.Some? && w != lo && w.value in old(db.members) ==>
            db.members[w.value].rankLevel == Raised(Raised(old(db.members)[w.value].rankLevel)))
  {
    var first := UpdateResult(db, id, score1, score2, None, side);
    if first.Err? {
      return false;
    }
    var second := UpdateResult(db, id, score1, score2, None, side);
    ok := true;
  }
}
