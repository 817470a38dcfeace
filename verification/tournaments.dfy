/**
 * Tournament registration and the schedule generator
 * (Controllers/TournamentsController.cs): joining pays the entry fee and
 * records a participant; generating the schedule appends the draw's matches
 * and moves the tournament to DrawCompleted.
 */
module Tournaments {
  import opened Domain
  import opened Ledger
  import opened Data
  import opened Schedule
  import Bookings

  /** The join request body; a missing body is `None` at the call. */
  datatype JoinRequest = JoinRequest(teamName: Option<string>)

  /** `request.TeamName ?? ""`. */
  function TeamNameOf(request: JoinRequest): string
  {
    match request.teamName
    case Some(name) => name
    case None => ""
  }

  /** Whether member `memberId` already has a participant row in tournament `tid`. */
  predicate Joined(ps: seq<TournamentParticipant>, tid: nat, memberId: int)
  {
    exists i | 0 <= i < |ps| :: ps[i].tournamentId == tid && ps[i].memberId == memberId
  }

  /** At most one participant row per (tournament, member). */
  predicate OneEntryEach(ps: seq<TournamentParticipant>)
  {
    forall i, j | 0 <= i < j < |ps| :: !(ps[i].tournamentId == ps[j].tournamentId && ps[i].memberId == ps[j].memberId)
  }

  // ------------------------------------------------------------------ join

  function JoinFailure(request: Option<JoinRequest>, tournaments: seq<Tournament>, members: map<int, Member>,
                       participants: seq<TournamentParticipant>, caller: int, id: nat): Option<Error>
  {
    if request.None? then Some(MissingRequest)
    else if id >= |tournaments| then Some(NotFound)
    else if caller !in members then Some(Unauthorized)
    else if members[caller].walletBalance < tournaments[id].entryFee then Some(InsufficientFunds)
    else if Joined(participants, id, caller) then Some(AlreadyJoined)
    else None
  }

  /** A funded caller who is already registered is refused as already joined, not for funds. */
  lemma JoinedFundedCallerRefused(tournaments: seq<Tournament>, members: map<int, Member>,
                                  participants: seq<TournamentParticipant>, caller: int, id: nat, request: JoinRequest)
    requires id < |tournaments| && caller in members && members[caller].walletBalance >= tournaments[id].entryFee
    requires Joined(participants, id, caller)
    ensures JoinFailure(Some(request), tournaments, members, participants, caller, id) == Some(AlreadyJoined)
  {
  }

  /**
   * Pay tournament `id`'s entry fee and register the caller as a paid
   * participant. Returns the participant's id.
   */
  method JoinTournament(db: ClubDb, caller: int, id: nat, request: Option<JoinRequest>, now: int) returns (r: Result<nat>)
    modifies db`members, db`ledger, db`participants
    ensures LedgerCoupled(old(db.members), old(db.ledger), db.members, db.ledger)
    ensures OneEntryEach(old(db.participants)) ==> OneEntryEach(db.participants)
    ensures r.Err? <==> JoinFailure(request, db.tournaments, old(db.members), old(db.participants), caller, id).Some?
    ensures r.Err? ==> r.error == JoinFailure(request, db.tournaments, old(db.members), old(db.participants), caller, id).value
                       && db.members == old(db.members) && db.ledger == old(db.ledger) && db.participants == old(db.participants)
    ensures r.Ok? ==>
      && request.Some? && id < |db.tournaments| && caller in old(db.members)
      && var fee := db.tournaments[id].entryFee;
      && r.value == |old(db.participants)|
      && db.participants == old(db.participants) + [TournamentParticipant(id, caller, TeamNameOf(request.value), true)]
      && db.members == old(db.members)[caller := Spent(old(db.members)[caller], fee)]
      && db.ledger == old(db.ledger) + [Entry(caller, -fee, TransactionType.Payment, NoRelated, EntryFee(id), now)]
  {
    if request.None? {
      return Err(MissingRequest);
    }
    if id >= |db.tournaments| {
      return Err(NotFound);
    }
    var tournament := db.tournaments[id];
    if caller !in db.members {
      return Err(Unauthorized);
    }
    if db.members[caller].walletBalance < tournament.entryFee {
      return Err(InsufficientFunds);
    }
    if exists i | 0 <= i < |db.participants| :: db.participants[i].tournamentId == id && db.participants[i].memberId == caller {
      return Err(AlreadyJoined);
    }
    Post(db, caller, Spent(db.members[caller], tournament.entryFee),
      Entry(caller, -tournament.entryFee, TransactionType.Payment, NoRelated, EntryFee(id), now));
    r := Ok(|db.participants|);
    db.participants := db.participants + [TournamentParticipant(id, caller, TeamNameOf(request.value), true)];
  }

  // -------------------------------------------------------- participant list

  /** The member ids of tournament `tid`'s participants, in row order. */
  function ParticipantsOf(ps: seq<TournamentParticipant>, tid: nat): (r: seq<int>)
    ensures forall m :: m in r <==> Joined(ps, tid, m)
    ensures OneEntryEach(ps) ==> Distinct(r)
  {
    if ps == [] then []
    else
      var n := |ps| - 1;
      var prefix := ParticipantsOf(ps[..n], tid);
      assert forall m :: Joined(ps[..n], tid, m) ==> Joined(ps, tid, m) by {
        forall m | Joined(ps[..n], tid, m)
          ensures Joined(ps, tid, m)
        {
          var i :| 0 <= i < n && ps[..n][i].tournamentId == tid && ps[..n][i].memberId == m;
          assert ps[i] == ps[..n][i];
        }
      }
      assert forall m :: Joined(ps, tid, m) ==> Joined(ps[..n], tid, m) || (ps[n].tournamentId == tid && ps[n].memberId == m) by {
        forall m | Joined(ps, tid, m)
          ensures Joined(ps[..n], tid, m) || (ps[n].tournamentId == tid && ps[n].memberId == m)
        {
          var i :| 0 <= i < |ps| && ps[i].tournamentId == tid && ps[i].memberId == m;
          if i < n {
            assert ps[..n][i] == ps[i];
          }
        }
      }
      assert OneEntryEach(ps) ==> OneEntryEach(ps[..n]) && (ps[n].tournamentId == tid ==> !Joined(ps[..n], tid, ps[n].memberId)) by {
        if OneEntryEach(ps) {
          forall i, j | 0 <= i < j < n
            ensures !(ps[..n][i].tournamentId == ps[..n][j].tournamentId && ps[..n][i].memberId == ps[..n][j].memberId)
          {
            assert ps[..n][i] == ps[i] && ps[..n][j] == ps[j];
          }
        }
      }
      prefix + (if ps[n].tournamentId == tid then [ps[n].memberId] else [])
  }

  // ------------------------------------------------------ schedule generation

  /** `order` lists the positions 0 … n-1 each once: the shuffle's permutation. */
  predicate IsPermutation(order: seq<nat>, n: nat)
  {
    && |order| == n
    && (forall i | 0 <= i < n :: order[i] < n)
    && (forall i, j | 0 <= i < j < n :: order[i] != order[j])
  }

  /** The positions 0 … n-1 as a set. */
  function Positions(n: nat): (s: set<nat>)
    ensures forall p :: p in s <==> 0 <= p < n
    ensures |s| == n
  {
    if n == 0 then {}
    else
      var below := Positions(n - 1);
      assert n - 1 !in below;
      below + {n - 1}
  }

  /** The set of values order[0], …, order[k-1]: k of them, since they are pairwise different. */
  function ImageOf(order: seq<nat>, k: nat): (s: set<nat>)
    requires k <= |order|
    requires forall i, j | 0 <= i < j < k :: order[i] != order[j]
    ensures forall p :: p in s <==> exists i | 0 <= i < k :: order[i] == p
    ensures |s| == k
  {
    if k == 0 then {}
    else
      var before := ImageOf(order, k - 1);
      assert order[k - 1] !in before;
      before + {order[k - 1]}
  }

  /** Pigeonhole: n pairwise different positions below n are all the positions below n. */
  lemma PermutationIsOnto(order: seq<nat>, n: nat)
    requires IsPermutation(order, n)
    ensures ImageOf(order, n) == Positions(n)
  {
    var taken, all := ImageOf(order, n), Positions(n);
    assert taken <= all;
    assert |all - taken| == |all| - |taken| == 0;
    assert all - taken == {};
  }

  /** The list rearranged by `order`: the same members, each position used once. */
  function Reordered(players: seq<int>, order: seq<nat>): (r: seq<int>)
    requires IsPermutation(order, |players|)
    ensures |r| == |players|
    ensures forall x :: x in r <==> x in players
    ensures Distinct(players) ==> Distinct(r)
  {
    var r := seq(|order|, i requires 0 <= i < |order| => players[order[i]]);
    assert forall x | x in players :: x in r by {
      PermutationIsOnto(order, |players|);
      forall x | x in players
        ensures x in r
      {
        var p :| 0 <= p < |players| && players[p] == x;
        assert p in Positions(|players|);
        var i :| 0 <= i < |players| && order[i] == p;
        assert r[i] == x;
      }
    }
    r
  }

  function GenerateFailure(tournaments: seq<Tournament>, participants: seq<TournamentParticipant>, id: nat): Option<Error>
  {
    if id >= |tournaments| then Some(NotFound)
    else if |ParticipantsOf(participants, id)| < 2 then Some(NotEnoughParticipants)
    else None
  }

  /** The matches the generator draws: a knockout first round for Knockout, a round robin otherwise. */
  function Draw(t: Tournament, id: nat, players: seq<int>, order: seq<nat>): seq<Match>
    requires IsPermutation(order, |players|)
  {
    var baseDay := Bookings.DayOf(t.startDate);
    if t.format == TournamentFormat.Knockout then KnockoutRound(Reordered(players, order), id, baseDay)
    else RoundRobinMatches(players, id, baseDay)
  }

  /** Every drawn match pits two listed players against each other. */
  predicate DrawnFrom(drawn: seq<Match>, players: seq<int>)
  {
    forall k | 0 <= k < |drawn| ::
      && drawn[k].team1Player1.Some? && drawn[k].team1Player1.value in players
      && drawn[k].team2Player1.Some? && drawn[k].team2Player1.value in players
  }

  /** The draw only ever seats participants. */
  lemma DrawUsesOnlyParticipants(t: Tournament, id: nat, players: seq<int>, order: seq<nat>)
    requires IsPermutation(order, |players|)
    ensures DrawnFrom(Draw(t, id, players, order), players)
  {
    var drawn := Draw(t, id, players, order);
    if t.format == TournamentFormat.Knockout {
      var shuffled := Reordered(players, order);
      forall k | 0 <= k < |drawn|
        ensures drawn[k].team1Player1 == Some(shuffled[2 * k]) && drawn[k].team2Player1 == Some(shuffled[2 * k + 1])
      {
      }
    } else {
      RoundRobinShape(players, id, Bookings.DayOf(t.startDate));
      var pairs := AllPairs(|players|);
      forall k | 0 <= k < |drawn|
        ensures drawn[k].team1Player1.Some? && drawn[k].team1Player1.value in players
        ensures drawn[k].team2Player1.Some? && drawn[k].team2Player1.value in players
      {
        assert pairs[k] in pairs;
      }
    }
  }

  /**
   * The draw leaves out at most one participant: none in a round robin or an
   * even knockout, and in an odd knockout only the last of the shuffled list.
   */
  lemma DrawCoversParticipants(t: Tournament, id: nat, players: seq<int>, order: seq<nat>)
    requires IsPermutation(order, |players|) && 2 <= |players|
    ensures t.format != TournamentFormat.Knockout || |players| % 2 == 0 ==>
              forall m | m in players :: Plays(Draw(t, id, players, order), m)
    ensures forall m1, m2 | m1 in players && m2 in players
              && !Plays(Draw(t, id, players, order), m1) && !Plays(Draw(t, id, players, order), m2) :: m1 == m2
  {
    var n := |players|;
    if t.format == TournamentFormat.Knockout {
      var shuffled := Reordered(players, order);
      KnockoutSeatsAllButLast(shuffled, id, Bookings.DayOf(t.startDate));
      forall m | m in players && !Plays(Draw(t, id, players, order), m)
        ensures n % 2 == 1 && m == shuffled[n - 1]
      {
        var q :| 0 <= q < n && shuffled[q] == m;
      }
    } else {
      RoundRobinSeatsEveryone(players, id, Bookings.DayOf(t.startDate));
    }
  }

  /**
   * Draw tournament `id`'s matches from its participants (`order` is the
   * random shuffle, used only for Knockout), append them, mark the
   * tournament DrawCompleted and return how many matches were made.
   */
  method GenerateSchedule(db: ClubDb, id: nat, order: seq<nat>) returns (r: Result<nat>)
    requires IsPermutation(order, |ParticipantsOf(db.participants, id)|)
    modifies db`matches, db`tournaments
    ensures r.Err? <==> GenerateFailure(old(db.tournaments), db.participants, id).Some?
    ensures r.Err? ==> r.error == GenerateFailure(old(db.tournaments), db.participants, id).value
                       && db.matches == old(db.matches) && db.tournaments == old(db.tournaments)
    ensures r.Ok? ==>
      && id < |old(db.tournaments)|
      && var t := old(db.tournaments)[id];
      && var drawn := Draw(t, id, ParticipantsOf(db.participants, id), order);
      && db.matches == old(db.matches) + drawn
      && r.value == |drawn|
      && db.tournaments == old(db.tournaments)[id := t.(status := TournamentStatus.DrawCompleted)]
    // The count is n div 2 for Knockout and n(n-1)/2 otherwise; with one row
    // per member, nobody is drawn twice into the knockout round.
    ensures r.Ok? ==>
      && var n := |ParticipantsOf(db.participants, id)|;
      && var t := old(db.tournaments)[id];
      && (t.format == TournamentFormat.Knockout ==> r.value == n / 2)
      && (t.format != TournamentFormat.Knockout ==> 2 * r.value == n * (n - 1))
      && (t.format == TournamentFormat.Knockout && OneEntryEach(db.participants) ==>
            var drawn := Draw(t, id, ParticipantsOf(db.participants, id), order);
            forall a, b | 0 <= a < b < |drawn| ::
              && drawn[a].team1Player1 != drawn[b].team1Player1 && drawn[a].team1Player1 != drawn[b].team2Player1
              && drawn[a].team2Player1 != drawn[b].team1Player1 && drawn[a].team2Player1 != drawn[b].team2Player1)
    // Every seat goes to a registered participant, and at most one participant
    // is left out: none unless the knockout count is odd.
    ensures r.Ok? ==>
      && var n := |ParticipantsOf(db.participants, id)|;
      && var t := old(db.tournaments)[id];
      && var drawn := Draw(t, id, ParticipantsOf(db.participants, id), order);
      && (forall k | 0 <= k < |drawn| ::
            && drawn[k].team1Player1.Some? && Joined(db.participants, id, drawn[k].team1Player1.value)
            && drawn[k].team2Player1.Some? && Joined(db.participants, id, drawn[k].team2Player1.value))
      && (t.format != TournamentFormat.Knockout || n % 2 == 0 ==> forall m | Joined(db.participants, id, m) :: Plays(drawn, m))
      && (forall m1, m2 | Joined(db.participants, id, m1) && Joined(db.participants, id, m2) && !Plays(drawn, m1) && !Plays(drawn, m2) :: m1 == m2)
  {
    if id >= |db.tournaments| {
      return Err(NotFound);
    }
    var tournament := db.tournaments[id];
    var players := ParticipantsOf(db.participants, id);
    if |players| < 2 {
      return Err(NotEnoughParticipants);
    }
    DrawUsesOnlyParticipants(tournament, id, players, order);
    DrawCoversParticipants(tournament, id, players, order);
    var baseDay := Bookings.DayOf(tournament.startDate);
    var drawn: seq<Match>;
    if tournament.format == TournamentFormat.Knockout {
      var shuffled := Reordered(players, order);
      drawn := PairKnockoutRound(shuffled, id, baseDay);
      if OneEntryEach(db.participants) {
        KnockoutPlaysEachOnce(shuffled, id, baseDay);
      }
    } else {
      drawn := PairRoundRobin(players, id, baseDay);
      RoundRobinShape(players, id, baseDay);
    }
    db.matches := db.matches + drawn;
    db.tournaments := db.tournaments[id := tournament.(status := TournamentStatus.DrawCompleted)];
    return Ok(|drawn|);
  }
}
