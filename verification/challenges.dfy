/**
 * Challenge escrow (Controllers/ChallengesController.cs): a staked duel with
 * states Pending -> Accepted -> Finished, or Pending/Accepted -> Cancelled.
 * The challenger's stake is taken on create, the opponent's on accept, the
 * winner receives twice the stake, and cancel refunds the stakes.
 */
module Challenges {
  import opened Domain
  import opened Ledger
  import opened Data

  /** `OpponentId ?? 0`, the value the winner check compares against. */
  function OpponentOrZero(c: Challenge): int
  {
    match c.opponentId
    case Some(o) => o
    case None => 0
  }

  /** The caller is the challenger or the recorded opponent. */
  predicate IsParticipant(c: Challenge, caller: int)
  {
    c.challengerId == caller || c.opponentId == Some(caller)
  }

  predicate IsTerminal(s: ChallengeStatus)
  {
    s == ChallengeStatus.Finished || s == ChallengeStatus.Cancelled
  }

  // ---------------------------------------------------------------- create

  function CreateFailure(members: map<int, Member>, caller: int, stake: real): Option<Error>
  {
    if caller !in members then Some(Unauthorized)
    else if stake <= 0.0 then Some(InvalidStake)
    else if members[caller].walletBalance < stake then Some(InsufficientFunds)
    else None
  }

  /**
   * Open a challenge, optionally aimed at one member (who may be the
   * challenger), and take the challenger's stake. Returns the challenge id.
   */
  method Create(db: ClubDb, caller: int, stake: real, opponentId: Option<int>, message: Option<string>, now: int)
    returns (r: Result<nat>)
    modifies db`members, db`ledger, db`challenges
    ensures LedgerCoupled(old(db.members), old(db.ledger), db.members, db.ledger)
    ensures r.Err? <==> CreateFailure(old(db.members), caller, stake).Some?
    ensures r.Err? ==> r.error == CreateFailure(old(db.members), caller, stake).value
                       && db.members == old(db.members) && db.ledger == old(db.ledger) && db.challenges == old(db.challenges)
    ensures r.Ok? ==>
      && caller in old(db.members)
      && r.value == |old(db.challenges)|
      && db.challenges == old(db.challenges)
           + [Challenge(caller, opponentId, stake, ChallengeStatus.Pending, None, message, now, None, None)]
      && db.members == old(db.members)[caller := Credited(old(db.members)[caller], -stake)]
      && db.ledger == old(db.ledger) + [Entry(caller, -stake, TransactionType.Payment, ChallengeTag, ChallengeStake, now)]
  {
    if caller !in db.members {
      return Err(Unauthorized);
    }
    if stake <= 0.0 {
      return Err(InvalidStake);
    }
    if db.members[caller].walletBalance < stake {
      return Err(InsufficientFunds);
    }
    r := Ok(|db.challenges|);
    db.challenges := db.challenges + [Challenge(caller, opponentId, stake, ChallengeStatus.Pending, None, message, now, None, None)];
    Post(db, caller, Credited(db.members[caller], -stake),
      Entry(caller, -stake, TransactionType.Payment, ChallengeTag, ChallengeStake, now));
  }

  // ---------------------------------------------------------------- accept

  function AcceptFailure(members: map<int, Member>, challenges: seq<Challenge>, caller: int, id: nat): Option<Error>
  {
    if caller !in members then Some(Unauthorized)
    else if id >= |challenges| then Some(NotFound)
    else if challenges[id].status != ChallengeStatus.Pending then Some(NotPending)
    else if challenges[id].challengerId == caller then Some(SelfAccept)
    else if challenges[id].opponentId.Some? && challenges[id].opponentId.value != caller then Some(InvitedOther)
    else if members[caller].walletBalance < challenges[id].stakeAmount then Some(InsufficientFunds)
    else None
  }

  /** Accept a Pending challenge as its opponent and take the opponent's stake. */
  method Accept(db: ClubDb, caller: int, id: nat, now: int) returns (r: Result<()>)
    modifies db`members, db`ledger, db`challenges
    ensures LedgerCoupled(old(db.members), old(db.ledger), db.members, db.ledger)
    ensures r.Err? <==> AcceptFailure(old(db.members), old(db.challenges), caller, id).Some?
    ensures r.Err? ==> r.error == AcceptFailure(old(db.members), old(db.challenges), caller, id).value
                       && db.members == old(db.members) && db.ledger == old(db.ledger) && db.challenges == old(db.challenges)
    ensures r.Ok? ==>
      && caller in old(db.members) && id < |old(db.challenges)|
      && var c := old(db.challenges)[id];
      && db.challenges == old(db.challenges)[id := c.(opponentId := Some(caller), status := ChallengeStatus.Accepted, acceptedDate := Some(now))]
      && db.members == old(db.members)[caller := Credited(old(db.members)[caller], -c.stakeAmount)]
      && db.ledger == old(db.ledger) + [Entry(caller, -c.stakeAmount, TransactionType.Payment, ChallengeTag, ChallengeAcceptStake(id), now)]
  {
    if caller !in db.members {
      return Err(Unauthorized);
    }
    if id >= |db.challenges| {
      return Err(NotFound);
    }
    var challenge := db.challenges[id];
    if challenge.status != ChallengeStatus.Pending {
      return Err(NotPending);
    }
    if challenge.challengerId == caller {
      return Err(SelfAccept);
    }
    if challenge.opponentId.Some? && challenge.opponentId.value != caller {
      return Err(InvitedOther);
    }
    if db.members[caller].walletBalance < challenge.stakeAmount {
      return Err(InsufficientFunds);
    }
    db.challenges := db.challenges[id := challenge.(opponentId := Some(caller), status := ChallengeStatus.Accepted, acceptedDate := Some(now))];
    Post(db, caller, Credited(db.members[caller], -challenge.stakeAmount),
      Entry(caller, -challenge.stakeAmount, TransactionType.Payment, ChallengeTag, ChallengeAcceptStake(id), now));
    return Ok(());
  }

  // ------------------------------------------------------------ set result

  function SetResultFailure(members: map<int, Member>, challenges: seq<Challenge>, caller: int, id: nat, winnerId: int): Option<Error>
  {
    if caller !in members then Some(Unauthorized)
    else if id >= |challenges| then Some(NotFound)
    else if challenges[id].status != ChallengeStatus.Accepted then Some(NotAccepted)
    else if !IsParticipant(challenges[id], caller) then Some(NotParticipant)
    else if winnerId != challenges[id].challengerId && winnerId != OpponentOrZero(challenges[id]) then Some(InvalidWinner)
    else None
  }

  /**
   * Record the winner of an Accepted challenge and pay them twice the stake
   * as one Reward entry; nothing is posted for the loser.
   */
  method SetResult(db: ClubDb, caller: int, id: nat, winnerId: int, now: int) returns (r: Result<()>)
    modifies db`members, db`ledger, db`challenges
    ensures LedgerCoupled(old(db.members), old(db.ledger), db.members, db.ledger)
    ensures r.Err? <==> SetResultFailure(old(db.members), old(db.challenges), caller, id, winnerId).Some?
    ensures r.Err? ==> r.error == SetResultFailure(old(db.members), old(db.challenges), caller, id, winnerId).value
                       && db.members == old(db.members) && db.ledger == old(db.ledger) && db.challenges == old(db.challenges)
    ensures r.Ok? ==>
      && id < |old(db.challenges)|
      && var c := old(db.challenges)[id];
      && db.challenges == old(db.challenges)[id := c.(winnerId := Some(winnerId), status := ChallengeStatus.Finished, finishedDate := Some(now))]
      && (winnerId in old(db.members) ==>
            && db.members == old(db.members)[winnerId := Credited(old(db.members)[winnerId], 2.0 * c.stakeAmount)]
            && db.ledger == old(db.ledger) + [Entry(winnerId, 2.0 * c.stakeAmount, TransactionType.Reward, ChallengeTag, ChallengePrize(id), now)])
      && (winnerId !in old(db.members) ==> db.members == old(db.members) && db.ledger == old(db.ledger))
  {
    if caller !in db.members {
      return Err(Unauthorized);
    }
    if id >= |db.challenges| {
      return Err(NotFound);
    }
    var challenge := db.challenges[id];
    if challenge.status != ChallengeStatus.Accepted {
      return Err(NotAccepted);
    }
    if challenge.challengerId != caller && challenge.opponentId != Some(caller) {
      return Err(NotParticipant);
    }
    if winnerId != challenge.challengerId && winnerId != OpponentOrZero(challenge) {
      return Err(InvalidWinner);
    }
    db.challenges := db.challenges[id := challenge.(winnerId := Some(winnerId), status := ChallengeStatus.Finished, finishedDate := Some(now))];
    if winnerId in db.members {
      var prize := challenge.stakeAmount * 2.0;
      Post(db, winnerId, Credited(db.members[winnerId], prize),
        Entry(winnerId, prize, TransactionType.Reward, ChallengeTag, ChallengePrize(id), now));
    }
    return Ok(());
  }

  // ---------------------------------------------------------------- cancel

  function CancelFailure(members: map<int, Member>, challenges: seq<Challenge>, caller: int, id: nat): Option<Error>
  {
    if caller !in members then Some(Unauthorized)
    else if id >= |challenges| then Some(NotFound)
    else if challenges[id].status == ChallengeStatus.Finished then Some(AlreadyFinished)
    else if challenges[id].status == ChallengeStatus.Cancelled then Some(AlreadyCancelled)
    else if !IsParticipant(challenges[id], caller) then Some(NotParticipant)
    else None
  }

  /**
   * How many stakes cancel refunds to member `k`: one as challenger, one as
   * recorded opponent, whether or not that opponent ever accepted.
   */
  function RefundCount(c: Challenge, k: int): (n: nat)
    ensures n <= 2
  {
    (if c.challengerId == k then 1 else 0) + (if c.opponentId == Some(k) then 1 else 0)
  }

  /** The Refund entries cancel appends: the challenger's, then the opponent's, each only if that member exists. */
  function RefundEntries(c: Challenge, members: map<int, Member>, id: nat, now: int): seq<WalletTransaction>
  {
    (if c.challengerId in members
     then [Entry(c.challengerId, c.stakeAmount, TransactionType.Refund, ChallengeTag, ChallengeRefund(id), now)] else [])
    + (if c.opponentId.Some? && c.opponentId.value in members
       then [Entry(c.opponentId.value, c.stakeAmount, TransactionType.Refund, ChallengeTag, ChallengeRefund(id), now)] else [])
  }

  /**
   * Cancel a challenge that is neither Finished nor Cancelled; refund the
   * challenger, and the opponent whenever one is recorded.
   */
  method Cancel(db: ClubDb, caller: int, id: nat, now: int) returns (r: Result<()>)
    modifies db`members, db`ledger, db`challenges
    ensures LedgerCoupled(old(db.members), old(db.ledger), db.members, db.ledger)
    ensures r.Err? <==> CancelFailure(old(db.members), old(db.challenges), caller, id).Some?
    ensures r.Err? ==> r.error == CancelFailure(old(db.members), old(db.challenges), caller, id).value
                       && db.members == old(db.members) && db.ledger == old(db.ledger) && db.challenges == old(db.challenges)
    ensures r.Ok? ==>
      && id < |old(db.challenges)|
      && var c := old(db.challenges)[id];
      && db.challenges == old(db.challenges)[id := c.(status := ChallengeStatus.Cancelled)]
      && db.ledger == old(db.ledger) + RefundEntries(c, old(db.members), id, now)
      && db.members.Keys == old(db.members).Keys
      && forall k | k in db.members :: db.members[k] == Credited(old(db.members)[k], RefundCount(c, k) as real * c.stakeAmount)
  {
    if caller !in db.members {
      return Err(Unauthorized);
    }
    if id >= |db.challenges| {
      return Err(NotFound);
    }
    var challenge := db.challenges[id];
    if challenge.status == ChallengeStatus.Finished {
      return Err(AlreadyFinished);
    }
    if challenge.status == ChallengeStatus.Cancelled {
      return Err(AlreadyCancelled);
    }
    var isChallenger := challenge.challengerId == caller;
    var isOpponent := challenge.opponentId == Some(caller);
    if !isChallenger && !isOpponent {
      return Err(NotParticipant);
    }
    db.challenges := db.challenges[id := challenge.(status := ChallengeStatus.Cancelled)];
    var stake := challenge.stakeAmount;
    ghost var m0, l0 := db.members, db.ledger;
    if challenge.challengerId in db.members {
      Post(db, challenge.challengerId, Credited(db.members[challenge.challengerId], stake),
        Entry(challenge.challengerId, stake, TransactionType.Refund, ChallengeTag, ChallengeRefund(id), now));
    } else {
      CoupledRefl(db.members, db.ledger);
    }
    ghost var m1, l1 := db.members, db.ledger;
    if challenge.opponentId.Some? {
      var opponent := challenge.opponentId.value;
      if opponent in db.members {
        Post(db, opponent, Credited(db.members[opponent], stake),
          Entry(opponent, stake, TransactionType.Refund, ChallengeTag, ChallengeRefund(id), now));
      }
    }
    CoupledRefl(db.members, db.ledger);
    CoupledTrans(m0, l0, m1, l1, db.members, db.ledger);
    return Ok(());
  }

  // ------------------------------------------------------------- properties

  /** Finished and Cancelled are terminal: accept, set-result and cancel all refuse them. */
  lemma TerminalStatesRefuseEverything(members: map<int, Member>, challenges: seq<Challenge>, caller: int, id: nat, winnerId: int)
    requires id < |challenges| && IsTerminal(challenges[id].status)
    ensures AcceptFailure(members, challenges, caller, id).Some?
    ensures SetResultFailure(members, challenges, caller, id, winnerId).Some?
    ensures CancelFailure(members, challenges, caller, id).Some?
  {
  }

  /**
   * Create, accept and settle between two distinct members: the winner ends
   * `stake` up, the loser `stake` down, and the pair's total is unchanged.
   */
  method StakeAcceptSettle(db: ClubDb, a: int, b: int, stake: real, invite: Option<int>, winner: int, now: int) returns (ok: bool)
    requires a != b && (winner == a || winner == b)
    modifies db`members, db`ledger, db`challenges
    ensures LedgerCoupled(old(db.members), old(db.ledger), db.members, db.ledger)
    ensures ok <==> && a in old(db.members) && b in old(db.members)
                    && 0.0 < stake <= old(db.members)[a].walletBalance && stake <= old(db.members)[b].walletBalance
                    && (invite.None? || invite == Some(b))
    ensures ok ==> a in old(db.members) && b in old(db.members) && db.members.Keys == old(db.members).Keys
    ensures ok ==> (db.members[a].walletBalance + db.members[b].walletBalance
                    == old(db.members)[a].walletBalance + old(db.members)[b].walletBalance)
    ensures ok ==> db.members[winner].walletBalance == old(db.members)[winner].walletBalance + stake
    ensures ok ==> var loser := if winner == a then b else a;
                   db.members[loser].walletBalance == old(db.members)[loser].walletBalance - stake
  {
    ghost var m0, l0 := db.members, db.ledger;
    var created := Create(db, a, stake, invite, None, now);
    if created.Err? {
      return false;
    }
    ghost var m1, l1 := db.members, db.ledger;
    var accepted := Accept(db, b, created.value, now);
    if accepted.Err? {
      CoupledTrans(m0, l0, m1, l1, db.members, db.ledger);
      return false;
    }
    ghost var m2, l2 := db.members, db.ledger;
    var settled := SetResult(db, a, created.value, winner, now);
    CoupledTrans(m0, l0, m1, l1, m2, l2);
    CoupledTrans(m0, l0, m2, l2, db.members, db.ledger);
    ok := settled.Ok?;
  }

  /** Create, accept, then cancel before any result: both members are restored exactly. */
  method StakeAcceptCancel(db: ClubDb, a: int, b: int, stake: real, invite: Option<int>, canceller: int, now: int) returns (ok: bool)
    requires a != b
    modifies db`members, db`ledger, db`challenges
    ensures LedgerCoupled(old(db.members), old(db.ledger), db.members, db.ledger)
    ensures ok <==> && a in old(db.members) && b in old(db.members)
                    && 0.0 < stake <= old(db.members)[a].walletBalance && stake <= old(db.members)[b].walletBalance
                    && (invite.None? || invite == Some(b))
                    && (canceller == a || canceller == b)
    ensures ok ==> a in old(db.members) && b in old(db.members) && db.members.Keys == old(db.members).Keys
    ensures ok ==> db.members[a] == old(db.members)[a] && db.members[b] == old(db.members)[b]
  {
    ghost var m0, l0 := db.members, db.ledger;
    var created := Create(db, a, stake, invite, None, now);
    if created.Err? {
      return false;
    }
    ghost var m1, l1 := db.members, db.ledger;
    var accepted := Accept(db, b, created.value, now);
    if accepted.Err? {
      CoupledTrans(m0, l0, m1, l1, db.members, db.ledger);
      return false;
    }
    ghost var m2, l2 := db.members, db.ledger;
    var cancelled := Cancel(db, canceller, created.value, now);
    CoupledTrans(m0, l0, m1, l1, m2, l2);
    CoupledTrans(m0, l0, m2, l2, db.members, db.ledger);
    ok := cancelled.Ok?;
  }

  /** An open challenge cancelled by its challenger: the stake comes back exactly. */
  method OpenStakeCancel(db: ClubDb, a: int, stake: real, now: int) returns (ok: bool)
    modifies db`members, db`ledger, db`challenges
    ensures LedgerCoupled(old(db.members), old(db.ledger), db.members, db.ledger)
    ensures ok <==> a in old(db.members) && 0.0 < stake <= old(db.members)[a].walletBalance
    ensures ok ==> a in old(db.members) && db.members.Keys == old(db.members).Keys
    ensures ok ==> db.members == old(db.members)
  {
    ghost var m0, l0 := db.members, db.ledger;
    var created := Create(db, a, stake, None, None, now);
    if created.Err? {
      return false;
    }
    ghost var m1, l1 := db.members, db.ledger;
    var cancelled := Cancel(db, a, created.value, now);
    CoupledTrans(m0, l0, m1, l1, db.members, db.ledger);
    if cancelled.Ok? {
      forall k | k in db.members
        ensures db.members[k] == m0[k]
      {
      }
      assert db.members == m0;
    }
    ok := cancelled.Ok?;
  }

  /**
   * A challenge aimed at `b`, cancelled by `b` before accepting: `b` may
   * cancel, and is credited a stake `b` never paid.
   */
  method InviteeCancelsUnaccepted(db: ClubDb, a: int, b: int, stake: real, now: int) returns (ok: bool)
    requires a != b && b in db.members
    modifies db`members, db`ledger, db`challenges
    ensures LedgerCoupled(old(db.members), old(db.ledger), db.members, db.ledger)
    ensures ok <==> a in old(db.members) && 0.0 < stake <= old(db.members)[a].walletBalance
    ensures ok ==> db.members.Keys == old(db.members).Keys
    ensures ok ==> db.members[b].walletBalance == old(db.members)[b].walletBalance + stake
  {
    ghost var m0, l0 := db.members, db.ledger;
    var created := Create(db, a, stake, Some(b), None, now);
    if created.Err? {
      return false;
    }
    ghost var m1, l1 := db.members, db.ledger;
    var cancelled := Cancel(db, b, created.value, now);
    CoupledTrans(m0, l0, m1, l1, db.members, db.ledger);
    ok := cancelled.Ok?;
  }
}
