/**
 * Member tiers (Models/MemberTierHelper.cs): a member's tier is a threshold
 * function of the lifetime total of approved deposits.
 */
module Tiers {
  import opened Domain

  const SILVER_THRESHOLD: real := 1000000.0
  const GOLD_THRESHOLD: real := 5000000.0
  const DIAMOND_THRESHOLD: real := 10000000.0

  /** The tier for a TotalDeposit, checked from the highest threshold down. */
  function TierFor(totalDeposit: real): (t: MemberTier)
    ensures t == MemberTier.Diamond <==> totalDeposit >= DIAMOND_THRESHOLD
    ensures t == MemberTier.Gold <==> GOLD_THRESHOLD <= totalDeposit < DIAMOND_THRESHOLD
    ensures t == MemberTier.Silver <==> SILVER_THRESHOLD <= totalDeposit < GOLD_THRESHOLD
    ensures t == MemberTier.Standard <==> totalDeposit < SILVER_THRESHOLD
  {
    if totalDeposit >= DIAMOND_THRESHOLD then MemberTier.Diamond
    else if totalDeposit >= GOLD_THRESHOLD then MemberTier.Gold
    else if totalDeposit >= SILVER_THRESHOLD then MemberTier.Silver
    else MemberTier.Standard
  }

  /** The numeric value of the tier enum (Standard = 0 … Diamond = 3). */
  function TierRank(t: MemberTier): (n: nat)
    ensures n <= 3
  {
    match t
    case Standard => 0
    case Silver => 1
    case Gold => 2
    case Diamond => 3
  }

  /**
   * UpdateTier: writes only `tier`, and the value written depends only on
   * TotalDeposit.
   */
  function UpdateTier(m: Member): (r: Member)
    ensures r.tier == TierFor(m.totalDeposit)
    ensures r.(tier := m.tier) == m
  {
    m.(tier := TierFor(m.totalDeposit))
  }

  /** A larger TotalDeposit never yields a lower tier. */
  lemma TierMonotone(a: real, b: real)
    requires a <= b
    ensures TierRank(TierFor(a)) <= TierRank(TierFor(b))
  {
  }

  /** The boundary values: 999,999 and below is Standard; each threshold itself is in the higher tier. */
  lemma TierBoundaries()
    ensures TierFor(999999.0) == MemberTier.Standard
    ensures TierFor(1000000.0) == MemberTier.Silver
    ensures TierFor(4999999.0) == MemberTier.Silver
    ensures TierFor(5000000.0) == MemberTier.Gold
    ensures TierFor(9999999.0) == MemberTier.Gold
    ensures TierFor(10000000.0) == MemberTier.Diamond
    ensures TierFor(-1.0) == MemberTier.Standard
  {
  }
}
