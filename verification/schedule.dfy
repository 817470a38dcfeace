/**
 * The two draws the schedule generator produces
 * (Controllers/TournamentsController.cs, GenerateSchedule):
 *  - a knockout first round that pairs positions (0,1), (2,3), … of a
 *    shuffled participant list, all on the start day;
 *  - a round robin with one match per pair of list positions i < j, in the
 *    order of the two nested loops, four matches a day.
 * Match number k (counted from 0) starts at hour 9 + k mod 4.
 */
module Schedule {
  import opened Domain

  const FIRST_HOUR: int := 9
  const MATCHES_PER_DAY: int := 4

  /** A generated match: Scheduled, ranked, one player per side. */
  function Generated(tid: nat, round: RoundName, day: int, k: nat, p1: int, p2: int): (m: Match)
    ensures m.status == MatchStatus.Scheduled && m.isRanked && m.tournamentId == Some(tid)
    ensures m.team1Player1 == Some(p1) && m.team2Player1 == Some(p2)
    ensures m.team1Player2 == None && m.team2Player2 == None
    ensures m.date == day && FIRST_HOUR <= m.startHour < FIRST_HOUR + MATCHES_PER_DAY
  {
    Match(Some(tid), round, day, FIRST_HOUR + k % MATCHES_PER_DAY, Some(p1), None, Some(p2), None, 0, 0, None, None, true, MatchStatus.Scheduled)
  }

  /** Match numbers map to distinct (day offset, hour) slots: four a day, hours 9 to 12. */
  lemma SlotsDistinct(k1: nat, k2: nat)
    requires k1 != k2
    ensures (k1 / MATCHES_PER_DAY, k1 % MATCHES_PER_DAY) != (k2 / MATCHES_PER_DAY, k2 % MATCHES_PER_DAY)
  {
    assert k1 == MATCHES_PER_DAY * (k1 / MATCHES_PER_DAY) + k1 % MATCHES_PER_DAY;
    assert k2 == MATCHES_PER_DAY * (k2 / MATCHES_PER_DAY) + k2 % MATCHES_PER_DAY;
  }

  predicate Distinct(s: seq<int>)
  {
    forall i, j | 0 <= i < j < |s| :: s[i] != s[j]
  }

  // --------------------------------------------------------------- knockout

  /** The knockout first round over the shuffled list: match k pairs positions 2k and 2k+1. */
  function KnockoutRound(shuffled: seq<int>, tid: nat, baseDay: int): (r: seq<Match>)
    ensures |r| == |shuffled| / 2
  {
    seq(|shuffled| / 2, k requires 0 <= k < |shuffled| / 2 =>
      Generated(tid, RoundName.FirstRound, baseDay, k, shuffled[2 * k], shuffled[2 * k + 1]))
  }

  /**
   * Given a list without repeats, no participant plays twice in the first
   * round, and with an odd count the last one is left unpaired.
   */
  lemma KnockoutPlaysEachOnce(shuffled: seq<int>, tid: nat, baseDay: int)
    requires Distinct(shuffled)
    ensures var r := KnockoutRound(shuffled, tid, baseDay);
      && (forall k | 0 <= k < |r| :: r[k].team1Player1 != r[k].team2Player1)
      && (forall a, b | 0 <= a < b < |r| ::
            && r[a].team1Player1 != r[b].team1Player1 && r[a].team1Player1 != r[b].team2Player1
            && r[a].team2Player1 != r[b].team1Player1 && r[a].team2Player1 != r[b].team2Player1)
      && (|shuffled| % 2 == 1 ==> forall k | 0 <= k < |r| ::
            r[k].team1Player1 != Some(shuffled[|shuffled| - 1]) && r[k].team2Player1 != Some(shuffled[|shuffled| - 1]))
  {
    var r := KnockoutRound(shuffled, tid, baseDay);
    forall a, b | 0 <= a < b < |r|
      ensures && r[a].team1Player1 != r[b].team1Player1 && r[a].team1Player1 != r[b].team2Player1
              && r[a].team2Player1 != r[b].team1Player1 && r[a].team2Player1 != r[b].team2Player1
    {
      assert 2 * a + 1 < 2 * b;
    }
  }

  /** Member `m` plays in one of the drawn matches. */
  predicate Plays(drawn: seq<Match>, m: int)
  {
    exists k | 0 <= k < |drawn| :: drawn[k].team1Player1 == Some(m) || drawn[k].team2Player1 == Some(m)
  }

  /** Every position of the shuffled list is paired, except the last one when the count is odd. */
  lemma KnockoutSeatsAllButLast(shuffled: seq<int>, tid: nat, baseDay: int)
    ensures forall q | 0 <= q < |shuffled| && (q < |shuffled| - 1 || |shuffled| % 2 == 0) ::
              Plays(KnockoutRound(shuffled, tid, baseDay), shuffled[q])
  {
    var r := KnockoutRound(shuffled, tid, baseDay);
    forall q | 0 <= q < |shuffled| && (q < |shuffled| - 1 || |shuffled| % 2 == 0)
      ensures Plays(r, shuffled[q])
    {
      var k := q / 2;
      assert r[k].team1Player1 == Some(shuffled[2 * k]) && r[k].team2Player1 == Some(shuffled[2 * k + 1]);
    }
  }

  /** Pair positions (0,1), (2,3), … of the shuffled list into first-round matches. */
  method PairKnockoutRound(shuffled: seq<int>, tid: nat, baseDay: int) returns (matches: seq<Match>)
    ensures matches == KnockoutRound(shuffled, tid, baseDay)
  {
    matches := [];
    var i := 0;
    while i < |shuffled| - 1
      invariant 0 <= i <= |shuffled| && i % 2 == 0 && i == 2 * |matches|
      invariant forall k | 0 <= k < |matches| ::
        matches[k] == Generated(tid, RoundName.FirstRound, baseDay, k, shuffled[2 * k], shuffled[2 * k + 1])
    {
      matches := matches + [Generated(tid, RoundName.FirstRound, baseDay, |matches|, shuffled[i], shuffled[i + 1])];
      i := i + 2;
    }
  }

  // ------------------------------------------------------------ round robin

  /** A pair of list positions; the first is put on Team1. */
  datatype Pair = Pair(first: nat, second: nat)

  /** The pairs (i, i+1), …, (i, j-1): row i of the inner loop up to column j. */
  function RowPrefix(i: nat, j: nat): (r: seq<Pair>)
    requires i < j
    ensures |r| == j - i - 1
    ensures forall p | p in r :: p.first == i && i < p.second < j
  {
    seq(j - i - 1, d requires 0 <= d < j - i - 1 => Pair(i, i + 1 + d))
  }

  /** Every pair the nested loops visit for rows 0 … i-1 of an n-element list, in visiting order. */
  function RowsBefore(n: nat, i: nat): (r: seq<Pair>)
    requires i <= n
    ensures forall p | p in r :: p.first < i && p.first < p.second < n
  {
    if i == 0 then [] else RowsBefore(n, i - 1) + RowPrefix(i - 1, n)
  }

  /** All pairs i < j of an n-element list, in loop order. */
  function AllPairs(n: nat): (r: seq<Pair>)
    ensures forall p | p in r :: p.first < p.second < n
  {
    RowsBefore(n, n)
  }

  /** The round-robin matches: match k pairs the k-th pair, on day baseDay + k div 4. */
  function RoundRobinMatches(players: seq<int>, tid: nat, baseDay: int): (r: seq<Match>)
    ensures |r| == |AllPairs(|players|)|
  {
    var pairs := AllPairs(|players|);
    seq(|pairs|, k requires 0 <= k < |pairs| =>
      assert pairs[k] in pairs;
      Generated(tid, RoundName.GroupStage, baseDay + k / MATCHES_PER_DAY, k, players[pairs[k].first], players[pairs[k].second]))
  }

  /** Rows 0 … i-1 hold i(2n - i - 1)/2 pairs. */
  lemma {:induction false} RowsBeforeLength(n: nat, i: nat)
    requires i <= n
    ensures 2 * |RowsBefore(n, i)| == i * (2 * n - i - 1)
  {
    if i > 0 {
      RowsBeforeLength(n, i - 1);
    }
  }

  /** A pair appears in rows 0 … i-1 exactly when its first position is below i and below its second. */
  lemma {:induction false} RowsBeforeComplete(n: nat, i: nat, a: nat, b: nat)
    requires i <= n
    ensures Pair(a, b) in RowsBefore(n, i) <==> a < i && a < b < n
  {
    if i > 0 {
      RowsBeforeComplete(n, i - 1, a, b);
      if a == i - 1 && a < b < n {
        assert RowPrefix(i - 1, n)[b - a - 1] == Pair(a, b);
      }
    }
  }

  /** Lexicographic order on pairs. */
  predicate Before(p: Pair, q: Pair)
  {
    p.first < q.first || (p.first == q.first && p.second < q.second)
  }

  /** The loops visit pairs in strictly increasing order, so no pair is visited twice. */
  lemma {:induction false} RowsBeforeIncreasing(n: nat, i: nat)
    requires i <= n
    ensures forall x, y | 0 <= x < y < |RowsBefore(n, i)| :: Before(RowsBefore(n, i)[x], RowsBefore(n, i)[y])
  {
    if i > 0 {
      RowsBeforeIncreasing(n, i - 1);
      var prev, row := RowsBefore(n, i - 1), RowPrefix(i - 1, n);
      var r := RowsBefore(n, i);
      forall x, y | 0 <= x < y < |r|
        ensures Before(r[x], r[y])
      {
        if y < |prev| {
          assert r[x] == prev[x] && r[y] == prev[y];
        } else if x < |prev| {
          assert r[x] == prev[x] && prev[x] in prev;
          assert r[y] == row[y - |prev|] && row[y - |prev|] in row;
          assert prev[x].first < i - 1;
        } else {
          assert r[x] == row[x - |prev|] == Pair(i - 1, i + x - |prev|);
          assert r[y] == row[y - |prev|] == Pair(i - 1, i + y - |prev|);
        }
      }
    }
  }

  /**
   * The round robin has n(n-1)/2 matches, one for each pair of positions
   * i < j with position i on Team1, no pair twice, and no two matches in
   * the same (day, hour) slot.
   */
  lemma RoundRobinShape(players: seq<int>, tid: nat, baseDay: int)
    ensures var n := |players|; var r := RoundRobinMatches(players, tid, baseDay); var pairs := AllPairs(n);
      && 2 * |r| == n * (n - 1)
      && (forall a, b | 0 <= a < b < n :: Pair(a, b) in pairs)
      && (forall p | p in pairs :: p.first < p.second < n)
      && (forall x, y | 0 <= x < y < |pairs| :: pairs[x] != pairs[y])
      && (forall k | 0 <= k < |r| ::
            r[k].team1Player1 == Some(players[pairs[k].first]) && r[k].team2Player1 == Some(players[pairs[k].second]))
      && (forall x, y | 0 <= x < y < |r| :: (r[x].date, r[x].startHour) != (r[y].date, r[y].startHour))
  {
    var n := |players|;
    var r := RoundRobinMatches(players, tid, baseDay);
    RowsBeforeLength(n, n);
    forall a, b | 0 <= a < b < n
      ensures Pair(a, b) in AllPairs(n)
    {
      RowsBeforeComplete(n, n, a, b);
    }
    RowsBeforeIncreasing(n, n);
    forall x, y | 0 <= x < y < |r|
      ensures (r[x].date, r[x].startHour) != (r[y].date, r[y].startHour)
    {
      SlotsDistinct(x, y);
    }
  }

  /** With at least two players, everyone plays in the round robin. */
  lemma RoundRobinSeatsEveryone(players: seq<int>, tid: nat, baseDay: int)
    requires 2 <= |players|
    ensures forall m | m in players :: Plays(RoundRobinMatches(players, tid, baseDay), m)
  {
    var n := |players|;
    var r := RoundRobinMatches(players, tid, baseDay);
    var pairs := AllPairs(n);
    forall m | m in players
      ensures Plays(r, m)
    {
      var p :| 0 <= p < n && players[p] == m;
      var pair := if p < n - 1 then Pair(p, n - 1) else Pair(0, p);
      RowsBeforeComplete(n, n, pair.first, pair.second);
      var k :| 0 <= k < |pairs| && pairs[k] == pair;
      assert r[k].team1Player1 == Some(players[pair.first]) && r[k].team2Player1 == Some(players[pair.second]);
    }
  }

  /** Walk the pairs i < j in nested-loop order, numbering the matches as they are made. */
  method PairRoundRobin(players: seq<int>, tid: nat, baseDay: int) returns (matches: seq<Match>)
    ensures matches == RoundRobinMatches(players, tid, baseDay)
  {
    var n := |players|;
    matches := [];
    var i := 0;
    while i < n
      invariant 0 <= i <= n
      invariant var done := RowsBefore(n, i);
        && |matches| == |done|
        && forall k | 0 <= k < |matches| ::
             matches[k] == Generated(tid, RoundName.GroupStage, baseDay + k / MATCHES_PER_DAY, k,
                                     players[done[k].first], players[done[k].second])
    {
      var j := i + 1;
      while j < n
        invariant i + 1 <= j <= n
        invariant var done := RowsBefore(n, i) + RowPrefix(i, j);
          && |matches| == |done|
          && forall k | 0 <= k < |matches| ::
               matches[k] == Generated(tid, RoundName.GroupStage, baseDay + k / MATCHES_PER_DAY, k,
                                       players[done[k].first], players[done[k].second])
      {
        assert RowPrefix(i, j + 1) == RowPrefix(i, j) + [Pair(i, j)];
        var k := |matches|;
        matches := matches + [Generated(tid, RoundName.GroupStage, baseDay + k / MATCHES_PER_DAY, k, players[i], players[j])];
        j := j + 1;
      }
      i := i + 1;
    }
  }
}
