/**
 * A two-member snapshot worked through the renderers: Ann and Bo are tied
 * on score, Ann has completed the first part of day 1, Bo nothing.
 */
module Examples {
  import opened Snapshot
  import opened Sorting
  import Leaderboard
  import Stats

  const Ann := Member("Ann", 40, 4, [(1, {"1"})])
  const Bo := Member("Bo", 40, 2, [])
  const Tied: Members := [("1", Ann), ("2", Bo)]

  /**
   * The tie on 40 points keeps the snapshot's order, here ascending id:
   * Ann ("1"), then Bo ("2").
   */
  lemma TiedScoresKeepOrder()
    ensures Leaderboard.RankMembers(Tied) == Tied
  {
    Leaderboard.RankAllTied(Tied, 40);
  }

  /** Bo has no completed day; id "3" is nobody's. */
  lemma TiedStats()
    ensures Stats.GetStats(Tied, "2") == Stats.NoDays("Bo")
    ensures Stats.GetStats(Tied, "3") == Stats.NotFound("3")
  {
    assert WellFormed(Tied) by {
      assert DistinctKeys(Ann.days, DayNumber) && DistinctKeys(Bo.days, DayNumber);
    }
    Stats.StatsNoDays(Tied, 1);
    Stats.StatsUnknownUser(Tied, "3");
  }
}
