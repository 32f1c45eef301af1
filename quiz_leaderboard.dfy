/** The global leaderboard: eight fixed entries plus the player's own entry,
    filtered by the selected mode, ordered by score and cut to the top ten,
    with the medal of each rank and the player's "Your Position" rank. */
module QuizLeaderboard {
  import opened Common
  import opened AppStore
  import opened Sorting

  /** `streak` is `None` where the player's best streak has become NaN. */
  datatype Entry = Entry(name: string, score: int, streak: Option<nat>, mode: string, isCurrentUser: bool)

  const MockLeaderboard: seq<Entry> := [
    Entry("Cosmic Explorer", 2450, Some(12), "gravity", false),
    Entry("Star Navigator", 2380, Some(8), "orbits", false),
    Entry("Physics Master", 2290, Some(15), "compact", false),
    Entry("Space Cadet", 2150, Some(6), "quick10", false),
    Entry("Gravity Guru", 2100, Some(9), "gravity", false),
    Entry("Orbit Ace", 2050, Some(7), "orbits", false),
    Entry("Black Hole Expert", 1980, Some(11), "compact", false),
    Entry("Speed Runner", 1920, Some(5), "quick10", false)]

  lemma MockNotCurrent()
    ensures forall e :: e in MockLeaderboard ==> !e.isCurrentUser && e.mode != "all"
  {
  }

  /** `user?.quizStats?.totalPoints > 0`. */
  predicate HasPoints(user: Option<User>)
  {
    user.Some? && user.value.quizStats.Some? && user.value.quizStats.value.totalPoints > 0
  }

  /** `user.name + ' (You)'`; a missing name prints as "undefined". */
  function YouName(user: User): string
  {
    (if user.name.Some? then user.name.value else "undefined") + " (You)"
  }

  /** `leaderboardData`: a copy of the mock entries, with the player's entry
      pushed at the end when the player has points. */
  function LeaderboardData(user: Option<User>): (data: seq<Entry>)
    ensures |MockLeaderboard| <= |data| <= |MockLeaderboard| + 1
    ensures data[..|MockLeaderboard|] == MockLeaderboard
    ensures HasPoints(user) <==> |data| == |MockLeaderboard| + 1
    ensures HasPoints(user) ==> data[|MockLeaderboard|].isCurrentUser && data[|MockLeaderboard|].mode == "all"
                                && data[|MockLeaderboard|].score == user.value.quizStats.value.totalPoints
    ensures forall e :: e in data && e.isCurrentUser ==> HasPoints(user) && e == data[|MockLeaderboard|]
  {
    MockNotCurrent();
    if HasPoints(user) then
      var stats := user.value.quizStats.value;
      MockLeaderboard + [Entry(YouName(user.value), stats.totalPoints, stats.bestStreak, "all", true)]
    else MockLeaderboard
  }

  /** The filter: every entry under "all", otherwise only that mode's. */
  predicate Shows(selectedMode: string, e: Entry)
  {
    selectedMode == "all" || e.mode == selectedMode
  }

  /** `(a, b) => b.score - a.score` as an ascending key. */
  function Descending(e: Entry): real { -(e.score as real) }

  /** `filteredData`. */
  function FilteredData(user: Option<User>, selectedMode: string): seq<Entry>
  {
    Take(SortBy(Filter(LeaderboardData(user), e => Shows(selectedMode, e)), Descending), 10)
  }

  /** Every shown entry passed the filter. */
  lemma ShownAreFiltered(user: Option<User>, selectedMode: string)
    ensures forall e :: e in FilteredData(user, selectedMode) ==>
              e in Filter(LeaderboardData(user), e => Shows(selectedMode, e))
  {
    var sorted := SortBy(Filter(LeaderboardData(user), e => Shows(selectedMode, e)), Descending);
    forall e | e in FilteredData(user, selectedMode)
      ensures e in Filter(LeaderboardData(user), e => Shows(selectedMode, e))
    {
      assert e in sorted;
      assert e in multiset(sorted);
    }
  }

  /** What is shown: at most ten entries, by non-increasing score. */
  lemma FilteredDataSorted(user: Option<User>, selectedMode: string)
    ensures var shown := FilteredData(user, selectedMode);
            && |shown| <= 10
            && (forall i, j :: 0 <= i < j < |shown| ==> shown[i].score >= shown[j].score)
  {
    var sorted := SortBy(Filter(LeaderboardData(user), e => Shows(selectedMode, e)), Descending);
    var shown := FilteredData(user, selectedMode);
    forall i, j | 0 <= i < j < |shown| ensures shown[i].score >= shown[j].score {
      assert shown[i] == sorted[i] && shown[j] == sorted[j];
      assert Descending(sorted[i]) <= Descending(sorted[j]);
    }
  }

  /** Each shown entry matches the mode and is a mock entry or the player's
      own. */
  lemma FilteredDataFrom(user: Option<User>, selectedMode: string)
    ensures forall e :: e in FilteredData(user, selectedMode) ==>
              && Shows(selectedMode, e)
              && (e in MockLeaderboard || (e.isCurrentUser && HasPoints(user)))
  {
    ShownAreFiltered(user, selectedMode);
    var data := LeaderboardData(user);
    forall e | e in FilteredData(user, selectedMode)
      ensures e in MockLeaderboard || (e.isCurrentUser && HasPoints(user))
    {
      var i :| 0 <= i < |data| && data[i] == e;
      if i < |MockLeaderboard| {
        assert data[i] == data[..|MockLeaderboard|][i];
      }
    }
  }

  /** The player's entry has mode "all", so it shows only under "all". */
  lemma PlayerOnlyUnderAll(user: Option<User>, selectedMode: string)
    requires selectedMode != "all"
    ensures forall e :: e in FilteredData(user, selectedMode) ==> !e.isCurrentUser
  {
    ShownAreFiltered(user, selectedMode);
  }

  /** Under "all" a player with points is always shown: only nine entries
      exist, so the top-ten cut never drops one. */
  lemma PlayerShownUnderAll(user: Option<User>)
    requires HasPoints(user)
    ensures exists e :: e in FilteredData(user, "all") && e.isCurrentUser
  {
    var data := LeaderboardData(user);
    var filtered := Filter(data, e => Shows("all", e));
    var sorted := SortBy(filtered, Descending);
    var you := data[|MockLeaderboard|];
    assert you in filtered;
    SortByMembers(filtered, Descending);
    assert |sorted| <= 10;
    assert FilteredData(user, "all") == sorted;
  }

  /** `getRankIcon`: medals for the first three ranks, "#n" after. */
  function RankIcon(rank: nat): (icon: string)
    ensures !(1 <= rank <= 3) ==> icon == "#" + NatToString(rank)
    ensures 1 <= rank <= 3 ==> |icon| == 1
  {
    if rank == 1 then "\U{1F947}"
    else if rank == 2 then "\U{1F948}"
    else if rank == 3 then "\U{1F949}"
    else "#" + NatToString(rank)
  }

  /** Distinct ranks get distinct icons. */
  lemma RankIconInjective(a: nat, b: nat)
    requires a != b
    ensures RankIcon(a) != RankIcon(b)
  {
    var medalA, medalB := 1 <= a <= 3, 1 <= b <= 3;
    if !medalA && !medalB {
      ParseNatToString(a);
      ParseNatToString(b);
      assert RankIcon(a)[1..] == NatToString(a);
      assert RankIcon(b)[1..] == NatToString(b);
    } else if !medalA {
      assert RankIcon(a)[0] == '#' != RankIcon(b)[0];
    } else if !medalB {
      assert RankIcon(b)[0] == '#' != RankIcon(a)[0];
    }
  }

  /** "Your Position": the index of the player's entry in the unsorted
      `leaderboardData`, plus one.  That entry is always pushed last, so
      the shown rank is 9 whatever the player's score. */
  function YourPosition(user: Option<User>): int
  {
    FindIndex(LeaderboardData(user), (e: Entry) => e.isCurrentUser) + 1
  }

  lemma YourPositionIsAlwaysNine(user: Option<User>)
    requires HasPoints(user)
    ensures YourPosition(user) == |MockLeaderboard| + 1 == 9
  {
    var data := LeaderboardData(user);
    MockPrefixNotCurrent(data);
    assert data[|MockLeaderboard|].isCurrentUser;
  }

  /** Nothing in the copied mock entries is the player's. */
  lemma MockPrefixNotCurrent(data: seq<Entry>)
    requires |MockLeaderboard| <= |data| && data[..|MockLeaderboard|] == MockLeaderboard
    ensures forall i :: 0 <= i < |MockLeaderboard| ==> !data[i].isCurrentUser
  {
    MockNotCurrent();
    forall i | 0 <= i < |MockLeaderboard| ensures !data[i].isCurrentUser {
      assert data[i] == MockLeaderboard[i];
    }
  }
}
