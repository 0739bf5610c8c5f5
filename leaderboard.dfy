/**
 * The statistics page: one row of counts per player, a case-insensitive name
 * search, the rows sorted by the active tab's figure, and rows whose figure
 * is 0 hidden unless a search is under way.
 */
module Leaderboard {
  import opened Common
  import opened Domain
  import opened Sorting
  import opened Text

  /** The tabs: `"goals" | "assists" | "cards"`. */
  datatype Tab = GoalsTab | AssistsTab | CardsTab

  datatype Counts = Counts(goals: nat, assists: nat, yellowCards: nat, redCards: nat, totalCards: nat)

  /** A leaderboard row: `{ player, stats }`. */
  datatype Row = Row(player: Player, stats: Counts)

  /** The row of one player: the number of events of each kind that name the player, and both card counts added. */
  function RowOf(d: League, p: Player): (r: Row)
    ensures r.player == p
    ensures r.stats.goals == |EventsOf(d.goals, p.id)| && r.stats.assists == |EventsOf(d.assists, p.id)|
    ensures r.stats.yellowCards == |EventsOf(d.yellowCards, p.id)| && r.stats.redCards == |EventsOf(d.redCards, p.id)|
    ensures r.stats.totalCards == r.stats.yellowCards + r.stats.redCards
  {
    var yellows, reds := |EventsOf(d.yellowCards, p.id)|, |EventsOf(d.redCards, p.id)|;
    Row(p, Counts(|EventsOf(d.goals, p.id)|, |EventsOf(d.assists, p.id)|, yellows, reds, yellows + reds))
  }

  /** `leaderboard`: one row per player, in player order. */
  function Board(d: League): (r: seq<Row>)
    ensures |r| == |d.players|
    ensures forall i | 0 <= i < |r| :: r[i] == RowOf(d, d.players[i])
  {
    MapSeq(d.players, p => RowOf(d, p))
  }

  /** The figure the tab ranks by: goals, assists, or all cards. */
  function Metric(t: Tab, r: Row): nat {
    match t
    case GoalsTab => r.stats.goals
    case AssistsTab => r.stats.assists
    case CardsTab => r.stats.totalCards
  }

  /** The comparator `b.stats[x] - a.stats[x]`: larger figures first. */
  function Ahead(t: Tab): (Row, Row) -> bool {
    (a: Row, b: Row) => Metric(t, a) >= Metric(t, b)
  }

  lemma AheadIsTotalPreorder(t: Tab)
    ensures TotalPreorder(Ahead(t))
  {
  }

  /** `item.player.name.toLowerCase().includes(searchQuery.toLowerCase())` */
  function MatchesQuery(q: string): Row -> bool {
    (r: Row) => Includes(Lower(r.player.name), Lower(q))
  }

  /** Kept by the last filter: every row while searching, otherwise rows with a figure above 0. */
  function Visible(t: Tab, q: string): Row -> bool {
    (r: Row) => q != "" || Metric(t, r) > 0
  }

  /** `filteredStats`: search, then sort, then hide the zero rows. */
  function FilteredStats(d: League, t: Tab, q: string): seq<Row> {
    Filter(Sort(Filter(Board(d), MatchesQuery(q)), Ahead(t)), Visible(t, q))
  }

  /**
   * The rows shown are ranked by the tab's figure, largest first, and each
   * board row is shown at most as often as it is on the board.
   */
  lemma FilteredStatsRanked(d: League, t: Tab, q: string)
    ensures forall i, j | 0 <= i < j < |FilteredStats(d, t, q)| ::
      Metric(t, FilteredStats(d, t, q)[i]) >= Metric(t, FilteredStats(d, t, q)[j])
    ensures multiset(FilteredStats(d, t, q)) <= multiset(Board(d))
  {
    var searched := Filter(Board(d), MatchesQuery(q));
    var r := FilteredStats(d, t, q);
    AheadIsTotalPreorder(t);
    SortSorted(searched, Ahead(t));
    FilterSorted(Sort(searched, Ahead(t)), Visible(t, q), Ahead(t));
    forall i, j | 0 <= i < j < |r| ensures Metric(t, r[i]) >= Metric(t, r[j]) {
      assert Ahead(t)(r[i], r[j]);
    }
  }

  /**
   * A row is shown exactly when it is on the board, its player's name
   * contains the query regardless of case and, for an empty query, its
   * figure is above 0.
   */
  lemma FilteredStatsMembers(d: League, t: Tab, q: string, row: Row)
    ensures row in FilteredStats(d, t, q) <==>
      row in Board(d) && Includes(Lower(row.player.name), Lower(q)) && (q != "" || Metric(t, row) > 0)
  {
    var searched := Filter(Board(d), MatchesQuery(q));
    var sorted := Sort(searched, Ahead(t));
    FilterMember(sorted, Visible(t, q), row);
    assert row in sorted <==> row in multiset(sorted);
    assert row in searched <==> row in multiset(searched);
    FilterMember(Board(d), MatchesQuery(q), row);
  }

  /** An empty query matches every name, so it shows exactly the rows with a figure above 0. */
  lemma EmptyQueryShowsNonZero(d: League, t: Tab)
    ensures forall row :: row in FilteredStats(d, t, "") <==> row in Board(d) && Metric(t, row) > 0
  {
    forall row ensures row in FilteredStats(d, t, "") <==> row in Board(d) && Metric(t, row) > 0 {
      FilteredStatsMembers(d, t, "", row);
      assert Lower("") == "";
      IncludesEmpty(Lower(row.player.name));
    }
  }

  /** Players with distinct ids appear at most once each. */
  lemma FilteredStatsDistinct(d: League, t: Tab, q: string)
    requires forall i, j | 0 <= i < j < |d.players| :: d.players[i].id != d.players[j].id
    ensures Distinct(FilteredStats(d, t, q))
  {
    var board := Board(d);
    assert Distinct(board) by {
      forall i, j | 0 <= i < j < |board| ensures board[i] != board[j] {
        assert board[i].player == d.players[i] && board[j].player == d.players[j];
      }
    }
    FilteredStatsRanked(d, t, q);
    DistinctMultiplicity(board);
    MultiplicityDistinct(FilteredStats(d, t, q));
  }
}
