/**
 * The league table of the data hook (`getStandings`): one row per team,
 * credited from every played match whose two teams both exist, then ordered
 * by points, goal difference and goals scored.
 */
module Standings {
  import opened Common
  import opened Domain
  import opened Sorting

  datatype Row = Row(
    id: string,
    name: string,
    logo: Option<string>,
    color: string,
    played: int,
    won: int,
    drawn: int,
    lost: int,
    gf: int,
    ga: int,
    gd: int,
    pts: int)

  // Field accessors, used as the summed quantity in Total.
  function PlayedCol(r: Row): int { r.played }
  function WonCol(r: Row): int { r.won }
  function PtsCol(r: Row): int { r.pts }
  function GfCol(r: Row): int { r.gf }
  function GaCol(r: Row): int { r.ga }
  function GdCol(r: Row): int { r.gd }

  /** The sum of `f` over all rows. */
  function Total(rows: seq<Row>, f: Row -> int): int {
    if rows == [] then 0 else f(rows[0]) + Total(rows[1..], f)
  }

  predicate DistinctTeamIds(teams: seq<Team>) {
    forall i, j | 0 <= i < j < |teams| :: teams[i].id != teams[j].id
  }

  /** A row whose counters are all zero. */
  predicate Fresh(r: Row) {
    r.played == 0 && r.won == 0 && r.drawn == 0 && r.lost == 0 &&
    r.gf == 0 && r.ga == 0 && r.gd == 0 && r.pts == 0
  }

  /** The counters of a row agree with each other. */
  predicate Consistent(r: Row) {
    && r.won >= 0 && r.drawn >= 0 && r.lost >= 0
    && r.played == r.won + r.drawn + r.lost
    && r.pts == 3 * r.won + r.drawn
  }

  /** Row `i` belongs to team `i` and carries its display fields. */
  predicate Aligned(table: seq<Row>, teams: seq<Team>) {
    && |table| == |teams|
    && forall i | 0 <= i < |table| ::
         && table[i].id == teams[i].id && table[i].name == teams[i].name
         && table[i].logo == teams[i].logo && table[i].color == teams[i].primaryColor
  }

  function InitialRow(t: Team): Row {
    Row(t.id, t.name, t.logo, t.primaryColor, 0, 0, 0, 0, 0, 0, 0, 0)
  }

  /** The table before any match is counted: one zeroed row per team. */
  function InitialTable(teams: seq<Team>): (table: seq<Row>)
    ensures Aligned(table, teams)
    ensures forall i | 0 <= i < |table| :: Fresh(table[i])
  {
    seq(|teams|, i requires 0 <= i < |teams| => InitialRow(teams[i]))
  }

  /** `table[id]`: the index of the row of team `id`, if there is one. */
  function Find(table: seq<Row>, id: string): (r: Option<nat>)
    ensures r.Some? ==> r.value < |table| && table[r.value].id == id
    ensures r.None? ==> forall i | 0 <= i < |table| :: table[i].id != id
  {
    if table == [] then None
    else if table[0].id == id then Some(0)
    else match Find(table[1..], id)
      case Some(k) => Some(k + 1)
      case None => None
  }

  /** One side of a played match: it scored `f` and conceded `a`. */
  function Credit(r: Row, f: int, a: int): (r': Row)
    ensures r'.played == r.played + 1
    ensures r'.gf == r.gf + f && r'.ga == r.ga + a
    ensures r'.won - r.won + r'.drawn - r.drawn + r'.lost - r.lost == 1
    ensures r'.pts - r.pts == (if f > a then 3 else if f == a then 1 else 0)
    ensures r'.won - r.won == (if f > a then 1 else 0)
    ensures r'.drawn - r.drawn == (if f == a then 1 else 0)
    ensures r'.id == r.id && r'.name == r.name && r'.logo == r.logo && r'.color == r.color
    ensures r'.gd == r.gd
  {
    if f > a then r.(played := r.played + 1, gf := r.gf + f, ga := r.ga + a, won := r.won + 1, pts := r.pts + 3)
    else if f < a then r.(played := r.played + 1, gf := r.gf + f, ga := r.ga + a, lost := r.lost + 1)
    else r.(played := r.played + 1, gf := r.gf + f, ga := r.ga + a, drawn := r.drawn + 1, pts := r.pts + 1)
  }

  /** A match is counted when it was played and both of its teams have a row. */
  predicate Counts(table: seq<Row>, m: Match) {
    m.status == Played && Find(table, m.homeTeamId).Some? && Find(table, m.awayTeamId).Some?
  }

  /**
   * One iteration of the `matches.forEach`: a counted match credits the home
   * row, then the away row (the same row twice when a team meets itself).
   */
  function ApplyMatch(table: seq<Row>, m: Match): seq<Row> {
    if !Counts(table, m) then table
    else
      var h := Find(table, m.homeTeamId).value;
      var a := Find(table, m.awayTeamId).value;
      var t1 := table[h := Credit(table[h], m.homeScore, m.awayScore)];
      t1[a := Credit(t1[a], m.awayScore, m.homeScore)]
  }

  /** The table after the matches of `ms`, in order. */
  function Tally(teams: seq<Team>, ms: seq<Match>): (table: seq<Row>)
    ensures Aligned(table, teams)
  {
    if ms == [] then InitialTable(teams)
    else
      var prev := Tally(teams, ms[..|ms| - 1]);
      var m := ms[|ms| - 1];
      var next := ApplyMatch(prev, m);
      assert Aligned(next, teams) by {
        if Counts(prev, m) {
          var h := Find(prev, m.homeTeamId).value;
          var t1 := prev[h := Credit(prev[h], m.homeScore, m.awayScore)];
          assert Aligned(t1, teams);
        }
      }
      next
  }

  /** The goal difference of every row, as `team.gf - team.ga`. */
  function WithGd(table: seq<Row>): (rows: seq<Row>)
    ensures |rows| == |table|
    ensures forall i | 0 <= i < |rows| :: rows[i] == table[i].(gd := table[i].gf - table[i].ga)
  {
    seq(|table|, i requires 0 <= i < |table| => table[i].(gd := table[i].gf - table[i].ga))
  }

  /**
   * The comparator `b.pts - a.pts || b.gd - a.gd || b.gf - a.gf`, read as
   * "a may stay in front of b".
   */
  predicate RankLe(a: Row, b: Row) {
    a.pts > b.pts || (a.pts == b.pts && (a.gd > b.gd || (a.gd == b.gd && a.gf >= b.gf)))
  }

  lemma RankLeIsTotalPreorder()
    ensures TotalPreorder(RankLe)
  {
  }

  /** `getStandings()` */
  function Standings(teams: seq<Team>, matches: seq<Match>): (rows: seq<Row>)
    ensures |rows| == |teams|
    ensures multiset(rows) == multiset(WithGd(Tally(teams, matches)))
    ensures SortedBy(rows, RankLe)
  {
    RankLeIsTotalPreorder();
    SortSorted(WithGd(Tally(teams, matches)), RankLe);
    Sort(WithGd(Tally(teams, matches)), RankLe)
  }

  /** The imperative table build of `getStandings`, proved equal to `Standings`. */
  method GetStandings(teams: seq<Team>, matches: seq<Match>) returns (rows: seq<Row>)
    // Team documents have unique ids; with a repeated id the source keeps one row.
    requires DistinctTeamIds(teams)
    ensures rows == Standings(teams, matches)
  {
    var table: seq<Row> := [];
    for i := 0 to |teams|
      invariant table == InitialTable(teams[..i])
    {
      table := table + [InitialRow(teams[i])];
    }
    assert teams[..|teams|] == teams;
    for k := 0 to |matches|
      invariant table == Tally(teams, matches[..k])
    {
      assert matches[..k + 1][..k] == matches[..k];
      var m := matches[k];
      if m.status != Played {
        continue;
      }
      var home := Find(table, m.homeTeamId);
      var away := Find(table, m.awayTeamId);
      if home.Some? && away.Some? {
        var h, a := home.value, away.value;
        table := table[h := Credit(table[h], m.homeScore, m.awayScore)];
        table := table[a := Credit(table[a], m.awayScore, m.homeScore)];
      }
    }
    assert matches[..|matches|] == matches;
    var withGd := seq(|table|, i requires 0 <= i < |table| => table[i].(gd := table[i].gf - table[i].ga));
    rows := Sort(withGd, RankLe);
  }

  // ---------------------------------------------------------------------
  // Properties of the table

  lemma {:induction false} TotalUpdate(rows: seq<Row>, i: nat, v: Row, f: Row -> int)
    requires i < |rows|
    ensures Total(rows[i := v], f) == Total(rows, f) - f(rows[i]) + f(v)
  {
    if i > 0 {
      assert rows[i := v][1..] == rows[1..][i - 1 := v];
      TotalUpdate(rows[1..], i - 1, v, f);
    }
  }

  lemma {:induction false} TotalAppend(a: seq<Row>, b: seq<Row>, f: Row -> int)
    ensures Total(a + b, f) == Total(a, f) + Total(b, f)
  {
    if a == [] {
      assert a + b == b;
    } else {
      assert (a + b)[1..] == a[1..] + b;
      TotalAppend(a[1..], b, f);
    }
  }

  /** A sum does not depend on the order of the rows. */
  lemma {:induction false} TotalPermutation(a: seq<Row>, b: seq<Row>, f: Row -> int)
    requires multiset(a) == multiset(b)
    ensures Total(a, f) == Total(b, f)
    decreases |a|
  {
    if a == [] {
      assert |b| == |multiset(b)| == 0;
    } else {
      var k, rest := RemoveFirst(a, b);
      TotalPermutation(a[1..], rest, f);
      TotalAppend(b[..k] + [b[k]], b[k + 1..], f);
      TotalAppend(b[..k], [b[k]], f);
      TotalAppend(b[..k], b[k + 1..], f);
    }
  }

  /** Whatever a match does to the table, it does to a counted match's two rows only. */
  lemma ApplyMatchUncounted(table: seq<Row>, m: Match)
    requires !Counts(table, m)
    ensures ApplyMatch(table, m) == table
  {
  }

  /** The sequence of counted matches, as `Tally` sees them. */
  function Counted(teams: seq<Team>, ms: seq<Match>): (r: seq<Match>)
    ensures |r| <= |ms|
    ensures forall i | 0 <= i < |r| :: r[i] in ms && r[i].status == Played
  {
    if ms == [] then []
    else
      var init := ms[..|ms| - 1];
      var m := ms[|ms| - 1];
      Counted(teams, init) + (if Counts(InitialTable(teams), m) then [m] else [])
  }

  lemma FindAligned(a: seq<Row>, b: seq<Row>, teams: seq<Team>, id: string)
    requires Aligned(a, teams) && Aligned(b, teams)
    ensures Find(a, id) == Find(b, id)
  {
    if a != [] {
      assert Aligned(a[1..], teams[1..]) && Aligned(b[1..], teams[1..]);
      FindAligned(a[1..], b[1..], teams[1..], id);
    }
  }

  /**
   * Only counted matches matter: the table is the same when the matches that
   * are upcoming or that name a missing team are left out.
   */
  lemma {:induction false} OnlyCountedMatchesChangeRows(teams: seq<Team>, ms: seq<Match>)
    ensures Tally(teams, ms) == Tally(teams, Counted(teams, ms))
  {
    if ms != [] {
      var init := ms[..|ms| - 1];
      var m := ms[|ms| - 1];
      OnlyCountedMatchesChangeRows(teams, init);
      var prev := Tally(teams, init);
      FindAligned(prev, InitialTable(teams), teams, m.homeTeamId);
      FindAligned(prev, InitialTable(teams), teams, m.awayTeamId);
      var c := Counted(teams, init);
      if Counts(InitialTable(teams), m) {
        var c' := c + [m];
        assert c'[..|c'| - 1] == c;
      } else {
        assert Counted(teams, ms) == c;
      }
    }
  }

  predicate AllConsistent(table: seq<Row>) {
    forall i | 0 <= i < |table| :: Consistent(table[i])
  }

  /** Every row keeps played = won + drawn + lost and pts = 3 * won + drawn. */
  lemma {:induction false} TallyConsistent(teams: seq<Team>, ms: seq<Match>)
    ensures AllConsistent(Tally(teams, ms))
  {
    if ms != [] {
      var prev := Tally(teams, ms[..|ms| - 1]);
      TallyConsistent(teams, ms[..|ms| - 1]);
      ApplyMatchConsistent(prev, ms[|ms| - 1]);
    }
  }

  lemma ApplyMatchConsistent(table: seq<Row>, m: Match)
    requires AllConsistent(table)
    ensures AllConsistent(ApplyMatch(table, m))
  {
    if Counts(table, m) {
      var h := Find(table, m.homeTeamId).value;
      var t1 := table[h := Credit(table[h], m.homeScore, m.awayScore)];
      assert AllConsistent(t1);
    }
  }

  /** What one counted match adds to the column totals of the table. */
  lemma MatchTotals(table: seq<Row>, m: Match)
    requires Counts(table, m)
    ensures Total(ApplyMatch(table, m), PlayedCol) == Total(table, PlayedCol) + 2
    ensures Total(ApplyMatch(table, m), PtsCol) == Total(table, PtsCol) + (if m.homeScore == m.awayScore then 2 else 3)
    ensures Total(ApplyMatch(table, m), WonCol) == Total(table, WonCol) + (if m.homeScore == m.awayScore then 0 else 1)
    ensures Total(ApplyMatch(table, m), GfCol) == Total(table, GfCol) + m.homeScore + m.awayScore
    ensures Total(ApplyMatch(table, m), GaCol) == Total(table, GaCol) + m.homeScore + m.awayScore
  {
    var h := Find(table, m.homeTeamId).value;
    var a := Find(table, m.awayTeamId).value;
    var t1 := table[h := Credit(table[h], m.homeScore, m.awayScore)];
    var ch := Credit(table[h], m.homeScore, m.awayScore);
    var ca := Credit(t1[a], m.awayScore, m.homeScore);
    TotalUpdate(table, h, ch, PlayedCol);
    TotalUpdate(t1, a, ca, PlayedCol);
    TotalUpdate(table, h, ch, PtsCol);
    TotalUpdate(t1, a, ca, PtsCol);
    TotalUpdate(table, h, ch, WonCol);
    TotalUpdate(t1, a, ca, WonCol);
    TotalUpdate(table, h, ch, GfCol);
    TotalUpdate(t1, a, ca, GfCol);
    TotalUpdate(table, h, ch, GaCol);
    TotalUpdate(t1, a, ca, GaCol);
  }

  function Draws(ms: seq<Match>): nat {
    if ms == [] then 0 else (if ms[0].homeScore == ms[0].awayScore then 1 else 0) + Draws(ms[1..])
  }

  lemma DrawsAppend(a: seq<Match>, b: seq<Match>)
    ensures Draws(a + b) == Draws(a) + Draws(b)
  {
    if a == [] {
      assert a + b == b;
    } else {
      assert (a + b)[1..] == a[1..] + b;
      DrawsAppend(a[1..], b);
    }
  }

  function Goals(ms: seq<Match>): int {
    if ms == [] then 0 else ms[0].homeScore + ms[0].awayScore + Goals(ms[1..])
  }

  lemma GoalsAppend(a: seq<Match>, b: seq<Match>)
    ensures Goals(a + b) == Goals(a) + Goals(b)
  {
    if a == [] {
      assert a + b == b;
    } else {
      assert (a + b)[1..] == a[1..] + b;
      GoalsAppend(a[1..], b);
    }
  }

  lemma TotalFresh(table: seq<Row>, f: Row -> int)
    requires forall i | 0 <= i < |table| :: Fresh(table[i])
    requires forall r: Row | Fresh(r) :: f(r) == 0
    ensures Total(table, f) == 0
  {
    if table != [] {
      TotalFresh(table[1..], f);
    }
  }

  /**
   * The column totals of table `t` after the counted matches `c`: every
   * counted match adds 2 to the played column, 3 points when decisive and 2
   * when drawn, one win when decisive, and its goals to both the for and the
   * against columns.
   */
  predicate ColumnTotals(t: seq<Row>, c: seq<Match>) {
    && Total(t, PlayedCol) == 2 * |c|
    && Total(t, PtsCol) == 3 * (|c| - Draws(c)) + 2 * Draws(c)
    && Total(t, WonCol) == |c| - Draws(c)
    && Total(t, GfCol) == Goals(c)
    && Total(t, GaCol) == Goals(c)
  }

  lemma {:induction false} TallyTotals(teams: seq<Team>, ms: seq<Match>)
    ensures ColumnTotals(Tally(teams, ms), Counted(teams, ms))
  {
    if ms == [] {
      var t := InitialTable(teams);
      TotalFresh(t, PlayedCol);
      TotalFresh(t, PtsCol);
      TotalFresh(t, WonCol);
      TotalFresh(t, GfCol);
      TotalFresh(t, GaCol);
    } else {
      var init := ms[..|ms| - 1];
      TallyTotals(teams, init);
      TallyTotalsStep(teams, init, ms[|ms| - 1]);
      assert init + [ms[|ms| - 1]] == ms;
    }
  }

  lemma TallyTotalsStep(teams: seq<Team>, init: seq<Match>, m: Match)
    requires ColumnTotals(Tally(teams, init), Counted(teams, init))
    ensures ColumnTotals(Tally(teams, init + [m]), Counted(teams, init + [m]))
  {
    var ms := init + [m];
    assert ms[..|ms| - 1] == init && ms[|ms| - 1] == m;
    var prev := Tally(teams, init);
    FindAligned(prev, InitialTable(teams), teams, m.homeTeamId);
    FindAligned(prev, InitialTable(teams), teams, m.awayTeamId);
    var c := Counted(teams, init);
    assert Tally(teams, ms) == ApplyMatch(prev, m);
    if Counts(prev, m) {
      assert Counted(teams, ms) == c + [m];
      CountedMatchTotals(prev, c, m);
    } else {
      assert Counted(teams, ms) == c;
    }
  }

  lemma CountedMatchTotals(t: seq<Row>, c: seq<Match>, m: Match)
    requires ColumnTotals(t, c) && Counts(t, m)
    ensures ColumnTotals(ApplyMatch(t, m), c + [m])
  {
    MatchTotals(t, m);
    DrawsAppend(c, [m]);
    GoalsAppend(c, [m]);
  }

  /** Goals for and against balance, so the goal differences sum to zero. */
  lemma GoalDifferencesSumToZero(teams: seq<Team>, ms: seq<Match>)
    ensures Total(Standings(teams, ms), GfCol) == Total(Standings(teams, ms), GaCol)
    ensures Total(Standings(teams, ms), GdCol) == 0
    ensures forall i | 0 <= i < |Standings(teams, ms)| :: Standings(teams, ms)[i].gd == Standings(teams, ms)[i].gf - Standings(teams, ms)[i].ga
  {
    var t := Tally(teams, ms);
    var w := WithGd(t);
    var s := Standings(teams, ms);
    TallyTotals(teams, ms);
    GdTotal(t);
    TotalPermutation(w, s, GdCol);
    TotalPermutation(w, s, GfCol);
    TotalPermutation(w, s, GaCol);
    WithGdKeeps(t);
    forall i | 0 <= i < |s| ensures s[i].gd == s[i].gf - s[i].ga {
      assert s[i] in multiset(w);
    }
  }

  lemma {:induction false} WithGdKeeps(t: seq<Row>)
    ensures Total(WithGd(t), GfCol) == Total(t, GfCol) && Total(WithGd(t), GaCol) == Total(t, GaCol)
  {
    if t != [] {
      assert WithGd(t)[1..] == WithGd(t[1..]);
      WithGdKeeps(t[1..]);
    }
  }

  lemma {:induction false} GdTotal(t: seq<Row>)
    ensures Total(WithGd(t), GdCol) == Total(t, GfCol) - Total(t, GaCol)
  {
    if t != [] {
      assert WithGd(t)[1..] == WithGd(t[1..]);
      GdTotal(t[1..]);
    }
  }

  /**
   * The published table: one row per team, consistent counters, and ordered
   * by points, then goal difference, then goals for.
   */
  lemma StandingsOrder(teams: seq<Team>, ms: seq<Match>)
    ensures var s := Standings(teams, ms);
      && (forall i | 0 <= i < |s| :: Consistent(s[i]))
      && (forall i, j | 0 <= i < j < |s| ::
            || s[i].pts > s[j].pts
            || (s[i].pts == s[j].pts && s[i].gd > s[j].gd)
            || (s[i].pts == s[j].pts && s[i].gd == s[j].gd && s[i].gf >= s[j].gf))
  {
    var t := Tally(teams, ms);
    var s := Standings(teams, ms);
    TallyConsistent(teams, ms);
    forall i | 0 <= i < |s| ensures Consistent(s[i]) {
      assert s[i] in multiset(WithGd(t));
      var k :| 0 <= k < |t| && s[i] == WithGd(t)[k];
    }
  }

  function RowId(r: Row): string { r.id }
  function TeamId(t: Team): string { t.id }

  /** Every team id occurs among the row ids exactly as often as among the teams. */
  lemma OneRowPerTeam(teams: seq<Team>, ms: seq<Match>)
    ensures multiset(MapSeq(Standings(teams, ms), RowId)) == multiset(MapSeq(teams, TeamId))
  {
    var w := WithGd(Tally(teams, ms));
    MapPermutation(w, Standings(teams, ms), RowId);
    assert MapSeq(w, RowId) == MapSeq(teams, TeamId);
  }
}
