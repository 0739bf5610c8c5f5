/**
 * Per-player figures of the data hook: `getPlayerStats`, `getTopScorers` and
 * `getPlayerRecords`, all joins of the four event collections with matches,
 * players and teams.
 */
module PlayerStats {
  import opened Common
  import opened Domain
  import opened Sorting

  datatype Stats = Stats(goals: nat, assists: nat, yellowCards: nat, redCards: nat, matches: nat)

  /** How many events of `events` belong to player `pid`. */
  function Occurrences(events: seq<PlayerEvent>, pid: string): nat {
    multiset(PlayerIds(events))[pid]
  }

  /** The ids of the matches in which player `pid` has any event. */
  function TouchedMatches(d: League, pid: string): set<string> {
    set e | e in AllEvents(d) && e.playerId == pid :: e.matchId
  }

  lemma {:induction false} FilterLengthIsOccurrences(events: seq<PlayerEvent>, pid: string)
    ensures |EventsOf(events, pid)| == Occurrences(events, pid)
  {
    if events != [] {
      FilterLengthIsOccurrences(events[1..], pid);
      assert PlayerIds(events) == [events[0].playerId] + PlayerIds(events[1..]);
    }
  }

  /** The distinct match ids of a player's events are exactly the touched matches. */
  lemma DistinctMatchIds(d: League, pid: string)
    ensures Elems(MatchIds(EventsOf(AllEvents(d), pid))) == TouchedMatches(d, pid)
  {
    var all := AllEvents(d);
    var r := EventsOf(all, pid);
    var ids := MatchIds(r);
    forall x | x in Elems(ids) ensures x in TouchedMatches(d, pid) {
      var i :| 0 <= i < |ids| && ids[i] == x;
      assert r[i] in all && r[i].playerId == pid;
    }
    forall x | x in TouchedMatches(d, pid) ensures x in Elems(ids) {
      var e :| e in all && e.playerId == pid && e.matchId == x;
      var j :| 0 <= j < |all| && all[j] == e;
      assert all[j] in r;
      var i :| 0 <= i < |r| && r[i] == e;
      assert ids[i] == x;
    }
  }

  /** A player cannot have played more matches than they have events. */
  lemma MatchesBound(d: League, pid: string)
    ensures |Elems(MatchIds(EventsOf(AllEvents(d), pid)))|
      <= |EventsOf(d.goals, pid)| + |EventsOf(d.assists, pid)|
       + |EventsOf(d.yellowCards, pid)| + |EventsOf(d.redCards, pid)|
  {
    EventsOfAppend(d.goals, d.assists, pid);
    EventsOfAppend(d.goals + d.assists, d.yellowCards, pid);
    EventsOfAppend(d.goals + d.assists + d.yellowCards, d.redCards, pid);
    ElemsCardinality(MatchIds(EventsOf(AllEvents(d), pid)));
  }

  /** `getPlayerStats(playerId)`: filter lengths, and the size of the set of match ids. */
  function GetPlayerStats(d: League, pid: string): (s: Stats)
    ensures s.matches <= s.goals + s.assists + s.yellowCards + s.redCards
  {
    MatchesBound(d, pid);
    Stats(
      |EventsOf(d.goals, pid)|,
      |EventsOf(d.assists, pid)|,
      |EventsOf(d.yellowCards, pid)|,
      |EventsOf(d.redCards, pid)|,
      |Elems(MatchIds(EventsOf(AllEvents(d), pid)))|)
  }

  /**
   * Each figure counts the player's events of its kind, and `matches` the
   * distinct matches among all of them.
   */
  lemma PlayerStatsCounts(d: League, pid: string)
    ensures GetPlayerStats(d, pid).goals == Occurrences(d.goals, pid)
    ensures GetPlayerStats(d, pid).assists == Occurrences(d.assists, pid)
    ensures GetPlayerStats(d, pid).yellowCards == Occurrences(d.yellowCards, pid)
    ensures GetPlayerStats(d, pid).redCards == Occurrences(d.redCards, pid)
    ensures GetPlayerStats(d, pid).matches == |TouchedMatches(d, pid)|
  {
    FilterLengthIsOccurrences(d.goals, pid);
    FilterLengthIsOccurrences(d.assists, pid);
    FilterLengthIsOccurrences(d.yellowCards, pid);
    FilterLengthIsOccurrences(d.redCards, pid);
    DistinctMatchIds(d, pid);
  }

  // ---------------------------------------------------------------------
  // Top scorers

  datatype Scorer = Scorer(player: Player, stats: Stats)

  /** `players.map(p => ({ player: p, stats: getPlayerStats(p.id) }))` */
  function Scorers(d: League): (r: seq<Scorer>)
    ensures |r| == |d.players|
    ensures forall i | 0 <= i < |r| :: r[i] == Scorer(d.players[i], GetPlayerStats(d, d.players[i].id))
  {
    seq(|d.players|, i requires 0 <= i < |d.players| =>
      Scorer(d.players[i], GetPlayerStats(d, d.players[i].id)))
  }

  /** The comparator `b.stats.goals - a.stats.goals`, read as "a may stay in front of b". */
  predicate MoreGoals(a: Scorer, b: Scorer) {
    a.stats.goals >= b.stats.goals
  }

  lemma MoreGoalsIsTotalPreorder()
    ensures TotalPreorder(MoreGoals)
  {
  }

  /** The first ten of `entries` sorted by goals, most first. */
  function Top10(entries: seq<Scorer>): (r: seq<Scorer>)
    ensures |r| == if |entries| < 10 then |entries| else 10
    ensures forall i, j | 0 <= i < j < |r| :: r[i].stats.goals >= r[j].stats.goals
    ensures multiset(r) <= multiset(entries)
    ensures forall s: Scorer | s in multiset(entries) - multiset(r) ::
      forall i | 0 <= i < |r| :: r[i].stats.goals >= s.stats.goals
  {
    var top := Sort(entries, MoreGoals)[..if |entries| < 10 then |entries| else 10];
    BestByGoals(entries, top);
    top
  }

  /** The first entries sorted by goals are the ones with most goals. */
  lemma BestByGoals(entries: seq<Scorer>, top: seq<Scorer>)
    requires |top| <= |entries| && top == Sort(entries, MoreGoals)[..|top|]
    ensures forall i, j | 0 <= i < j < |top| :: top[i].stats.goals >= top[j].stats.goals
    ensures multiset(top) <= multiset(entries)
    ensures forall s: Scorer | s in multiset(entries) - multiset(top) ::
      forall i | 0 <= i < |top| :: top[i].stats.goals >= s.stats.goals
  {
    assert SortedBy(top, MoreGoals) && multiset(top) <= multiset(entries)
      && forall s | s in multiset(entries) - multiset(top) :: forall i | 0 <= i < |top| :: MoreGoals(top[i], s)
    by {
      MoreGoalsIsTotalPreorder();
      TopK(entries, MoreGoals, top);
    }
  }

  /** `getTopScorers()`: the ten players with most goals, best first. */
  function TopScorers(d: League): (r: seq<Scorer>)
    ensures |r| == if |d.players| < 10 then |d.players| else 10
    ensures forall i, j | 0 <= i < j < |r| :: r[i].stats.goals >= r[j].stats.goals
    ensures multiset(r) <= multiset(Scorers(d))
    // no player left out has more goals than any player kept
    ensures forall s: Scorer | s in multiset(Scorers(d)) - multiset(r) ::
      forall i | 0 <= i < |r| :: r[i].stats.goals >= s.stats.goals
  {
    Top10(Scorers(d))
  }

  /** Every top scorer is a player of the league with that player's own figures. */
  lemma TopScorersAreEntries(d: League)
    ensures forall i | 0 <= i < |TopScorers(d)| ::
      TopScorers(d)[i].player in d.players
      && TopScorers(d)[i].stats == GetPlayerStats(d, TopScorers(d)[i].player.id)
  {
    var r := TopScorers(d);
    var all := Scorers(d);
    forall i | 0 <= i < |r|
      ensures r[i].player in d.players && r[i].stats == GetPlayerStats(d, r[i].player.id)
    {
      assert r[i] in multiset(r);
      assert r[i] in multiset(all);
      var j :| 0 <= j < |all| && all[j] == r[i];
    }
  }

  /** With distinct players, every player appears at most once among the top scorers. */
  lemma TopScorersDistinct(d: League)
    requires Distinct(d.players)
    ensures Distinct(TopScorers(d))
  {
    var all := Scorers(d);
    assert Distinct(all);
    DistinctMultiplicity(all);
    MultiplicityDistinct(TopScorers(d));
  }

  // ---------------------------------------------------------------------
  // Match records

  /**
   * A per-match history line. `matchDate` is the creation time in seconds
   * (the source renders it as an ISO string).
   */
  datatype MatchRecord = MatchRecord(
    id: string,
    playerId: string,
    matchDate: int,
    opponent: string,
    goals: nat,
    assists: nat,
    yellowCards: nat,
    redCards: nat,
    minutesPlayed: int)

  /** The match ids of a player's events, goals first, then assists, yellows, reds. */
  function TouchedIds(d: League, pid: string): seq<string> {
    MatchIds(EventsOf(d.goals, pid)) + MatchIds(EventsOf(d.assists, pid))
      + MatchIds(EventsOf(d.yellowCards, pid)) + MatchIds(EventsOf(d.redCards, pid))
  }

  /** The side a player's team plays against: the away team when it is home, otherwise the home team. */
  function OpponentId(m: Match, playerTeam: Option<string>): (o: string)
    ensures o == m.homeTeamId || o == m.awayTeamId
    ensures playerTeam == Some(m.homeTeamId) ==> o == m.awayTeamId
    ensures playerTeam == Some(m.awayTeamId) && m.homeTeamId != m.awayTeamId ==> o == m.homeTeamId
    ensures playerTeam.None? ==> o == m.homeTeamId
  {
    if Some(m.homeTeamId) == playerTeam then m.awayTeamId else m.homeTeamId
  }

  /** `teams.find(t => t.id === id)?.name || "Unknown Opponent"` */
  function OpponentName(teams: seq<Team>, id: string): (name: string)
    ensures name != ""
    ensures name != "Unknown Opponent" ==> exists i | 0 <= i < |teams| :: teams[i].id == id && teams[i].name == name
  {
    match FindTeam(teams, id)
    case Some(t) => if t.name != "" then t.name else "Unknown Opponent"
    case None => "Unknown Opponent"
  }

  /**
   * How many events of `events` are by player `pid` in match `mId`: the
   * player's occurrences among the match's events.
   */
  function Count(events: seq<PlayerEvent>, pid: string, mId: string): (n: nat)
    ensures n <= |events|
    ensures n == Occurrences(EventsIn(events, mId), pid)
    ensures n == 0 <==> NoneByBoth(events, pid, mId)
  {
    if events == [] then 0
    else
      var e := events[0];
      OccurrencesInStep(events, pid, mId);
      NoneByBothStep(events, pid, mId);
      (if e.playerId == pid && e.matchId == mId then 1 else 0) + Count(events[1..], pid, mId)
  }

  /** No event of `events` is by `pid` in `mId`. */
  predicate NoneByBoth(events: seq<PlayerEvent>, pid: string, mId: string) {
    forall i | 0 <= i < |events| :: events[i].playerId != pid || events[i].matchId != mId
  }

  lemma NoneByBothStep(events: seq<PlayerEvent>, pid: string, mId: string)
    requires events != []
    ensures NoneByBoth(events, pid, mId)
      <==> (events[0].playerId != pid || events[0].matchId != mId) && NoneByBoth(events[1..], pid, mId)
  {
    if (events[0].playerId != pid || events[0].matchId != mId) && NoneByBoth(events[1..], pid, mId) {
      forall i | 1 <= i < |events| ensures events[i].playerId != pid || events[i].matchId != mId {
        assert events[i] == events[1..][i - 1];
      }
    }
  }

  /** Peeling one event off the front of the match's events. */
  lemma OccurrencesInStep(events: seq<PlayerEvent>, pid: string, mId: string)
    requires events != []
    ensures Occurrences(EventsIn(events, mId), pid)
      == (if events[0].playerId == pid && events[0].matchId == mId then 1 else 0)
         + Occurrences(EventsIn(events[1..], mId), pid)
  {
    var tail := EventsIn(events[1..], mId);
    if events[0].matchId == mId {
      assert PlayerIds([events[0]] + tail) == [events[0].playerId] + PlayerIds(tail);
    }
  }

  /** `match.minutesPlayed || 90` */
  function Minutes(m: Match): (n: int)
    ensures n != 0
    ensures m.minutesPlayed.Some? && m.minutesPlayed.value != 0 ==> n == m.minutesPlayed.value
    ensures m.minutesPlayed.None? || m.minutesPlayed == Some(0) ==> n == 90
  {
    match m.minutesPlayed
    case Some(x) => if x != 0 then x else 90
    case None => 90
  }

  /** The record of player `pid` for match `mId`; `None` when no such match exists. */
  function RecordFor(d: League, pid: string, mId: string, now: int): (r: Option<MatchRecord>)
    ensures r.Some? <==> FindMatch(d.matches, mId).Some?
    ensures r.Some? ==> r.value.id == pid + "_" + mId && r.value.playerId == pid
  {
    match FindMatch(d.matches, mId)
    case None => None
    case Some(m) =>
      var playerTeam := match FindPlayer(d.players, pid) case Some(p) => Some(p.teamId) case None => None;
      Some(MatchRecord(
        pid + "_" + mId,
        pid,
        if m.createdAt.Some? && m.createdAt.value != 0 then m.createdAt.value else now,
        OpponentName(d.teams, OpponentId(m, playerTeam)),
        Count(d.goals, pid, mId),
        Count(d.assists, pid, mId),
        Count(d.yellowCards, pid, mId),
        Count(d.redCards, pid, mId),
        Minutes(m)))
  }

  /** The ids of `ids` that name an existing match, in order. */
  function KnownMatches(matches: seq<Match>, ids: seq<string>): (r: seq<string>)
    ensures |r| <= |ids|
    ensures forall i | 0 <= i < |r| :: r[i] in ids && FindMatch(matches, r[i]).Some?
    ensures forall i | 0 <= i < |ids| && FindMatch(matches, ids[i]).Some? :: ids[i] in r
    ensures Distinct(ids) ==> Distinct(r) && FirstOccurrenceOrder(r, ids)
  {
    if ids == [] then []
    else
      var rest := KnownMatches(matches, ids[1..]);
      KeptOrder(rest, ids);
      if FindMatch(matches, ids[0]).Some? then [ids[0]] + rest else rest
  }

  /** What is kept from the tail of distinct ids stays ordered, with or without the head. */
  lemma KeptOrder(rest: seq<string>, ids: seq<string>)
    requires ids != [] && forall i | 0 <= i < |rest| :: rest[i] in ids[1..]
    requires Distinct(ids[1..]) ==> FirstOccurrenceOrder(rest, ids[1..])
    ensures Distinct(ids) ==> FirstOccurrenceOrder(rest, ids) && FirstOccurrenceOrder([ids[0]] + rest, ids)
  {
    if Distinct(ids) {
      assert Distinct(ids[1..]);
      assert forall i | 0 <= i < |rest| :: rest[i] != ids[0] by {
        assert ids[0] !in ids[1..];
      }
      OrderSkipHead(rest, ids);
      OrderConsHead(rest, ids);
    }
  }

  function RecordsFor(d: League, pid: string, ids: seq<string>, now: int): (r: seq<MatchRecord>)
    ensures |r| == |KnownMatches(d.matches, ids)|
    ensures forall i | 0 <= i < |r| ::
      Some(r[i]) == RecordFor(d, pid, KnownMatches(d.matches, ids)[i], now)
  {
    var known := KnownMatches(d.matches, ids);
    seq(|known|, i requires 0 <= i < |known| => RecordFor(d, pid, known[i], now).value)
  }

  /** The ids of the existing matches a player has events in, each once, in first-touched order. */
  function RecordMatchIds(d: League, pid: string): (ids: seq<string>)
    ensures Distinct(ids)
    ensures forall i | 0 <= i < |ids| :: ids[i] in TouchedMatches(d, pid) && FindMatch(d.matches, ids[i]).Some?
    ensures forall mId | mId in TouchedMatches(d, pid) && FindMatch(d.matches, mId).Some? :: mId in ids
    ensures |ids| <= |TouchedMatches(d, pid)|
    ensures FirstOccurrenceOrder(ids, TouchedIds(d, pid))
  {
    var touched := TouchedIds(d, pid);
    var ids := KnownMatches(d.matches, Dedup(touched));
    TouchedIdsElems(d, pid);
    forall i | 0 <= i < |ids| ensures ids[i] in TouchedMatches(d, pid) {
      assert ids[i] in Elems(touched);
    }
    forall mId | mId in TouchedMatches(d, pid) && FindMatch(d.matches, mId).Some?
      ensures mId in ids
    {
      assert mId in Elems(touched);
      var j :| 0 <= j < |touched| && touched[j] == mId;
      var k :| 0 <= k < |Dedup(touched)| && Dedup(touched)[k] == mId;
    }
    DistinctElems(ids);
    SubsetCardinality(Elems(ids), TouchedMatches(d, pid));
    OrderTransitive(ids, Dedup(touched), touched);
    ids
  }

  /**
   * `getPlayerRecords(playerId)`: one record per distinct match the player has
   * an event in, skipping matches that no longer exist. `now` stands for the
   * current time, used when a match has no creation time.
   */
  function GetPlayerRecords(d: League, pid: string, now: int): (r: seq<MatchRecord>)
    ensures |r| == |RecordMatchIds(d, pid)|
    ensures forall i | 0 <= i < |r| :: Some(r[i]) == RecordFor(d, pid, RecordMatchIds(d, pid)[i], now)
  {
    RecordsFor(d, pid, Dedup(TouchedIds(d, pid)), now)
  }

  /** Record ids `playerId_matchId` tell the matches of one player apart. */
  lemma RecordIdInjective(pid: string, a: string, b: string)
    requires pid + "_" + a == pid + "_" + b
    ensures a == b
  {
    var p := |pid + "_"|;
    assert a == (pid + "_" + a)[p..];
    assert b == (pid + "_" + b)[p..];
  }

  /** Record `i` belongs to the player and to the `i`-th existing touched match. */
  lemma RecordAt(d: League, pid: string, now: int, i: nat)
    requires i < |GetPlayerRecords(d, pid, now)|
    ensures var r := GetPlayerRecords(d, pid, now)[i];
      var mId := RecordMatchIds(d, pid)[i];
      && r.playerId == pid && r.id == pid + "_" + mId
      && mId in TouchedMatches(d, pid) && FindMatch(d.matches, mId).Some?
  {
    var ids := RecordMatchIds(d, pid);
    assert Some(GetPlayerRecords(d, pid, now)[i]) == RecordFor(d, pid, ids[i], now);
  }

  /** Each record names an existing match the player has an event in. */
  lemma RecordsNameTouchedMatches(d: League, pid: string, now: int)
    ensures var r := GetPlayerRecords(d, pid, now);
      && |r| <= |TouchedMatches(d, pid)|
      && forall i | 0 <= i < |r| :: r[i].playerId == pid && exists mId | mId in TouchedMatches(d, pid) ::
           FindMatch(d.matches, mId).Some? && r[i].id == pid + "_" + mId
  {
    var r := GetPlayerRecords(d, pid, now);
    forall i | 0 <= i < |r|
      ensures r[i].playerId == pid && exists mId | mId in TouchedMatches(d, pid) ::
        FindMatch(d.matches, mId).Some? && r[i].id == pid + "_" + mId
    {
      RecordAt(d, pid, now, i);
    }
  }

  /** Every existing match the player has an event in has a record. */
  lemma RecordsCoverTouchedMatches(d: League, pid: string, now: int, mId: string)
    requires mId in TouchedMatches(d, pid) && FindMatch(d.matches, mId).Some?
    ensures exists i | 0 <= i < |GetPlayerRecords(d, pid, now)| ::
      GetPlayerRecords(d, pid, now)[i].id == pid + "_" + mId
  {
    var ids := RecordMatchIds(d, pid);
    var i :| 0 <= i < |ids| && ids[i] == mId;
    RecordAt(d, pid, now, i);
  }

  /** No two records of a player share an id, so there is one record per match. */
  lemma RecordIdsDistinct(d: League, pid: string, now: int)
    ensures var r := GetPlayerRecords(d, pid, now);
      forall i, j | 0 <= i < j < |r| :: r[i].id != r[j].id
  {
    var r := GetPlayerRecords(d, pid, now);
    var ids := RecordMatchIds(d, pid);
    forall i, j | 0 <= i < j < |r| ensures r[i].id != r[j].id {
      RecordAt(d, pid, now, i);
      RecordAt(d, pid, now, j);
      if r[i].id == r[j].id {
        RecordIdInjective(pid, ids[i], ids[j]);
      }
    }
  }

  lemma SubsetCardinality(a: set<string>, b: set<string>)
    requires a <= b
    ensures |a| <= |b|
  {
    assert b == a + (b - a);
  }

  /** The concatenated match ids hold exactly the touched matches. */
  lemma TouchedIdsElems(d: League, pid: string)
    ensures Elems(TouchedIds(d, pid)) == TouchedMatches(d, pid)
  {
    EventsOfAppend(d.goals, d.assists, pid);
    EventsOfAppend(d.goals + d.assists, d.yellowCards, pid);
    EventsOfAppend(d.goals + d.assists + d.yellowCards, d.redCards, pid);
    var g, a, y, r := EventsOf(d.goals, pid), EventsOf(d.assists, pid), EventsOf(d.yellowCards, pid), EventsOf(d.redCards, pid);
    MatchIdsAppend(g, a);
    MatchIdsAppend(g + a, y);
    MatchIdsAppend(g + a + y, r);
    DistinctMatchIds(d, pid);
  }

  /**
   * The figures of one record: the player's events among the match's, the
   * opponent side, and `minutesPlayed || 90`.
   */
  lemma RecordFields(d: League, pid: string, mId: string, now: int)
    requires FindMatch(d.matches, mId).Some?
    ensures var m := FindMatch(d.matches, mId).value;
      var rec := RecordFor(d, pid, mId, now).value;
      && rec.goals == Occurrences(EventsIn(d.goals, mId), pid)
      && rec.assists == Occurrences(EventsIn(d.assists, mId), pid)
      && rec.yellowCards == Occurrences(EventsIn(d.yellowCards, mId), pid)
      && rec.redCards == Occurrences(EventsIn(d.redCards, mId), pid)
      && rec.minutesPlayed == Minutes(m)
      && (FindPlayer(d.players, pid).Some? && FindPlayer(d.players, pid).value.teamId == m.homeTeamId
          ==> rec.opponent == OpponentName(d.teams, m.awayTeamId))
      && (FindPlayer(d.players, pid).Some? && FindPlayer(d.players, pid).value.teamId != m.homeTeamId
          ==> rec.opponent == OpponentName(d.teams, m.homeTeamId))
      && (FindPlayer(d.players, pid).None? ==> rec.opponent == OpponentName(d.teams, m.homeTeamId))
      && (m.createdAt.Some? && m.createdAt.value != 0 ==> rec.matchDate == m.createdAt.value)
      && (m.createdAt.None? || m.createdAt == Some(0) ==> rec.matchDate == now)
  {
  }
}
