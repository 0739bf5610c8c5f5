/**
 * The writes of the data hook, as their effect on the stored collections:
 * the points rule of `addMatch` and `updateMatch`, the next match day, the
 * `deleteTeam` guard, the clear-then-set manager reassignment, and the event
 * batches written and cleared for a match. The store is the stored
 * documents. Every write except `deleteMatchEvents` makes the hook re-read
 * all collections; `deleteMatchEvents` does not, so until the next re-read
 * the hook's event lists still hold the events it deleted.
 */
module LeagueStore {
  import opened Common
  import opened Domain

  // ---------------------------------------------------------------------
  // Points

  /** Three points for a win, one each for a draw, none for a defeat. */
  function ResultPoints(h: int, a: int): (p: (int, int))
    ensures p.0 + p.1 == (if h == a then 2 else 3)
    ensures p.0 == 3 <==> h > a
    ensures p.1 == 3 <==> a > h
    ensures h == a <==> p == (1, 1)
    ensures p.0 >= 0 && p.1 >= 0
  {
    if h > a then (3, 0) else if h < a then (0, 3) else (1, 1)
  }

  /**
   * The points `addMatch` stores: the result's points for a played match
   * (its scores are numbers here, so `|| 0` changes nothing), none otherwise.
   */
  function AddedPoints(status: Status, h: int, a: int): (p: (int, int))
    ensures status == Played ==> p == ResultPoints(h, a)
    ensures status == Upcoming ==> p == (0, 0)
  {
    if status == Played then ResultPoints(h, a) else (0, 0)
  }

  /**
   * The points `updateMatch` stores, `h > a ? 3 : h === a ? 1 : 0` and its
   * mirror; the match's status plays no part.
   */
  function UpdatePoints(h: int, a: int): (p: (int, int))
    ensures p == ResultPoints(h, a)
  {
    (if h > a then 3 else if h == a then 1 else 0, if a > h then 3 else if a == h then 1 else 0)
  }

  /** The match day after the highest stored one, or 1 for an empty collection. */
  function NextMatchDay(matches: seq<Match>): (d: int)
    ensures matches == [] ==> d == 1
    ensures forall i | 0 <= i < |matches| :: matches[i].matchDay < d
    ensures matches != [] ==> exists i | 0 <= i < |matches| :: matches[i].matchDay == d - 1
  {
    if matches == [] then 1
    else
      var rest := NextMatchDay(matches[1..]);
      if matches[1..] == [] || matches[0].matchDay + 1 >= rest then matches[0].matchDay + 1
      else
        assert exists i | 0 <= i < |matches[1..]| :: matches[1..][i].matchDay == rest - 1;
        rest
  }

  /** The fields an update may carry (`Partial<Match>`); `None` leaves a field as it is. */
  datatype MatchPatch = MatchPatch(
    matchDay: Option<int>,
    homeTeamId: Option<string>,
    awayTeamId: Option<string>,
    homeScore: Option<int>,
    awayScore: Option<int>,
    homeAssists: Option<int>,
    awayAssists: Option<int>,
    homeYellows: Option<int>,
    awayYellows: Option<int>,
    homeReds: Option<int>,
    awayReds: Option<int>,
    homePoints: Option<int>,
    awayPoints: Option<int>,
    minutesPlayed: Option<Option<int>>,
    league: Option<string>,
    time: Option<string>,
    date: Option<Option<int>>,
    status: Option<Status>)

  /** The fields of `u` written over `m`. */
  function Merge(m: Match, u: MatchPatch): Match {
    m.(matchDay := u.matchDay.GetOr(m.matchDay),
       homeTeamId := u.homeTeamId.GetOr(m.homeTeamId),
       awayTeamId := u.awayTeamId.GetOr(m.awayTeamId),
       homeScore := u.homeScore.GetOr(m.homeScore),
       awayScore := u.awayScore.GetOr(m.awayScore),
       homeAssists := u.homeAssists.GetOr(m.homeAssists),
       awayAssists := u.awayAssists.GetOr(m.awayAssists),
       homeYellows := u.homeYellows.GetOr(m.homeYellows),
       awayYellows := u.awayYellows.GetOr(m.awayYellows),
       homeReds := u.homeReds.GetOr(m.homeReds),
       awayReds := u.awayReds.GetOr(m.awayReds),
       homePoints := u.homePoints.GetOr(m.homePoints),
       awayPoints := u.awayPoints.GetOr(m.awayPoints),
       minutesPlayed := u.minutesPlayed.GetOr(m.minutesPlayed),
       league := u.league.GetOr(m.league),
       time := u.time.GetOr(m.time),
       date := u.date.GetOr(m.date),
       status := u.status.GetOr(m.status))
  }

  /**
   * The stored match after `updateMatch(m.id, u)`: the patch, with the points
   * recomputed from the resulting scores whenever the patch names a score.
   */
  function Updated(m: Match, u: MatchPatch): (r: Match)
    ensures r.id == m.id && r.createdAt == m.createdAt
    ensures r.homeScore == u.homeScore.GetOr(m.homeScore) && r.awayScore == u.awayScore.GetOr(m.awayScore)
    ensures r.status == u.status.GetOr(m.status)
    ensures u.homeScore.Some? || u.awayScore.Some? ==>
      (r.homePoints, r.awayPoints) == ResultPoints(r.homeScore, r.awayScore)
    ensures u.homeScore.None? && u.awayScore.None? ==>
      r.homePoints == u.homePoints.GetOr(m.homePoints) && r.awayPoints == u.awayPoints.GetOr(m.awayPoints)
  {
    var merged := Merge(m, u);
    if u.homeScore.Some? || u.awayScore.Some? then
      var p := UpdatePoints(merged.homeScore, merged.awayScore);
      merged.(homePoints := p.0, awayPoints := p.1)
    else merged
  }

  /**
   * Saving an upcoming fixture with scores 0-0 stores a draw's points,
   * whatever points the patch carried.
   */
  lemma UpcomingGoallessSaveScoresADraw(m: Match, u: MatchPatch)
    requires u.status == Some(Upcoming)
    requires u.homeScore == Some(0) && u.awayScore == Some(0)
    ensures Updated(m, u).status == Upcoming
    ensures Updated(m, u).homePoints == 1 && Updated(m, u).awayPoints == 1
  {
  }

  /**
   * The document `addMatch(input)` stores under `newId` at time `now`: the
   * input with its match day filled in when missing and the points of its
   * result when it was played.
   */
  function NewMatch(matches: seq<Match>, input: Match, newId: string, now: int): (m: Match)
    ensures m.id == newId && m.createdAt == Some(now)
    ensures input.matchDay != 0 ==> m.matchDay == input.matchDay
    ensures input.matchDay == 0 ==> m.matchDay == NextMatchDay(matches)
    ensures (m.homePoints, m.awayPoints) == AddedPoints(input.status, input.homeScore, input.awayScore)
    ensures m.status == input.status && m.homeScore == input.homeScore && m.awayScore == input.awayScore
  {
    var day := if input.matchDay != 0 then input.matchDay else NextMatchDay(matches);
    var p := AddedPoints(input.status, input.homeScore, input.awayScore);
    input.(id := newId, matchDay := day, homePoints := p.0, awayPoints := p.1, createdAt := Some(now))
  }

  // ---------------------------------------------------------------------
  // Team and player queries

  /** `players.some(p => p.teamId === teamId)` */
  function HasPlayers(players: seq<Player>, teamId: string): (b: bool)
    ensures b <==> exists i | 0 <= i < |players| :: players[i].teamId == teamId
  {
    if players == [] then false
    else players[0].teamId == teamId || HasPlayers(players[1..], teamId)
  }

  /** `getTeamPlayers(teamId)` */
  function TeamPlayers(players: seq<Player>, teamId: string): (r: seq<Player>)
    ensures |r| <= |players|
    ensures forall i | 0 <= i < |r| :: r[i].teamId == teamId && r[i] in players
    ensures forall i | 0 <= i < |players| && players[i].teamId == teamId :: players[i] in r
  {
    if players == [] then []
    else if players[0].teamId == teamId then [players[0]] + TeamPlayers(players[1..], teamId)
    else TeamPlayers(players[1..], teamId)
  }

  /** `getTeamManager(teamId)`: the first player of the team marked as manager. */
  function TeamManager(players: seq<Player>, teamId: string): (r: Option<Player>)
    ensures r.Some? <==> exists i | 0 <= i < |players| :: players[i].teamId == teamId && players[i].isManager
    ensures r.Some? ==> r.value.teamId == teamId && r.value.isManager
    ensures r.Some? ==> exists i | 0 <= i < |players| :: (players[i] == r.value
      && forall j | 0 <= j < i :: !(players[j].teamId == teamId && players[j].isManager))
  {
    if players == [] then None
    else if players[0].teamId == teamId && players[0].isManager then Some(players[0])
    else match TeamManager(players[1..], teamId)
      case None => None
      case Some(p) =>
        var k :| 0 <= k < |players[1..]| && players[1..][k] == p
          && forall j | 0 <= j < k :: !(players[1..][j].teamId == teamId && players[1..][j].isManager);
        assert players[k + 1] == p;
        Some(p)
  }

  /** The team collection without team `teamId`. */
  function WithoutTeam(teams: seq<Team>, teamId: string): (r: seq<Team>)
    ensures |r| <= |teams|
    ensures forall i | 0 <= i < |r| :: r[i].id != teamId && r[i] in teams
    ensures forall i | 0 <= i < |teams| && teams[i].id != teamId :: teams[i] in r
  {
    if teams == [] then []
    else if teams[0].id == teamId then WithoutTeam(teams[1..], teamId)
    else [teams[0]] + WithoutTeam(teams[1..], teamId)
  }

  /**
   * The players after `setManager(teamId, playerId)`: every player of the team
   * loses the manager flag, then the chosen player gets it, whichever team it
   * is on.
   */
  function Reassigned(players: seq<Player>, teamId: string, playerId: string): (r: seq<Player>)
    ensures |r| == |players|
    ensures forall i | 0 <= i < |r| :: r[i] == players[i].(isManager := r[i].isManager)
    ensures forall i | 0 <= i < |r| :: r[i].id == playerId ==> r[i].isManager
    ensures forall i | 0 <= i < |r| :: r[i].id != playerId && r[i].teamId == teamId ==> !r[i].isManager
    ensures forall i | 0 <= i < |r| :: r[i].id != playerId && r[i].teamId != teamId ==> r[i] == players[i]
  {
    seq(|players|, i requires 0 <= i < |players| =>
      players[i].(isManager := if players[i].id == playerId then true
                               else if players[i].teamId == teamId then false
                               else players[i].isManager))
  }

  /**
   * With unique player ids, after appointing a player of the team the team's
   * manager is that player, and it is the only player of the team so marked.
   */
  lemma ReassignedHasOneManager(players: seq<Player>, teamId: string, k: nat)
    requires k < |players| && players[k].teamId == teamId
    requires forall i, j | 0 <= i < j < |players| :: players[i].id != players[j].id
    ensures var r := Reassigned(players, teamId, players[k].id);
      && TeamManager(r, teamId) == Some(r[k])
      && forall i | 0 <= i < |r| && r[i].teamId == teamId && r[i].isManager :: i == k
  {
    var r := Reassigned(players, teamId, players[k].id);
    assert forall i | 0 <= i < |r| && i != k :: r[i].id != players[k].id;
    var m := TeamManager(r, teamId);
    assert r[k].teamId == teamId && r[k].isManager;
    var i :| 0 <= i < |r| && r[i] == m.value
      && forall j | 0 <= j < i :: !(r[j].teamId == teamId && r[j].isManager);
    assert i == k;
  }

  // ---------------------------------------------------------------------
  // Events

  /** The matches after an update of `matchId`: the first match with that id patched. */
  function Patched(ms: seq<Match>, matchId: string, u: MatchPatch): (r: seq<Match>)
    ensures |r| == |ms|
    ensures IndexOfMatch(ms, matchId).None? ==> r == ms
  {
    var k := IndexOfMatch(ms, matchId);
    if k.Some? then ms[k.value := Updated(ms[k.value], u)] else ms
  }

  /** The events `recordMatchStats` writes for one list of entries. */
  function Stamped(entries: seq<EventEntry>, matchId: string, matchDay: int, now: int): (r: seq<PlayerEvent>)
    ensures |r| == |entries|
    ensures forall i | 0 <= i < |r| ::
      r[i] == PlayerEvent(entries[i].playerId, matchId, matchDay, entries[i].teamId, Some(now))
  {
    seq(|entries|, i requires 0 <= i < |entries| =>
      PlayerEvent(entries[i].playerId, matchId, matchDay, entries[i].teamId, Some(now)))
  }

  /** The events of `events` that do not belong to match `matchId`. */
  function WithoutMatch(events: seq<PlayerEvent>, matchId: string): (r: seq<PlayerEvent>)
    ensures |r| <= |events|
    ensures forall i | 0 <= i < |r| :: r[i].matchId != matchId && r[i] in events
    ensures forall i | 0 <= i < |events| && events[i].matchId != matchId :: events[i] in r
  {
    if events == [] then []
    else if events[0].matchId == matchId then WithoutMatch(events[1..], matchId)
    else [events[0]] + WithoutMatch(events[1..], matchId)
  }

  /** After recording a batch, the match's events are the old ones followed by the new ones. */
  lemma {:induction false} RecordedEventsOfMatch(events: seq<PlayerEvent>, entries: seq<EventEntry>, matchId: string, matchDay: int, now: int)
    ensures EventsIn(events + Stamped(entries, matchId, matchDay, now), matchId)
      == EventsIn(events, matchId) + Stamped(entries, matchId, matchDay, now)
  {
    var s := Stamped(entries, matchId, matchDay, now);
    if events == [] {
      assert events + s == s;
      AllOfMatch(s, matchId);
    } else {
      assert (events + s)[1..] == events[1..] + s;
      RecordedEventsOfMatch(events[1..], entries, matchId, matchDay, now);
    }
  }

  lemma {:induction false} AllOfMatch(events: seq<PlayerEvent>, matchId: string)
    requires forall i | 0 <= i < |events| :: events[i].matchId == matchId
    ensures EventsIn(events, matchId) == events
  {
    if events != [] {
      AllOfMatch(events[1..], matchId);
    }
  }

  /** Clearing a match's events and then recording a batch leaves exactly that batch for the match. */
  lemma ClearThenRecord(events: seq<PlayerEvent>, entries: seq<EventEntry>, matchId: string, matchDay: int, now: int)
    ensures EventsIn(WithoutMatch(events, matchId) + Stamped(entries, matchId, matchDay, now), matchId)
      == Stamped(entries, matchId, matchDay, now)
  {
    var rest := WithoutMatch(events, matchId);
    RecordedEventsOfMatch(rest, entries, matchId, matchDay, now);
    NoneOfMatch(rest, matchId);
  }

  lemma {:induction false} NoneOfMatch(events: seq<PlayerEvent>, matchId: string)
    requires forall i | 0 <= i < |events| :: events[i].matchId != matchId
    ensures EventsIn(events, matchId) == []
  {
    if events != [] {
      NoneOfMatch(events[1..], matchId);
    }
  }

  /** Clearing a match's events keeps the events of every other match. */
  lemma {:induction false} WithoutOtherMatch(events: seq<PlayerEvent>, matchId: string, other: string)
    requires other != matchId
    ensures EventsIn(WithoutMatch(events, matchId), other) == EventsIn(events, other)
  {
    if events != [] {
      WithoutOtherMatch(events[1..], matchId, other);
      if events[0].matchId != matchId {
        var rest := WithoutMatch(events[1..], matchId);
        assert ([events[0]] + rest)[1..] == rest;
      }
    }
  }

  /** Recording a batch for one match adds nothing to any other match. */
  lemma {:induction false} RecordedOtherMatch(events: seq<PlayerEvent>, entries: seq<EventEntry>, matchId: string, matchDay: int, now: int, other: string)
    requires other != matchId
    ensures EventsIn(events + Stamped(entries, matchId, matchDay, now), other) == EventsIn(events, other)
  {
    var s := Stamped(entries, matchId, matchDay, now);
    if events == [] {
      assert events + s == s;
      NoneOfMatch(s, other);
    } else {
      assert (events + s)[1..] == events[1..] + s;
      RecordedOtherMatch(events[1..], entries, matchId, matchDay, now, other);
    }
  }

  /**
   * Clearing a match's events and recording a batch for it leaves exactly the
   * batch for that match and every other match's events as they were.
   */
  lemma ReplaceEvents(events: seq<PlayerEvent>, entries: seq<EventEntry>, matchId: string, matchDay: int, now: int)
    ensures EventsIn(WithoutMatch(events, matchId) + Stamped(entries, matchId, matchDay, now), matchId)
      == Stamped(entries, matchId, matchDay, now)
    ensures forall other | other != matchId ::
      EventsIn(WithoutMatch(events, matchId) + Stamped(entries, matchId, matchDay, now), other)
      == EventsIn(events, other)
  {
    ClearThenRecord(events, entries, matchId, matchDay, now);
    forall other | other != matchId
      ensures EventsIn(WithoutMatch(events, matchId) + Stamped(entries, matchId, matchDay, now), other)
        == EventsIn(events, other)
    {
      RecordedOtherMatch(WithoutMatch(events, matchId), entries, matchId, matchDay, now, other);
      WithoutOtherMatch(events, matchId, other);
    }
  }

  // ---------------------------------------------------------------------
  // The store

  class Store {
    var teams: seq<Team>
    var players: seq<Player>
    var matches: seq<Match>
    var goals: seq<PlayerEvent>
    var assists: seq<PlayerEvent>
    var yellowCards: seq<PlayerEvent>
    var redCards: seq<PlayerEvent>

    /** What a fetch of all collections returns. */
    function Data(): League
      reads this
    {
      League(teams, players, matches, goals, assists, yellowCards, redCards)
    }

    constructor (d: League)
      ensures Data() == d
    {
      teams, players, matches := d.teams, d.players, d.matches;
      goals, assists, yellowCards, redCards := d.goals, d.assists, d.yellowCards, d.redCards;
    }

    /** `deleteTeam(teamId)`: refused while any player belongs to the team. */
    method DeleteTeam(teamId: string) returns (error: Option<string>)
      modifies this
      ensures error.Some? <==> HasPlayers(old(players), teamId)
      ensures error.Some? ==> error.value == "Cannot delete team with active players." && Data() == old(Data())
      ensures error.None? ==> Data() == old(Data()).(teams := WithoutTeam(old(teams), teamId))
    {
      if HasPlayers(players, teamId) {
        return Some("Cannot delete team with active players.");
      }
      teams := WithoutTeam(teams, teamId);
      error := None;
    }

    /**
     * `setManager(teamId, playerId)`: a batch clears the flag of every player
     * of the team, then the chosen player's document is updated. When no player
     * has that id the second write fails and reports `false`, after the first
     * one has been committed.
     */
    method SetManager(teamId: string, playerId: string) returns (ok: bool)
      modifies this
      ensures ok <==> exists i | 0 <= i < |old(players)| :: old(players)[i].id == playerId
      ensures players == Reassigned(old(players), teamId, playerId)
      ensures Data() == old(Data()).(players := players)
    {
      var cleared: seq<Player> := [];
      for i := 0 to |players|
        invariant |cleared| == i
        invariant forall j | 0 <= j < i ::
          cleared[j] == if players[j].teamId == teamId then players[j].(isManager := false) else players[j]
      {
        var p := players[i];
        cleared := cleared + [if p.teamId == teamId then p.(isManager := false) else p];
      }
      var appointed: seq<Player> := [];
      ok := false;
      for i := 0 to |cleared|
        invariant |appointed| == i
        invariant forall j | 0 <= j < i ::
          appointed[j] == if cleared[j].id == playerId then cleared[j].(isManager := true) else cleared[j]
        invariant ok <==> exists j | 0 <= j < i :: players[j].id == playerId
      {
        var p := cleared[i];
        if p.id == playerId {
          ok := true;
        }
        appointed := appointed + [if p.id == playerId then p.(isManager := true) else p];
      }
      players := appointed;
    }

    /** `getTeamManager(teamId)` */
    function Manager(teamId: string): (r: Option<Player>)
      reads this
      ensures r.Some? ==> r.value in players && r.value.teamId == teamId && r.value.isManager
    {
      TeamManager(players, teamId)
    }

    /**
     * `addMatch(input)`: a missing match day becomes the one after the highest
     * stored, the points follow the result of a played match, and the creation
     * time is `now`. `newId` is the id the new document receives; `written`
     * says whether the write went through.
     */
    method AddMatch(input: Match, newId: string, now: int, written: bool) returns (result: Option<(string, int)>)
      modifies this
      ensures !written ==> result.None? && Data() == old(Data())
      ensures written ==>
        && result == Some((newId, NewMatch(old(matches), input, newId, now).matchDay))
        && matches == old(matches) + [NewMatch(old(matches), input, newId, now)]
        && Data() == old(Data()).(matches := matches)
    {
      var matchDay := input.matchDay;
      if matchDay == 0 {
        matchDay := NextMatchDay(matches);
      }
      var homePoints, awayPoints := 0, 0;
      if input.status == Played {
        var h, a := input.homeScore, input.awayScore;
        if h > a {
          homePoints := 3;
        } else if h < a {
          awayPoints := 3;
        } else {
          homePoints, awayPoints := 1, 1;
        }
      }
      if !written {
        return None;
      }
      matches := matches + [input.(id := newId, matchDay := matchDay, homePoints := homePoints,
                                   awayPoints := awayPoints, createdAt := Some(now))];
      result := Some((newId, matchDay));
    }

    /** `updateMatch(matchId, u)`: fails when no match has that id. */
    method UpdateMatch(matchId: string, u: MatchPatch) returns (ok: bool)
      modifies this
      ensures ok <==> exists i | 0 <= i < |old(matches)| :: old(matches)[i].id == matchId
      ensures !ok ==> Data() == old(Data())
      ensures matches == Patched(old(matches), matchId, u)
      ensures Data() == old(Data()).(matches := matches)
    {
      var k := IndexOfMatch(matches, matchId);
      if k.None? {
        return false;
      }
      matches := matches[k.value := Updated(matches[k.value], u)];
      ok := true;
    }

    /** `recordMatchStats(matchId, matchDay, stats)`, every event stamped with `now`. */
    method RecordMatchStats(matchId: string, matchDay: int, stats: EventBatch, now: int)
      modifies this
      ensures goals == old(goals) + Stamped(stats.goals, matchId, matchDay, now)
      ensures assists == old(assists) + Stamped(stats.assists, matchId, matchDay, now)
      ensures yellowCards == old(yellowCards) + Stamped(stats.yellows, matchId, matchDay, now)
      ensures redCards == old(redCards) + Stamped(stats.reds, matchId, matchDay, now)
      ensures teams == old(teams) && players == old(players) && matches == old(matches)
    {
      goals := goals + Stamped(stats.goals, matchId, matchDay, now);
      assists := assists + Stamped(stats.assists, matchId, matchDay, now);
      yellowCards := yellowCards + Stamped(stats.yellows, matchId, matchDay, now);
      redCards := redCards + Stamped(stats.reds, matchId, matchDay, now);
    }

    /** `deleteMatchEvents(matchId)` */
    method DeleteMatchEvents(matchId: string)
      modifies this
      ensures goals == WithoutMatch(old(goals), matchId)
      ensures assists == WithoutMatch(old(assists), matchId)
      ensures yellowCards == WithoutMatch(old(yellowCards), matchId)
      ensures redCards == WithoutMatch(old(redCards), matchId)
      ensures teams == old(teams) && players == old(players) && matches == old(matches)
    {
      goals := WithoutMatch(goals, matchId);
      assists := WithoutMatch(assists, matchId);
      yellowCards := WithoutMatch(yellowCards, matchId);
      redCards := WithoutMatch(redCards, matchId);
    }

    /** `deleteMatch(matchId)`: the match and all of its events. */
    method DeleteMatch(matchId: string)
      modifies this
      ensures forall i | 0 <= i < |matches| :: matches[i].id != matchId && matches[i] in old(matches)
      ensures forall i | 0 <= i < |old(matches)| && old(matches)[i].id != matchId :: old(matches)[i] in matches
      ensures goals == WithoutMatch(old(goals), matchId)
      ensures assists == WithoutMatch(old(assists), matchId)
      ensures yellowCards == WithoutMatch(old(yellowCards), matchId)
      ensures redCards == WithoutMatch(old(redCards), matchId)
      ensures teams == old(teams) && players == old(players)
    {
      matches := WithoutId(matches, matchId);
      DeleteMatchEvents(matchId);
    }
  }

  function WithoutId(matches: seq<Match>, matchId: string): (r: seq<Match>)
    ensures forall i | 0 <= i < |r| :: r[i].id != matchId && r[i] in matches
    ensures forall i | 0 <= i < |matches| && matches[i].id != matchId :: matches[i] in r
  {
    if matches == [] then []
    else if matches[0].id == matchId then WithoutId(matches[1..], matchId)
    else [matches[0]] + WithoutId(matches[1..], matchId)
  }
}
