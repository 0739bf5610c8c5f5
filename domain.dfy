/**
 * The entities of the league as the data hook holds them after a fetch.
 * Dates are day numbers (weekday = day % 7, 0 = Sunday); timestamps are
 * whole seconds; a field the document may lack is an `Option`.
 */
module Domain {
  import opened Common

  datatype Status = Upcoming | Played

  datatype Team = Team(
    id: string,
    name: string,
    logo: Option<string>,
    primaryColor: string,
    founded: string,
    stadium: string)

  datatype Player = Player(
    id: string,
    name: string,
    position: string,
    number: int,
    teamId: string,
    isManager: bool,
    photo: Option<string>)

  /**
   * A match document. `matchDay` 0 stands for a missing or zero week number;
   * `minutesPlayed` is `None` when the stored value is missing or not a number;
   * `createdAt` is the creation time in seconds, `None` when absent.
   */
  datatype Match = Match(
    id: string,
    matchDay: int,
    homeTeamId: string,
    awayTeamId: string,
    homeScore: int,
    awayScore: int,
    homeAssists: int,
    awayAssists: int,
    homeYellows: int,
    awayYellows: int,
    homeReds: int,
    awayReds: int,
    homePoints: int,
    awayPoints: int,
    minutesPlayed: Option<int>,
    league: string,
    createdAt: Option<int>,
    time: string,
    date: Option<int>,
    status: Status)

  /** A player picked for an event before it is stored: `{ playerId, teamId }`. */
  datatype EventEntry = EventEntry(playerId: string, teamId: string)

  /** The `stats` argument of `recordMatchStats`. */
  datatype EventBatch = EventBatch(
    goals: seq<EventEntry>,
    assists: seq<EventEntry>,
    yellows: seq<EventEntry>,
    reds: seq<EventEntry>)

  /** One goal, assist, yellow card or red card. */
  datatype PlayerEvent = PlayerEvent(
    playerId: string,
    matchId: string,
    matchDay: int,
    teamId: string,
    timestamp: Option<int>)

  /**
   * What the data hook holds after a fetch: the five collections it reads,
   * with the four event collections `goals`, `assists`, `yellow_cards` and
   * `red_cards`.
   */
  datatype League = League(
    teams: seq<Team>,
    players: seq<Player>,
    matches: seq<Match>,
    goals: seq<PlayerEvent>,
    assists: seq<PlayerEvent>,
    yellowCards: seq<PlayerEvent>,
    redCards: seq<PlayerEvent>)

  /** `[...goals, ...assists, ...yellowCards, ...redCards]` */
  function AllEvents(d: League): seq<PlayerEvent> {
    d.goals + d.assists + d.yellowCards + d.redCards
  }

  /** `s.find(x => key(x) === id)`: the first element whose key is `id`, if any. */
  function Find<T>(s: seq<T>, key: T -> string, id: string): (r: Option<T>)
    ensures r.Some? <==> exists i | 0 <= i < |s| :: key(s[i]) == id
    ensures r.Some? ==> r.value in s && key(r.value) == id
    ensures r.Some? ==> exists i | 0 <= i < |s| :: s[i] == r.value && forall j | 0 <= j < i :: key(s[j]) != id
  {
    if s == [] then None
    else if key(s[0]) == id then Some(s[0])
    else
      var r := Find(s[1..], key, id);
      assert r.Some? ==> exists i | 0 <= i < |s| :: s[i] == r.value && forall j | 0 <= j < i :: key(s[j]) != id by {
        if r.Some? {
          var i :| 0 <= i < |s[1..]| && s[1..][i] == r.value && forall j | 0 <= j < i :: key(s[1..][j]) != id;
          assert s[i + 1] == r.value;
          assert forall j | 0 < j < i + 1 :: s[j] == s[1..][j - 1];
        }
      }
      r
  }

  /** `players.find(p => p.id === id)` */
  function FindPlayer(players: seq<Player>, id: string): (r: Option<Player>)
    ensures r.None? <==> forall i | 0 <= i < |players| :: players[i].id != id
    ensures r.Some? ==> r.value in players && r.value.id == id
  {
    Find(players, (p: Player) => p.id, id)
  }

  /** `teams.find(t => t.id === id)` */
  function FindTeam(teams: seq<Team>, id: string): (r: Option<Team>)
    ensures r.None? <==> forall i | 0 <= i < |teams| :: teams[i].id != id
    ensures r.Some? ==> r.value in teams && r.value.id == id
  {
    Find(teams, (t: Team) => t.id, id)
  }

  /** `matches.find(m => m.id === id)` */
  function FindMatch(matches: seq<Match>, id: string): (r: Option<Match>)
    ensures r.None? <==> forall i | 0 <= i < |matches| :: matches[i].id != id
    ensures r.Some? ==> r.value in matches && r.value.id == id
  {
    Find(matches, (m: Match) => m.id, id)
  }

  /** The position of the first match with id `id`, if any. */
  function IndexOfMatch(matches: seq<Match>, id: string): (r: Option<nat>)
    ensures r.Some? ==> r.value < |matches| && matches[r.value].id == id
    ensures r.Some? ==> forall i | 0 <= i < r.value :: matches[i].id != id
    ensures r.None? <==> forall i | 0 <= i < |matches| :: matches[i].id != id
  {
    if matches == [] then None
    else if matches[0].id == id then Some(0)
    else match IndexOfMatch(matches[1..], id)
      case Some(k) => Some(k + 1)
      case None => None
  }

  /** The team a player id belongs to, as `players.find(...)?.teamId || ""`. */
  function TeamOfPlayer(players: seq<Player>, pid: string): (t: string)
    ensures (forall i | 0 <= i < |players| :: players[i].id != pid) ==> t == ""
    ensures t != "" ==> exists i | 0 <= i < |players| :: players[i].id == pid && players[i].teamId == t
  {
    match FindPlayer(players, pid)
    case Some(p) => p.teamId
    case None => ""
  }

  /** Events of one player: `events.filter(e => e.playerId === pid)`. */
  function EventsOf(events: seq<PlayerEvent>, pid: string): (r: seq<PlayerEvent>)
    ensures |r| <= |events|
    ensures forall i | 0 <= i < |r| :: r[i].playerId == pid && r[i] in events
    ensures forall i | 0 <= i < |events| && events[i].playerId == pid :: events[i] in r
  {
    if events == [] then []
    else if events[0].playerId == pid then [events[0]] + EventsOf(events[1..], pid)
    else EventsOf(events[1..], pid)
  }

  /** Events of one match: `events.filter(e => e.matchId === mid)`. */
  function EventsIn(events: seq<PlayerEvent>, mid: string): (r: seq<PlayerEvent>)
    ensures |r| <= |events|
    ensures forall i | 0 <= i < |r| :: r[i].matchId == mid && r[i] in events
    ensures forall i | 0 <= i < |events| && events[i].matchId == mid :: events[i] in r
  {
    if events == [] then []
    else if events[0].matchId == mid then [events[0]] + EventsIn(events[1..], mid)
    else EventsIn(events[1..], mid)
  }

  /** `matches.filter(m => m.status === s)` */
  function WithStatus(ms: seq<Match>, s: Status): (r: seq<Match>)
    ensures |r| <= |ms|
    ensures forall i | 0 <= i < |r| :: r[i].status == s && r[i] in ms
    ensures forall i | 0 <= i < |ms| && ms[i].status == s :: ms[i] in r
  {
    if ms == [] then []
    else if ms[0].status == s then [ms[0]] + WithStatus(ms[1..], s)
    else WithStatus(ms[1..], s)
  }

  /** `events.map(e => e.matchId)` */
  function MatchIds(events: seq<PlayerEvent>): (r: seq<string>)
    ensures |r| == |events|
    ensures forall i | 0 <= i < |r| :: r[i] == events[i].matchId
  {
    if events == [] then [] else [events[0].matchId] + MatchIds(events[1..])
  }

  /** `events.map(e => e.playerId)` */
  function PlayerIds(events: seq<PlayerEvent>): (r: seq<string>)
    ensures |r| == |events|
    ensures forall i | 0 <= i < |r| :: r[i] == events[i].playerId
  {
    if events == [] then [] else [events[0].playerId] + PlayerIds(events[1..])
  }

  lemma {:induction false} EventsOfAppend(a: seq<PlayerEvent>, b: seq<PlayerEvent>, pid: string)
    ensures EventsOf(a + b, pid) == EventsOf(a, pid) + EventsOf(b, pid)
  {
    if a != [] {
      var ab := a + b;
      assert ab[0] == a[0] && ab[1..] == a[1..] + b;
      EventsOfAppend(a[1..], b, pid);
      if a[0].playerId == pid {
        assert EventsOf(ab, pid) == [a[0]] + EventsOf(ab[1..], pid);
        assert EventsOf(a, pid) == [a[0]] + EventsOf(a[1..], pid);
        assert [a[0]] + (EventsOf(a[1..], pid) + EventsOf(b, pid))
          == ([a[0]] + EventsOf(a[1..], pid)) + EventsOf(b, pid);
      } else {
        assert EventsOf(ab, pid) == EventsOf(ab[1..], pid);
        assert EventsOf(a, pid) == EventsOf(a[1..], pid);
      }
    } else {
      assert a + b == b;
    }
  }

  /**
   * The filters keep every occurrence of a kept element and none of the
   * others: together with the append lemmas below, which fix the order,
   * this determines each filter completely.
   */
  lemma {:induction false} EventsOfCount(events: seq<PlayerEvent>, pid: string, e: PlayerEvent)
    ensures multiset(EventsOf(events, pid))[e] == if e.playerId == pid then multiset(events)[e] else 0
  {
    if events != [] {
      assert events == [events[0]] + events[1..];
      EventsOfCount(events[1..], pid, e);
    }
  }

  lemma {:induction false} EventsInCount(events: seq<PlayerEvent>, mid: string, e: PlayerEvent)
    ensures multiset(EventsIn(events, mid))[e] == if e.matchId == mid then multiset(events)[e] else 0
  {
    if events != [] {
      assert events == [events[0]] + events[1..];
      EventsInCount(events[1..], mid, e);
    }
  }

  lemma {:induction false} WithStatusCount(ms: seq<Match>, s: Status, m: Match)
    ensures multiset(WithStatus(ms, s))[m] == if m.status == s then multiset(ms)[m] else 0
  {
    if ms != [] {
      assert ms == [ms[0]] + ms[1..];
      WithStatusCount(ms[1..], s, m);
    }
  }

  /** Filtering a concatenation filters each part and keeps the parts in order. */
  lemma {:induction false} EventsInAppend(a: seq<PlayerEvent>, b: seq<PlayerEvent>, mid: string)
    ensures EventsIn(a + b, mid) == EventsIn(a, mid) + EventsIn(b, mid)
  {
    if a != [] {
      assert (a + b)[0] == a[0] && (a + b)[1..] == a[1..] + b;
      EventsInAppend(a[1..], b, mid);
    } else {
      assert a + b == b;
    }
  }

  lemma {:induction false} WithStatusAppend(a: seq<Match>, b: seq<Match>, s: Status)
    ensures WithStatus(a + b, s) == WithStatus(a, s) + WithStatus(b, s)
  {
    if a != [] {
      assert (a + b)[0] == a[0] && (a + b)[1..] == a[1..] + b;
      WithStatusAppend(a[1..], b, s);
    } else {
      assert a + b == b;
    }
  }

  lemma {:induction false} MatchIdsAppend(a: seq<PlayerEvent>, b: seq<PlayerEvent>)
    ensures MatchIds(a + b) == MatchIds(a) + MatchIds(b)
  {
    if a != [] {
      assert (a + b)[1..] == a[1..] + b;
      MatchIdsAppend(a[1..], b);
    } else {
      assert a + b == b;
    }
  }
}
