/**
 * The dashboard's derived figures: played and upcoming matches, event
 * totals, the five most recent events of any kind, and the minutes played.
 */
module Dashboard {
  import opened Common
  import opened Domain
  import opened Sorting

  /**
   * Played and upcoming matches split the match list: together they hold
   * every match exactly once.
   */
  lemma {:induction false} StatusSplit(ms: seq<Match>)
    ensures |WithStatus(ms, Played)| + |WithStatus(ms, Upcoming)| == |ms|
    ensures multiset(WithStatus(ms, Played)) + multiset(WithStatus(ms, Upcoming)) == multiset(ms)
  {
    if ms != [] {
      StatusSplit(ms[1..]);
      assert ms == [ms[0]] + ms[1..];
    }
  }

  /** The counters at the top of the dashboard. */
  datatype Totals = Totals(played: nat, upcoming: nat, goals: nat, assists: nat)

  /**
   * `playedMatches.length`, `upcomingMatches.length`, `goals.length` and
   * `assists.length`: every match is counted under exactly one status, and
   * every goal and assist document once.
   */
  function DashboardTotals(d: League): (r: Totals)
    ensures r.played + r.upcoming == |d.matches|
    ensures r.played == |WithStatus(d.matches, Played)| && r.upcoming == |WithStatus(d.matches, Upcoming)|
    ensures r.goals == |d.goals| && r.assists == |d.assists|
  {
    StatusSplit(d.matches);
    Totals(|WithStatus(d.matches, Played)|, |WithStatus(d.matches, Upcoming)|, |d.goals|, |d.assists|)
  }

  // ---------------------------------------------------------------------
  // Recent activity

  /** The `type` tag added to each event of the feed. */
  datatype Kind = Goal | Yellow | Red | Assist

  /** `{ ...event, type }` */
  datatype Activity = Activity(event: PlayerEvent, kind: Kind)

  /** `timestamp?.seconds || 0` */
  function Seconds(a: Activity): int {
    a.event.timestamp.GetOr(0)
  }

  function Tagged(events: seq<PlayerEvent>, k: Kind): (r: seq<Activity>)
    ensures |r| == |events|
    ensures forall i | 0 <= i < |r| :: r[i] == Activity(events[i], k)
  {
    MapSeq(events, e => Activity(e, k))
  }

  /** The feed before sorting: goals, yellow cards, red cards, then assists. */
  function Feed(d: League): seq<Activity> {
    Tagged(d.goals, Goal) + Tagged(d.yellowCards, Yellow) + Tagged(d.redCards, Red) + Tagged(d.assists, Assist)
  }

  /** The list an activity of kind `k` comes from. */
  function Source(d: League, k: Kind): seq<PlayerEvent> {
    match k
    case Goal => d.goals
    case Yellow => d.yellowCards
    case Red => d.redCards
    case Assist => d.assists
  }

  /** The tagged copy of a list holds exactly its events, each with the tag. */
  lemma TaggedMember(events: seq<PlayerEvent>, k: Kind, a: Activity)
    ensures a in Tagged(events, k) <==> a.kind == k && a.event in events
  {
    var t := Tagged(events, k);
    if a in t {
      var i :| 0 <= i < |t| && t[i] == a;
    }
    if a.kind == k && a.event in events {
      var i :| 0 <= i < |events| && events[i] == a.event;
      assert t[i] == a;
    }
  }

  /**
   * The feed holds every event of the four lists, tagged with the list it
   * comes from, and nothing else.
   */
  lemma FeedHoldsAllEvents(d: League, a: Activity)
    ensures a in Feed(d) <==> a.event in Source(d, a.kind)
  {
    TaggedMember(d.goals, Goal, a);
    TaggedMember(d.yellowCards, Yellow, a);
    TaggedMember(d.redCards, Red, a);
    TaggedMember(d.assists, Assist, a);
  }

  /** The comparator `(b.timestamp?.seconds || 0) - (a.timestamp?.seconds || 0)`: later events first. */
  predicate Newer(a: Activity, b: Activity) {
    Seconds(a) >= Seconds(b)
  }

  lemma NewerIsTotalPreorder()
    ensures TotalPreorder(Newer)
  {
  }

  /** The first activities sorted newest first are the newest ones. */
  lemma NewestFirst(f: seq<Activity>, top: seq<Activity>)
    requires |top| <= |f| && top == Sort(f, Newer)[..|top|]
    ensures forall i, j | 0 <= i < j < |top| :: Seconds(top[i]) >= Seconds(top[j])
    ensures multiset(top) <= multiset(f)
    ensures forall a | a in multiset(f) - multiset(top) :: forall i | 0 <= i < |top| :: Seconds(top[i]) >= Seconds(a)
  {
    assert SortedBy(top, Newer) && multiset(top) <= multiset(f)
      && forall a | a in multiset(f) - multiset(top) :: forall i | 0 <= i < |top| :: Newer(top[i], a)
    by {
      NewerIsTotalPreorder();
      TopK(f, Newer, top);
    }
  }

  /**
   * A feed sorted newest first and cut to 5: the five newest activities, or
   * all of them when there are fewer, newest first, drawn from the feed, and
   * none left out newer than one kept.
   */
  function LatestFive(f: seq<Activity>): (r: seq<Activity>)
    ensures |r| == if |f| < 5 then |f| else 5
    ensures forall i, j | 0 <= i < j < |r| :: Seconds(r[i]) >= Seconds(r[j])
    ensures multiset(r) <= multiset(f)
    ensures forall a | a in multiset(f) - multiset(r) :: forall i | 0 <= i < |r| :: Seconds(r[i]) >= Seconds(a)
  {
    var top := Take(Sort(f, Newer), 5);
    NewestFirst(f, top);
    top
  }

  /** `recentActivity` */
  function RecentActivity(d: League): seq<Activity> {
    LatestFive(Feed(d))
  }

  /** Every recent activity is an event of the list its tag names. */
  lemma RecentActivityFromLists(d: League)
    ensures forall i | 0 <= i < |RecentActivity(d)| ::
      RecentActivity(d)[i].event in Source(d, RecentActivity(d)[i].kind)
  {
    var r := RecentActivity(d);
    forall i | 0 <= i < |r| ensures r[i].event in Source(d, r[i].kind) {
      assert r[i] in multiset(r);
      assert r[i] in Feed(d);
      FeedHoldsAllEvents(d, r[i]);
    }
  }

  // ---------------------------------------------------------------------
  // Minutes

  /** `matches.reduce((s, m) => s + (Number(m.minutesPlayed) || 0), 0)` */
  function MinutesSum(ms: seq<Match>): int {
    if ms == [] then 0 else ms[0].minutesPlayed.GetOr(0) + MinutesSum(ms[1..])
  }

  /** Sums over consecutive pieces add up. */
  lemma {:induction false} MinutesSumAppend(a: seq<Match>, b: seq<Match>)
    ensures MinutesSum(a + b) == MinutesSum(a) + MinutesSum(b)
  {
    if a != [] {
      assert (a + b)[1..] == a[1..] + b;
      MinutesSumAppend(a[1..], b);
    } else {
      assert a + b == b;
    }
  }

  /**
   * The playtime card: the minutes of the played matches, which is the
   * total of all matches less that of the upcoming ones.
   */
  function TotalMinutes(d: League): (t: int)
    ensures t == MinutesSum(d.matches) - MinutesSum(WithStatus(d.matches, Upcoming))
    ensures (forall i | 0 <= i < |d.matches| :: d.matches[i].minutesPlayed.GetOr(0) >= 0) ==> t >= 0
  {
    var played := WithStatus(d.matches, Played);
    MinutesSplit(d.matches);
    if forall i | 0 <= i < |d.matches| :: d.matches[i].minutesPlayed.GetOr(0) >= 0 then
      assert forall i | 0 <= i < |played| :: played[i] in d.matches;
      MinutesNonNegative(played);
      MinutesSum(played)
    else
      MinutesSum(played)
  }

  /**
   * The minutes of all matches are those of the played ones plus those of
   * the upcoming ones, so the card leaves out exactly the upcoming matches.
   */
  lemma {:induction false} MinutesSplit(ms: seq<Match>)
    ensures MinutesSum(WithStatus(ms, Played)) + MinutesSum(WithStatus(ms, Upcoming)) == MinutesSum(ms)
  {
    if ms != [] {
      MinutesSplit(ms[1..]);
      if ms[0].status == Played {
        MinutesSumAppend([ms[0]], WithStatus(ms[1..], Played));
      } else {
        MinutesSumAppend([ms[0]], WithStatus(ms[1..], Upcoming));
      }
    }
  }

  /** When every match has a non-negative minute count or none, the total is at least 0. */
  lemma {:induction false} MinutesNonNegative(ms: seq<Match>)
    requires forall i | 0 <= i < |ms| :: ms[i].minutesPlayed.GetOr(0) >= 0
    ensures MinutesSum(ms) >= 0
  {
    if ms != [] {
      MinutesNonNegative(ms[1..]);
    }
  }
}
