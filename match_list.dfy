/**
 * The match list page: the status filter, the grouping of matches by match
 * day with the days in descending order, and the 12-hour clock rendering of
 * kick-off times.
 */
module MatchList {
  import opened Common
  import opened Text
  import opened Sorting
  import opened Domain

  // ---------------------------------------------------------------------
  // formatTime12h

  /** JavaScript's `a % b` for `b > 0`: the remainder of `|a|`, with the sign of `a`. */
  function JsRem(a: int, b: int): (r: int)
    requires b > 0
    ensures -b < r < b
    ensures a >= 0 ==> r == a % b
    ensures a < 0 ==> r == -((-a) % b)
  {
    if a >= 0 then a % b else -((-a) % b)
  }

  /**
   * `h % 12 || 12` for `h = parseInt(hours)`, with `None` for `NaN`: `NaN`,
   * `0` and `-0` are falsy and give 12.
   */
  function Hour12(h: Option<int>): (r: int)
    ensures r != 0 && -11 <= r <= 12
    ensures h.None? ==> r == 12
    ensures h.Some? && h.value >= 0 ==> 1 <= r <= 12 && r % 12 == h.value % 12
  {
    if h.None? || JsRem(h.value, 12) == 0 then 12 else JsRem(h.value, 12)
  }

  /** `${hours12}:${minutes} ${ampm}` for the hour `h` and the minute text `minutes`. */
  function Render12h(h: Option<int>, minutes: string): (r: string)
    ensures |r| >= 5
    ensures r[|r| - 3..] == " AM" || r[|r| - 3..] == " PM"
    ensures r[|r| - 3..] == " PM" <==> h.Some? && h.value >= 12
  {
    var ampm := if h.Some? && h.value >= 12 then "PM" else "AM";
    var r := ShowInt(Hour12(h)) + ":" + minutes + " " + ampm;
    assert r[|r| - 3..] == " " + ampm;
    assert " AM"[1] != " PM"[1];
    r
  }

  /**
   * `formatTime12h(timeStr)`: `""` for an empty string; otherwise the text
   * before the first `:` read by `parseInt` as the hour, the text after it
   * (up to a second `:`) as the minutes, `"undefined"` when there is no
   * `:`, and `PM` exactly when the hour is a number of at least 12.
   */
  function FormatTime12h(t: string): (r: string)
    ensures t == "" <==> r == ""
  {
    if t == "" then ""
    else
      var parts := Split(t, ':');
      Render12h(ParseInt(parts[0]), if |parts| >= 2 then parts[1] else "undefined")
  }

  /**
   * A clock time `h:m` with a non-negative hour: the hour becomes `h mod 12`
   * with 0 shown as 12, the minute text is kept, and the suffix is `AM`
   * exactly when `h < 12`.
   */
  lemma FormatClockTime(h: nat, m: string)
    requires ':' !in m
    ensures FormatTime12h(ShowInt(h) + ":" + m)
      == ShowInt(if h % 12 == 0 then 12 else h % 12) + ":" + m + " " + (if h < 12 then "AM" else "PM")
  {
    forall c | c in ShowInt(h) ensures c != ':' {
      ShowIntChars(h, c);
    }
    assert Join([ShowInt(h), m], ':') == ShowInt(h) + ":" + m;
    SplitJoin([ShowInt(h), m], ':');
    ParseShowInt(h);
  }

  /** An hour that `parseInt` cannot read renders as 12, in the morning. */
  lemma FormatUnreadableHour(hours: string, m: string)
    requires ParseInt(hours) == None
    requires ':' !in hours && ':' !in m
    ensures FormatTime12h(hours + ":" + m) == "12:" + m + " AM"
  {
    var t := hours + ":" + m;
    assert Join([hours, m], ':') == t;
    SplitJoin([hours, m], ':');
    assert Split(t, ':') == [hours, m];
    assert ShowInt(12) == "12";
  }

  /** A non-empty time without a colon renders as if its minute text were `undefined`. */
  lemma FormatWithoutColon(t: string)
    requires t != "" && ':' !in t
    ensures FormatTime12h(t) == FormatTime12h(t + ":undefined")
  {
    assert Join([t, "undefined"], ':') == t + ":undefined";
    SplitJoin([t, "undefined"], ':');
  }

  // ---------------------------------------------------------------------
  // The status filter

  /** The filter buttons: `all`, `played` or `upcoming`. */
  datatype StatusFilter = All | Only(status: Status)

  /** `filter === 'all' ? matches : matches.filter(m => m.status === filter)` */
  function FilterMatches(ms: seq<Match>, f: StatusFilter): (r: seq<Match>)
    ensures f == All ==> r == ms
    ensures forall i | 0 <= i < |r| :: r[i] in ms && (f == All || r[i].status == f.status)
    ensures forall i | 0 <= i < |ms| && (f == All || ms[i].status == f.status) :: ms[i] in r
  {
    match f
    case All => ms
    case Only(s) => WithStatus(ms, s)
  }

  // ---------------------------------------------------------------------
  // Grouping by match day

  /** The matches of day `d`, in list order (`matchDay` 0 stands for a missing day). */
  function OnDay(ms: seq<Match>, d: int): (r: seq<Match>)
    ensures |r| <= |ms|
    ensures forall i | 0 <= i < |r| :: r[i].matchDay == d && r[i] in ms
    ensures forall i | 0 <= i < |ms| && ms[i].matchDay == d :: ms[i] in r
  {
    if ms == [] then []
    else
      var init := ms[..|ms| - 1];
      assert forall i | 0 <= i < |init| :: init[i] == ms[i];
      OnDay(init, d) + (if ms[|ms| - 1].matchDay == d then [ms[|ms| - 1]] else [])
  }

  /** A day no match has collects no matches. */
  lemma OnDayAbsent(ms: seq<Match>, d: int)
    requires forall i | 0 <= i < |ms| :: ms[i].matchDay != d
    ensures OnDay(ms, d) == []
  {
  }

  /** Extending the list by one match extends the match's own day only. */
  lemma OnDayStep(ms: seq<Match>, i: nat, d: int)
    requires i < |ms|
    ensures OnDay(ms[..i + 1], d) == OnDay(ms[..i], d) + (if ms[i].matchDay == d then [ms[i]] else [])
  {
    var prefix := ms[..i + 1];
    assert prefix[..|prefix| - 1] == ms[..i];
  }

  /** The days met among the first `i` matches are the keys of `groups`. */
  ghost predicate DaysUpTo(ms: seq<Match>, i: nat, groups: map<int, seq<Match>>)
    requires i <= |ms|
  {
    forall d :: d in groups <==> exists j | 0 <= j < i :: ms[j].matchDay == d
  }

  /** Each day met among the first `i` matches holds its matches in list order. */
  ghost predicate GroupsUpTo(ms: seq<Match>, i: nat, groups: map<int, seq<Match>>)
    requires i <= |ms|
  {
    forall d | d in groups :: groups[d] == OnDay(ms[..i], d)
  }

  /** `keys` lists the days of `groups`, each once. */
  ghost predicate KeysOf(keys: seq<int>, groups: map<int, seq<Match>>) {
    Distinct(keys) && forall d :: d in keys <==> d in groups
  }

  /** The match pushed onto `groups`, under its day. */
  function Pushed(groups: map<int, seq<Match>>, m: Match): (r: map<int, seq<Match>>)
    ensures r.Keys == groups.Keys + {m.matchDay}
    ensures forall d | d in groups && d != m.matchDay :: r[d] == groups[d]
    ensures r[m.matchDay] == (if m.matchDay in groups then groups[m.matchDay] else []) + [m]
  {
    groups[m.matchDay := (if m.matchDay in groups then groups[m.matchDay] else []) + [m]]
  }

  lemma DaysStep(ms: seq<Match>, i: nat, groups: map<int, seq<Match>>)
    requires i < |ms| && DaysUpTo(ms, i, groups)
    ensures DaysUpTo(ms, i + 1, Pushed(groups, ms[i]))
  {
  }

  lemma GroupsStep(ms: seq<Match>, i: nat, groups: map<int, seq<Match>>)
    requires i < |ms| && DaysUpTo(ms, i, groups) && GroupsUpTo(ms, i, groups)
    ensures GroupsUpTo(ms, i + 1, Pushed(groups, ms[i]))
  {
    var day := ms[i].matchDay;
    if day !in groups {
      OnDayAbsent(ms[..i], day);
    }
    forall d | d in Pushed(groups, ms[i]) ensures Pushed(groups, ms[i])[d] == OnDay(ms[..i + 1], d) {
      OnDayStep(ms, i, d);
    }
  }

  /**
   * The `reduce` that builds `groupedMatches`: every match is pushed onto
   * the list of its day, created empty the first time the day is met.
   * `keys` lists the days in the order they were first met.
   */
  method GroupByDay(ms: seq<Match>) returns (groups: map<int, seq<Match>>, keys: seq<int>)
    ensures forall d :: d in groups <==> exists i | 0 <= i < |ms| :: ms[i].matchDay == d
    ensures forall d | d in groups :: groups[d] == OnDay(ms, d)
    ensures Distinct(keys) && forall d :: d in keys <==> d in groups
  {
    groups := map[];
    keys := [];
    for i := 0 to |ms|
      invariant DaysUpTo(ms, i, groups) && GroupsUpTo(ms, i, groups) && KeysOf(keys, groups)
    {
      DaysStep(ms, i, groups);
      GroupsStep(ms, i, groups);
      var day := ms[i].matchDay;
      if day !in groups {
        keys := keys + [day];
      }
      groups := Pushed(groups, ms[i]);
    }
    assert ms[..|ms|] == ms;
  }

  /** Later days first: the comparator `(a, b) => Number(b) - Number(a)`. */
  predicate Later(a: int, b: int) {
    a >= b
  }

  lemma LaterIsTotalPreorder()
    ensures TotalPreorder(Later)
  {
  }

  /**
   * `Object.keys(groupedMatches).sort((a, b) => Number(b) - Number(a))`,
   * given the keys in any order the object lists them: the days, each once,
   * latest first.
   */
  function MatchDays(keys: seq<int>): (r: seq<int>)
    requires Distinct(keys)
    ensures multiset(r) == multiset(keys)
    ensures forall i, j | 0 <= i < j < |r| :: r[i] > r[j]
  {
    var r := Sort(keys, Later);
    LaterIsTotalPreorder();
    SortSorted(keys, Later);
    PermutationDistinct(keys, r);
    assert forall i, j | 0 <= i < j < |r| :: r[i] >= r[j] && r[i] != r[j];
    r
  }

  /** Two strictly decreasing sequences with the same elements are equal. */
  lemma {:induction false} DecreasingUnique(r: seq<int>, s: seq<int>)
    requires forall i, j | 0 <= i < j < |r| :: r[i] > r[j]
    requires forall i, j | 0 <= i < j < |s| :: s[i] > s[j]
    requires forall x :: x in r <==> x in s
    ensures r == s
  {
    if r != [] && s != [] {
      assert r[0] in r && s[0] in s;
      assert r[0] == s[0];
      forall x | x in r[1..] ensures x in s[1..] {
        DecreasingTail(r, s, x);
      }
      forall x | x in s[1..] ensures x in r[1..] {
        DecreasingTail(s, r, x);
      }
      DecreasingUnique(r[1..], s[1..]);
    } else {
      SameElementsEmpty(r, s);
    }
  }

  lemma SameElementsEmpty(r: seq<int>, s: seq<int>)
    requires forall x :: x in r <==> x in s
    ensures r == [] <==> s == []
  {
    if r != [] {
      var x := r[0];
      assert x in r;
    }
    if s != [] {
      var x := s[0];
      assert x in s;
    }
  }

  lemma DecreasingTail(r: seq<int>, s: seq<int>, x: int)
    requires r != [] && s != [] && r[0] == s[0]
    requires forall i, j | 0 <= i < j < |r| :: r[i] > r[j]
    requires forall x :: x in r <==> x in s
    requires x in r[1..]
    ensures x in s[1..]
  {
    var k :| 0 <= k < |r| - 1 && r[1..][k] == x;
    assert r[k + 1] == x && x in r;
    var j :| 0 <= j < |s| && s[j] == x;
    assert j != 0;
    assert s[1..][j - 1] == x;
  }

  /** The order in which the object lists its keys does not change the match days. */
  lemma MatchDaysIgnoreKeyOrder(a: seq<int>, b: seq<int>)
    requires Distinct(a) && Distinct(b)
    requires forall d :: d in a <==> d in b
    ensures MatchDays(a) == MatchDays(b)
  {
    var ra, rb := MatchDays(a), MatchDays(b);
    forall x ensures x in ra <==> x in rb {
      assert x in ra <==> x in multiset(ra);
      assert x in rb <==> x in multiset(rb);
      assert x in a <==> x in multiset(a);
      assert x in b <==> x in multiset(b);
    }
    DecreasingUnique(ra, rb);
  }
}
