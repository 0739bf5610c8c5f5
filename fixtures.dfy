/**
 * The fixture generator of the matches page: five weeks of Tuesday fixtures
 * by the circle method. Dates are day numbers whose weekday is `day % 7`
 * (0 = Sunday); the random index drawn at each step of the shuffle is a
 * parameter.
 */
module Fixtures {
  import opened Common
  import opened Domain

  // ---------------------------------------------------------------------
  // Tuesdays

  /** `(7 - d.getDay() + 2) % 7 || 7`: the days from `today` to the next Tuesday. */
  function TuesdayOffset(today: int): (k: int)
    ensures 1 <= k <= 7
    ensures (today + k) % 7 == 2
    ensures forall d | today < d < today + k :: d % 7 != 2
  {
    var o := (7 - today % 7 + 2) % 7;
    if o == 0 then 7 else o
  }

  /** `getNextTuesdays(count)`, with `today` for the current date. */
  function Tuesdays(today: int, count: int): (r: seq<int>)
    ensures |r| == if count < 0 then 0 else count
    ensures forall i | 0 <= i < |r| :: r[i] % 7 == 2
    ensures |r| > 0 ==> today < r[0] <= today + 7
    ensures |r| > 0 ==> forall j | today < j < r[0] :: j % 7 != 2
    ensures forall i | 0 < i < |r| :: r[i] == r[i - 1] + 7
  {
    var first := today + TuesdayOffset(today);
    var n := if count < 0 then 0 else count;
    var r := seq(n, i requires 0 <= i < n => first + 7 * i);
    assert forall i | 0 <= i < n :: r[i] % 7 == 2 by {
      forall i | 0 <= i < n ensures r[i] % 7 == 2 {
        WeeksLater(first, i);
      }
    }
    r
  }

  lemma WeeksLater(d: int, i: int)
    requires i >= 0
    ensures (d + 7 * i) % 7 == d % 7
  {
  }

  /** The loop of `getNextTuesdays`: step to the first Tuesday, then a week at a time. */
  method NextTuesdays(today: int, count: int) returns (dates: seq<int>)
    ensures dates == Tuesdays(today, count)
  {
    var d := today + ((7 - today % 7 + 2) % 7);
    if d == today {
      d := today + 7;
    }
    dates := [];
    var i := 0;
    while i < count
      invariant 0 <= i && (count >= 0 ==> i <= count) && (count < 0 ==> i == 0)
      invariant |dates| == i
      invariant d == today + TuesdayOffset(today) + 7 * i
      invariant forall k | 0 <= k < i :: dates[k] == today + TuesdayOffset(today) + 7 * k
    {
      dates := dates + [d];
      d := d + 7;
      i := i + 1;
    }
    assert |dates| == |Tuesdays(today, count)|;
  }

  // ---------------------------------------------------------------------
  // Shuffle

  /** At step `i` the draw lies in `[0, i]`, as `Math.floor(Math.random() * (i + 1))` does. */
  predicate ValidDraws(draws: seq<nat>, n: nat) {
    |draws| == n && forall i | 0 < i < n :: draws[i] <= i
  }

  function Swap<T>(s: seq<T>, i: nat, j: nat): (r: seq<T>)
    requires i < |s| && j < |s|
    ensures |r| == |s| && r[i] == s[j] && r[j] == s[i]
    ensures forall k | 0 <= k < |s| && k != i && k != j :: r[k] == s[k]
  {
    s[i := s[j]][j := s[i]]
  }

  lemma SwapMultiset<T>(s: seq<T>, i: nat, j: nat)
    requires i < |s| && j < |s|
    ensures multiset(s[i := s[j]][j := s[i]]) == multiset(s)
  {
    if i != j {
      var t := s[i := s[j]];
      assert multiset(t) == multiset(s) - multiset{s[i]} + multiset{s[j]};
      assert multiset(t[j := s[i]]) == multiset(t) - multiset{t[j]} + multiset{s[i]};
    }
  }

  /** The Fisher-Yates steps `i, i-1, ..., 1` applied to `s`. */
  function ShuffleDown<T>(s: seq<T>, draws: seq<nat>, i: int): (r: seq<T>)
    requires ValidDraws(draws, |s|) && i < |s|
    ensures |r| == |s|
    decreases i
  {
    if i <= 0 then s else ShuffleDown(Swap(s, i, draws[i]), draws, i - 1)
  }

  /** The result of `shuffle(s)` for the given draws. */
  function Shuffled<T>(s: seq<T>, draws: seq<nat>): (r: seq<T>)
    requires ValidDraws(draws, |s|)
    ensures |r| == |s|
  {
    ShuffleDown(s, draws, |s| - 1)
  }

  lemma {:induction false} ShuffleDownPermutes<T>(s: seq<T>, draws: seq<nat>, i: int)
    requires ValidDraws(draws, |s|) && i < |s|
    ensures multiset(ShuffleDown(s, draws, i)) == multiset(s)
    decreases i
  {
    if i > 0 {
      SwapMultiset(s, i, draws[i]);
      ShuffleDownPermutes(Swap(s, i, draws[i]), draws, i - 1);
    }
  }

  /** Whatever the draws, the shuffle is a permutation. */
  lemma ShuffledPermutes<T>(s: seq<T>, draws: seq<nat>)
    requires ValidDraws(draws, |s|)
    ensures multiset(Shuffled(s, draws)) == multiset(s)
  {
    ShuffleDownPermutes(s, draws, |s| - 1);
  }

  /** `shuffle(array)`: swaps in a copy; the argument is left as it was. */
  method Shuffle<T>(a: array<T>, draws: seq<nat>) returns (r: array<T>)
    requires ValidDraws(draws, a.Length)
    ensures fresh(r)
    ensures r[..] == Shuffled(a[..], draws)
  {
    r := new T[a.Length](k requires 0 <= k < a.Length reads a => a[k]);
    assert r[..] == a[..];
    SwapDown(r, draws);
  }

  /** The loop of `shuffle`: for `i` from the last index down to 1, swap `i` with its draw. */
  method SwapDown<T>(r: array<T>, draws: seq<nat>)
    requires ValidDraws(draws, r.Length)
    modifies r
    ensures r[..] == Shuffled(old(r[..]), draws)
  {
    ghost var s := r[..];
    var i := r.Length - 1;
    while i > 0
      invariant i < r.Length == |s|
      invariant ShuffleDown(r[..], draws, i) == Shuffled(s, draws)
      decreases i
    {
      ghost var before := r[..];
      var j := draws[i];
      var t := r[i];
      r[i] := r[j];
      r[j] := t;
      assert r[..] == Swap(before, i, j);
      assert ShuffleDown(before, draws, i) == ShuffleDown(r[..], draws, i - 1);
      i := i - 1;
    }
    assert r[..] == ShuffleDown(r[..], draws, i);
  }

  // ---------------------------------------------------------------------
  // The circle method

  const Bye := "bye"
  const Slots := ["8:00", "10:00", "12:00", "14:00"]

  /** The team list with a `bye` appended when the number of teams is odd. */
  function Padded(ids: seq<string>): (l: seq<string>)
    ensures |l| % 2 == 0
    ensures |ids| % 2 == 0 ==> l == ids
    ensures |ids| % 2 != 0 ==> l == ids + [Bye]
  {
    if |ids| % 2 != 0 then ids + [Bye] else ids
  }

  /** `teamList.splice(1, 0, teamList.pop())`: the last team moves to slot 1. */
  function Rotate<T>(l: seq<T>): (r: seq<T>)
    ensures |r| == |l|
    ensures |l| > 0 ==> r[0] == l[0]
  {
    var n := |l|;
    seq(n, i requires 0 <= i < n => if i == 0 then l[0] else if i == 1 then l[n - 1] else l[i - 1])
  }

  lemma RotatePermutes<T>(l: seq<T>)
    ensures multiset(Rotate(l)) == multiset(l)
  {
    if |l| >= 2 {
      var n := |l|;
      var first, middle, last := [l[0]], l[1..n - 1], [l[n - 1]];
      assert l == first + middle + last;
      assert Rotate(l) == first + last + middle;
    }
  }

  /** The list at the start of week `w`. */
  function RotateN<T>(l: seq<T>, w: nat): (r: seq<T>)
    ensures |r| == |l|
    ensures |l| > 0 ==> r[0] == l[0]
  {
    if w == 0 then l else Rotate(RotateN(l, w - 1))
  }

  /** Every week's list holds the same teams, and the first stays in place. */
  lemma {:induction false} RotateNPermutes<T>(l: seq<T>, w: nat)
    ensures multiset(RotateN(l, w)) == multiset(l)
  {
    if w > 0 {
      RotateNPermutes(l, w - 1);
      RotatePermutes(RotateN(l, w - 1));
    }
  }

  /** The in-place rotation of the team list. */
  method RotateInPlace(a: array<string>)
    modifies a
    ensures a[..] == Rotate(old(a[..]))
  {
    if a.Length < 2 {
      return;
    }
    ghost var s := a[..];
    var n := a.Length;
    var last := a[n - 1];
    var k := n - 1;
    while k > 1
      invariant 1 <= k <= n - 1
      invariant forall q | 0 <= q < k :: a[q] == s[q]
      invariant forall q | k < q < n :: a[q] == s[q - 1]
      decreases k
    {
      a[k] := a[k - 1];
      k := k - 1;
    }
    a[1] := last;
    assert forall q | 0 <= q < n :: a[q] == Rotate(s)[q];
  }

  /** Pair `i` of week `w`: team `i` against team `n-1-i`, home and away swapped in odd weeks. */
  function PairAt<T>(l: seq<T>, w: nat, i: nat): (p: (T, T))
    requires i < |l| / 2
  {
    var home, away := l[i], l[|l| - 1 - i];
    if w % 2 == 1 then (away, home) else (home, away)
  }

  /** A pairing that does not involve the bye. */
  predicate Kept<T(==)>(p: (T, T), bye: T) {
    p.0 != bye && p.1 != bye
  }

  /** The pairs of the first `i` slots of week `w` that do not involve the bye. */
  function Pairs<T(==)>(l: seq<T>, w: nat, i: nat, bye: T): (ps: seq<(T, T)>)
    requires i <= |l| / 2
    ensures |ps| <= i
    ensures forall k | 0 <= k < |ps| :: Kept(ps[k], bye)
  {
    if i == 0 then []
    else
      var p := PairAt(l, w, i - 1);
      Pairs(l, w, i - 1, bye) + (if Kept(p, bye) then [p] else [])
  }

  /** A generated fixture; `addMatch` later sets its id, points and creation time. */
  function Fixture(p: (string, string), w: nat, date: int, time: string): Match {
    Match("", w + 1, p.0, p.1, 0, 0, 0, 0, 0, 0, 0, 0, 0, 0,
          Some(90), "Seasonal League", None, time, Some(date), Upcoming)
  }

  /** The fixtures of `ps`, the `k`-th of them at `times[k % 4]`. */
  function MakeFixtures(ps: seq<(string, string)>, w: nat, date: int, times: seq<string>): (fs: seq<Match>)
    requires |times| == 4
    ensures |fs| == |ps|
    ensures forall k | 0 <= k < |fs| :: fs[k] == Fixture(ps[k], w, date, times[k % 4])
  {
    seq(|ps|, k requires 0 <= k < |ps| => Fixture(ps[k], w, date, times[k % 4]))
  }

  lemma MakeFixturesAppend(ps: seq<(string, string)>, p: (string, string), w: nat, date: int, times: seq<string>)
    requires |times| == 4
    ensures MakeFixtures(ps + [p], w, date, times)
      == MakeFixtures(ps, w, date, times) + [Fixture(p, w, date, times[|ps| % 4])]
  {
  }

  /** The fixtures of week `w`, from the list `l` of that week. */
  function Week(l: seq<string>, w: nat, date: int, times: seq<string>): seq<Match>
    requires |l| % 2 == 0 && |times| == 4
  {
    MakeFixtures(Pairs(l, w, |l| / 2, Bye), w, date, times)
  }

  /** The fixtures of weeks `0 .. w-1`. */
  function Schedule(l: seq<string>, w: nat, tuesdays: seq<int>, slots: seq<string>, draws: seq<seq<nat>>): seq<Match>
    requires |l| % 2 == 0 && w <= |tuesdays| && w <= |draws| && |slots| == 4
    requires forall v | 0 <= v < |draws| :: ValidDraws(draws[v], 4)
  {
    if w == 0 then []
    else
      Schedule(l, w - 1, tuesdays, slots, draws)
        + Week(RotateN(l, w - 1), w - 1, tuesdays[w - 1], Shuffled(slots, draws[w - 1]))
  }

  /** `generateFixtures(teams)` for the given date and shuffle draws. */
  function Generated(ids: seq<string>, today: int, draws: seq<seq<nat>>): seq<Match>
    requires |draws| == 5 && forall v | 0 <= v < 5 :: ValidDraws(draws[v], 4)
  {
    var dates := Tuesdays(today, 5);
    Schedule(Padded(ids), |dates|, dates, Slots, draws)
  }

  function TeamIds(teams: seq<Team>): (ids: seq<string>)
    ensures |ids| == |teams| && forall i | 0 <= i < |teams| :: ids[i] == teams[i].id
  {
    seq(|teams|, i requires 0 <= i < |teams| => teams[i].id)
  }

  /** `generateFixtures(teams)`: the loops of the source, proved to build `Generated`. */
  method GenerateFixtures(teams: seq<Team>, today: int, draws: seq<seq<nat>>) returns (fixtures: seq<Match>)
    requires |draws| == 5 && forall v | 0 <= v < 5 :: ValidDraws(draws[v], 4)
    ensures fixtures == Generated(TeamIds(teams), today, draws)
  {
    var padded := Padded(TeamIds(teams));
    var tuesdays := NextTuesdays(today, 5);
    fixtures := AllWeeks(padded, tuesdays, Slots, draws);
  }

  /** The state of the week loop before week `w`: the rotated list and the fixtures so far. */
  ghost predicate WeekState(padded: seq<string>, list: seq<string>, fixtures: seq<Match>, w: nat,
                            tuesdays: seq<int>, slots: seq<string>, draws: seq<seq<nat>>)
  {
    && |padded| % 2 == 0 && |slots| == 4 && w <= |tuesdays| <= |draws|
    && (forall v | 0 <= v < |draws| :: ValidDraws(draws[v], 4))
    && list == RotateN(padded, w)
    && fixtures == Schedule(padded, w, tuesdays, slots, draws)
  }

  /** The week loop of `generateFixtures`, over the padded team list. */
  method AllWeeks(padded: seq<string>, tuesdays: seq<int>, slots: seq<string>, draws: seq<seq<nat>>)
    returns (fixtures: seq<Match>)
    requires |tuesdays| <= |draws| && forall v | 0 <= v < |draws| :: ValidDraws(draws[v], 4)
    requires |padded| % 2 == 0 && |slots| == 4
    ensures fixtures == Schedule(padded, |tuesdays|, tuesdays, slots, draws)
  {
    var teamList := ToArray(padded);
    var timeSlots := ToArray(slots);
    fixtures := [];
    for weekIndex := 0 to |tuesdays|
      invariant timeSlots[..] == slots
      invariant WeekState(padded, teamList[..], fixtures, weekIndex, tuesdays, slots, draws)
    {
      fixtures := WeekStep(padded, teamList, timeSlots, tuesdays, slots, draws, fixtures, weekIndex);
    }
  }

  /** A fresh array holding `s`. */
  method ToArray(s: seq<string>) returns (a: array<string>)
    ensures fresh(a) && a[..] == s
  {
    a := new string[|s|](i requires 0 <= i < |s| => s[i]);
  }

  /** The body of the week loop: shuffle the slots, add the week's fixtures, rotate. */
  method WeekStep(padded: seq<string>, teamList: array<string>, timeSlots: array<string>,
                  tuesdays: seq<int>, slots: seq<string>, draws: seq<seq<nat>>, fixtures: seq<Match>, weekIndex: nat)
    returns (result: seq<Match>)
    requires WeekState(padded, teamList[..], fixtures, weekIndex, tuesdays, slots, draws)
    requires weekIndex < |tuesdays| && timeSlots[..] == slots && teamList != timeSlots
    modifies teamList
    ensures WeekState(padded, teamList[..], result, weekIndex + 1, tuesdays, slots, draws)
  {
    var shuffledTimes := Shuffle(timeSlots, draws[weekIndex]);
    assert shuffledTimes[..] == Shuffled(slots, draws[weekIndex]);
    result := AddWeek(fixtures, teamList, weekIndex, tuesdays[weekIndex], shuffledTimes);
    assert result == Schedule(padded, weekIndex + 1, tuesdays, slots, draws);
    RotateInPlace(teamList);
  }

  /** One iteration of the week loop: the fixtures of one week, appended in slot order. */
  method AddWeek(fixtures: seq<Match>, teamList: array<string>, weekIndex: nat, currentTuesday: int,
                 shuffledTimes: array<string>)
    returns (result: seq<Match>)
    requires teamList.Length % 2 == 0 && shuffledTimes.Length == 4
    ensures result == fixtures + Week(teamList[..], weekIndex, currentTuesday, shuffledTimes[..])
  {
    var numTeams := teamList.Length;
    var l := teamList[..];
    result := fixtures;
    var matchInWeekCounter := 0;
    for i := 0 to numTeams / 2
      invariant matchInWeekCounter == |Pairs(l, weekIndex, i, Bye)|
      invariant result == fixtures + MakeFixtures(Pairs(l, weekIndex, i, Bye), weekIndex, currentTuesday, shuffledTimes[..])
    {
      var home, away := teamList[i], teamList[numTeams - 1 - i];
      if weekIndex % 2 == 1 {
        home, away := away, home;
      }
      assert (home, away) == PairAt(l, weekIndex, i);
      if home != Bye && away != Bye {
        MakeFixturesAppend(Pairs(l, weekIndex, i, Bye), (home, away), weekIndex, currentTuesday, shuffledTimes[..]);
        result := result + [Fixture((home, away), weekIndex, currentTuesday, shuffledTimes[matchInWeekCounter % 4])];
        matchInWeekCounter := matchInWeekCounter + 1;
      }
    }
  }

  // ---------------------------------------------------------------------
  // Properties of the generated schedule

  /** The slots among the first `i` whose pairing does not involve the bye, in order. */
  function KeptSlots<T(==)>(l: seq<T>, w: nat, i: nat, bye: T): (ks: seq<nat>)
    requires i <= |l| / 2
    ensures |ks| == |Pairs(l, w, i, bye)|
  {
    if i == 0 then []
    else KeptSlots(l, w, i - 1, bye) + (if Kept(PairAt(l, w, i - 1), bye) then [i - 1] else [])
  }

  /**
   * The `k`-th kept pair is the circle pairing of the `k`-th kept slot, and the
   * kept slots rise strictly: the pairs are the circle pairings without the bye,
   * in slot order, home and away swapped in odd weeks.
   */
  lemma {:induction false} PairsAreCirclePairs<T>(l: seq<T>, w: nat, i: nat, bye: T)
    requires i <= |l| / 2
    ensures forall k | 0 <= k < |KeptSlots(l, w, i, bye)| ::
      KeptSlots(l, w, i, bye)[k] < i && Pairs(l, w, i, bye)[k] == PairAt(l, w, KeptSlots(l, w, i, bye)[k])
    ensures forall a, b | 0 <= a < b < |KeptSlots(l, w, i, bye)| :: KeptSlots(l, w, i, bye)[a] < KeptSlots(l, w, i, bye)[b]
  {
    if i > 0 {
      var j := i - 1;
      PairsAreCirclePairs(l, w, j, bye);
      var ps, ks, p := Pairs(l, w, j, bye), KeptSlots(l, w, j, bye), PairAt(l, w, j);
      if Kept(p, bye) {
        var ps', ks' := ps + [p], ks + [j];
        assert Pairs(l, w, i, bye) == ps';
        assert KeptSlots(l, w, i, bye) == ks';
      } else {
        assert Pairs(l, w, i, bye) == ps;
        assert KeptSlots(l, w, i, bye) == ks;
      }
    }
  }

  /** Every circle pairing without the bye is among the kept pairs. */
  lemma {:induction false} CirclePairsKept<T>(l: seq<T>, w: nat, i: nat, bye: T)
    requires i <= |l| / 2
    ensures forall s | 0 <= s < i && Kept(PairAt(l, w, s), bye) :: PairAt(l, w, s) in Pairs(l, w, i, bye)
  {
    if i > 0 {
      var j := i - 1;
      CirclePairsKept(l, w, j, bye);
      var ps, p := Pairs(l, w, j, bye), PairAt(l, w, j);
      var r := Pairs(l, w, i, bye);
      assert r == ps + (if Kept(p, bye) then [p] else []);
      forall s | 0 <= s < i && Kept(PairAt(l, w, s), bye) ensures PairAt(l, w, s) in r {
        if s < j {
          assert PairAt(l, w, s) in ps;
        } else {
          assert r[|r| - 1] == p;
        }
      }
    }
  }

  /** How often `x` is among the teams of the first `i` slots: the first `i` and the last `i` of `l`. */
  ghost function SlotCount<T>(l: seq<T>, i: nat, x: T): nat
    requires i <= |l| / 2
  {
    if i == 0 then 0
    else SlotCount(l, i - 1, x) + (if l[i - 1] == x then 1 else 0) + (if l[|l| - i] == x then 1 else 0)
  }

  lemma PrefixCount<T>(l: seq<T>, j: nat, x: T)
    requires j < |l|
    ensures multiset(l[..j + 1])[x] == multiset(l[..j])[x] + (if l[j] == x then 1 else 0)
  {
    assert l[..j + 1] == l[..j] + [l[j]];
  }

  lemma SuffixCount<T>(l: seq<T>, j: nat, x: T)
    requires j < |l|
    ensures multiset(l[j..])[x] == (if l[j] == x then 1 else 0) + multiset(l[j + 1..])[x]
  {
    assert l[j..] == [l[j]] + l[j + 1..];
  }

  lemma {:induction false} SlotCountEnds<T>(l: seq<T>, i: nat, x: T)
    requires i <= |l| / 2
    ensures SlotCount(l, i, x) == multiset(l[..i])[x] + multiset(l[|l| - i..])[x]
  {
    var n := |l|;
    if i == 0 {
      assert l[..0] == [] && l[n..] == [];
    } else {
      var j := i - 1;
      SlotCountEnds(l, j, x);
      PrefixCount(l, j, x);
      SuffixCount(l, n - i, x);
    }
  }

  /** The slots of a week hold every team of an even list once. */
  lemma SlotCountAll<T>(l: seq<T>, x: T)
    requires |l| % 2 == 0
    ensures SlotCount(l, |l| / 2, x) == multiset(l)[x]
  {
    SlotCountEnds(l, |l| / 2, x);
    assert l == l[..|l| / 2] + l[|l| - |l| / 2..];
  }

  /**
   * Only pairings with the bye are dropped: when the bye occurs at most once,
   * the first `i` slots keep `i` pairs less the byes among their teams.
   */
  lemma {:induction false} PairsCount<T>(l: seq<T>, w: nat, i: nat, bye: T)
    requires i <= |l| / 2 && SlotCount(l, i, bye) <= 1
    ensures |Pairs(l, w, i, bye)| == i - SlotCount(l, i, bye)
  {
    if i > 0 {
      var j := i - 1;
      PairsCount(l, w, j, bye);
      var p := PairAt(l, w, j);
      assert Pairs(l, w, i, bye) == Pairs(l, w, j, bye) + (if Kept(p, bye) then [p] else []);
      assert Kept(p, bye) <==> l[j] != bye && l[|l| - i] != bye;
    }
  }

  /** The number of kept pairs in a week: half the list, less one when it holds the bye. */
  lemma PairsCountAll<T>(l: seq<T>, w: nat, bye: T)
    requires |l| % 2 == 0 && multiset(l)[bye] <= 1
    ensures |Pairs(l, w, |l| / 2, bye)| == |l| / 2 - multiset(l)[bye]
  {
    SlotCountAll(l, bye);
    PairsCount(l, w, |l| / 2, bye);
  }

  /** The number of fixtures in a week: half the list, less one when it holds the bye. */
  lemma WeekCount(l: seq<string>, w: nat, date: int, times: seq<string>)
    requires |l| % 2 == 0 && |times| == 4 && multiset(l)[Bye] <= 1
    ensures |Week(l, w, date, times)| == |l| / 2 - multiset(l)[Bye]
  {
    PairsCountAll(l, w, Bye);
  }

  /** Rotating keeps the bye count, so every week holds as many fixtures. */
  lemma RotatedWeekCount(l: seq<string>, v: nat, date: int, times: seq<string>)
    requires |l| % 2 == 0 && |times| == 4 && multiset(l)[Bye] <= 1
    ensures |Week(RotateN(l, v), v, date, times)| == |l| / 2 - multiset(l)[Bye]
  {
    RotateNPermutes(l, v);
    WeekCount(RotateN(l, v), v, date, times);
  }

  /** A schedule of `w > 0` weeks is that of `w - 1` weeks followed by week `w - 1`. */
  lemma ScheduleStep(l: seq<string>, w: nat, tuesdays: seq<int>, slots: seq<string>, draws: seq<seq<nat>>)
    requires |l| % 2 == 0 && 0 < w <= |tuesdays| && w <= |draws| && |slots| == 4
    requires forall u | 0 <= u < |draws| :: ValidDraws(draws[u], 4)
    ensures |Schedule(l, w, tuesdays, slots, draws)| == |Schedule(l, w - 1, tuesdays, slots, draws)|
      + |Week(RotateN(l, w - 1), w - 1, tuesdays[w - 1], Shuffled(slots, draws[w - 1]))|
  {
  }

  /** `k` added up `w` times, kept apart from `w * k` so that the induction over weeks stays linear. */
  ghost function Repeated(w: nat, k: int): int {
    if w == 0 then 0 else Repeated(w - 1, k) + k
  }

  lemma {:induction false} RepeatedIsProduct(w: nat, k: int)
    ensures Repeated(w, k) == w * k
  {
    if w > 0 {
      RepeatedIsProduct(w - 1, k);
    }
  }

  /** Every week drops the same number `k` of pairings, so the schedule holds `k` per week. */
  lemma {:induction false} ScheduleWeeks(l: seq<string>, w: nat, tuesdays: seq<int>, slots: seq<string>,
                                         draws: seq<seq<nat>>, k: int)
    requires |l| % 2 == 0 && w <= |tuesdays| && w <= |draws| && |slots| == 4
    requires forall v | 0 <= v < |draws| :: ValidDraws(draws[v], 4)
    requires multiset(l)[Bye] <= 1 && k == |l| / 2 - multiset(l)[Bye]
    ensures |Schedule(l, w, tuesdays, slots, draws)| == Repeated(w, k)
  {
    if w > 0 {
      ScheduleWeeks(l, w - 1, tuesdays, slots, draws, k);
      ScheduleStep(l, w, tuesdays, slots, draws);
      RotatedWeekCount(l, w - 1, tuesdays[w - 1], Shuffled(slots, draws[w - 1]));
    }
  }

  /** `w` weeks of `|l| / 2` pairings less the one that meets the bye, if any. */
  lemma ScheduleCount(l: seq<string>, w: nat, tuesdays: seq<int>, slots: seq<string>, draws: seq<seq<nat>>)
    requires |l| % 2 == 0 && w <= |tuesdays| && w <= |draws| && |slots| == 4
    requires forall v | 0 <= v < |draws| :: ValidDraws(draws[v], 4)
    requires multiset(l)[Bye] <= 1
    ensures |Schedule(l, w, tuesdays, slots, draws)| == w * (|l| / 2 - multiset(l)[Bye])
  {
    var k := |l| / 2 - multiset(l)[Bye];
    ScheduleWeeks(l, w, tuesdays, slots, draws, k);
    RepeatedIsProduct(w, k);
  }

  /**
   * With no team called `bye`, five weeks of `|ids| / 2` fixtures: `5·n/2` for an
   * even number of teams `n`, `5·(n-1)/2` for an odd one.
   */
  lemma GeneratedCount(ids: seq<string>, today: int, draws: seq<seq<nat>>)
    requires |draws| == 5 && forall v | 0 <= v < 5 :: ValidDraws(draws[v], 4)
    requires Bye !in ids
    ensures |Generated(ids, today, draws)| == 5 * (|ids| / 2)
  {
    var l := Padded(ids);
    assert multiset(ids)[Bye] == 0;
    ScheduleCount(l, 5, Tuesdays(today, 5), Slots, draws);
  }

  /** Two different slots of a list without repeats share no team. */
  lemma SlotsDisjoint<T>(l: seq<T>, a: nat, b: nat)
    requires a < b < |l| / 2 && Distinct(l)
    ensures l[a] != l[b] && l[a] != l[|l| - 1 - b] && l[|l| - 1 - a] != l[b] && l[|l| - 1 - a] != l[|l| - 1 - b]
  {
  }

  /**
   * With distinct team ids in the list of the week, no fixture of the week
   * pits a team against itself and no team plays twice in the week.
   */
  lemma WeekTeamsDistinct(l: seq<string>, w: nat, date: int, times: seq<string>)
    requires |l| % 2 == 0 && |times| == 4 && Distinct(l)
    ensures var fs := Week(l, w, date, times);
      && (forall k | 0 <= k < |fs| :: fs[k].homeTeamId != fs[k].awayTeamId)
      && (forall a, b | 0 <= a < b < |fs| ::
            && fs[a].homeTeamId != fs[b].homeTeamId && fs[a].homeTeamId != fs[b].awayTeamId
            && fs[a].awayTeamId != fs[b].homeTeamId && fs[a].awayTeamId != fs[b].awayTeamId)
  {
    var n := |l|;
    var ps, ks := Pairs(l, w, n / 2, Bye), KeptSlots(l, w, n / 2, Bye);
    PairsAreCirclePairs(l, w, n / 2, Bye);
    var fs := Week(l, w, date, times);
    assert |fs| == |ps| == |ks|;
    assert forall k | 0 <= k < |fs| :: fs[k].homeTeamId == ps[k].0 && fs[k].awayTeamId == ps[k].1;
    forall k | 0 <= k < |fs| ensures fs[k].homeTeamId != fs[k].awayTeamId {
      assert ps[k] == PairAt(l, w, ks[k]);
      assert ks[k] < n - 1 - ks[k];
    }
    forall a, b | 0 <= a < b < |fs|
      ensures && fs[a].homeTeamId != fs[b].homeTeamId && fs[a].homeTeamId != fs[b].awayTeamId
              && fs[a].awayTeamId != fs[b].homeTeamId && fs[a].awayTeamId != fs[b].awayTeamId
    {
      assert ps[a] == PairAt(l, w, ks[a]) && ps[b] == PairAt(l, w, ks[b]);
      SlotsDisjoint(l, ks[a], ks[b]);
    }
  }

  /** Distinct team ids without a `bye` stay distinct in every week's rotated list. */
  lemma WeekListDistinct(ids: seq<string>, w: nat)
    requires Distinct(ids) && Bye !in ids
    ensures Distinct(RotateN(Padded(ids), w))
  {
    var l := Padded(ids);
    assert Distinct(l);
    RotateNPermutes(l, w);
    PermutationDistinct(l, RotateN(l, w));
  }

  /** What every generated fixture of the first `w` weeks holds. */
  ghost predicate FixtureShape(f: Match, w: nat, tuesdays: seq<int>, slots: seq<string>)
    requires w <= |tuesdays|
  {
    && f.status == Upcoming
    && f.homeScore == 0 && f.awayScore == 0 && f.homePoints == 0 && f.awayPoints == 0
    && f.homeAssists == 0 && f.awayAssists == 0 && f.homeYellows == 0 && f.awayYellows == 0
    && f.homeReds == 0 && f.awayReds == 0
    && f.minutesPlayed == Some(90)
    && 1 <= f.matchDay <= w
    && f.date == Some(tuesdays[f.matchDay - 1])
    && f.time in slots
    && f.homeTeamId != Bye && f.awayTeamId != Bye
  }

  /** Every fixture is upcoming with zero counters, 90 minutes, and the date and a slot of its week. */
  lemma {:induction false} ScheduleShape(l: seq<string>, w: nat, tuesdays: seq<int>, slots: seq<string>,
                                         draws: seq<seq<nat>>)
    requires |l| % 2 == 0 && w <= |tuesdays| && w <= |draws| && |slots| == 4
    requires forall v | 0 <= v < |draws| :: ValidDraws(draws[v], 4)
    ensures forall f | f in Schedule(l, w, tuesdays, slots, draws) :: FixtureShape(f, w, tuesdays, slots)
  {
    if w > 0 {
      ScheduleShape(l, w - 1, tuesdays, slots, draws);
      var times := Shuffled(slots, draws[w - 1]);
      ShuffledPermutes(slots, draws[w - 1]);
      var fs := Week(RotateN(l, w - 1), w - 1, tuesdays[w - 1], times);
      forall k | 0 <= k < |fs| ensures FixtureShape(fs[k], w, tuesdays, slots) {
        assert times[k % 4] in multiset(slots);
      }
    }
  }

  /**
   * Within a week the `k`-th fixture gets slot `k % 4` of the shuffled slots:
   * with four different slots, two fixtures of the week share a slot exactly
   * when their positions agree modulo 4, so the first four get different ones.
   */
  lemma WeekSlots(l: seq<string>, w: nat, date: int, times: seq<string>)
    requires |l| % 2 == 0 && |times| == 4 && Distinct(times)
    ensures var fs := Week(l, w, date, times);
      forall a, b | 0 <= a < |fs| && 0 <= b < |fs| :: fs[a].time == fs[b].time <==> a % 4 == b % 4
  {
    var fs := Week(l, w, date, times);
    forall a, b | 0 <= a < |fs| && 0 <= b < |fs|
      ensures fs[a].time == fs[b].time <==> a % 4 == b % 4
    {
      assert fs[a].time == times[a % 4] && fs[b].time == times[b % 4];
    }
  }
}
