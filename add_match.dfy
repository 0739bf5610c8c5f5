/**
 * The add match dialog: the blank form it starts from and returns to, the
 * team check before step 2, and `handleFinalSubmit`, which adds the match
 * and records the picked players of a played match.
 */
module AddMatch {
  import opened Common
  import opened Domain
  import opened LeagueStore
  import opened MatchForms

  const SelectTeams := "Select teams first"
  const TeamsMustDiffer := "Teams must be different"

  /**
   * The form the dialog starts from and `resetForm` restores, `today` being
   * the date of that moment. The form has no id, creation time or points:
   * `addMatch` fills those in.
   */
  function BlankForm(today: int): (f: Match)
    ensures f.homeTeamId == "" && f.awayTeamId == ""
    ensures f.homeScore == 0 && f.awayScore == 0 && f.homeAssists == 0 && f.awayAssists == 0
    ensures f.homeYellows == 0 && f.awayYellows == 0 && f.homeReds == 0 && f.awayReds == 0
    ensures f.minutesPlayed == Some(90) && f.matchDay == 1 && f.time == "19:00"
    ensures f.date == Some(today) && f.league == "Seasonal League" && f.status == Played
  {
    Match("", 1, "", "", 0, 0, 0, 0, 0, 0, 0, 0, 0, 0, Some(90), "Seasonal League", None, "19:00", Some(today), Played)
  }

  /** `submissionData`: the form, with both scores 0 when the match is upcoming. */
  function Submission(form: Match): (s: Match)
    ensures s.status == form.status
    ensures form.status == Upcoming ==> s.homeScore == 0 && s.awayScore == 0
    ensures form.status == Played ==> s == form
    ensures s == form.(homeScore := s.homeScore, awayScore := s.awayScore)
  {
    if form.status == Upcoming then form.(homeScore := 0, awayScore := 0) else form
  }

  /** Whether `handleFinalSubmit` records events: the add returned a non-empty id and the match was played. */
  predicate RecordsEvents(result: Option<(string, int)>, form: Match) {
    result.Some? && result.value.0 != "" && form.status == Played
  }

  /** The collections after a `handleFinalSubmit` that passed the team check. */
  function AddedLeague(d: League, form: Match, lists: PlayerLists, newId: string, now: int, written: bool): (r: League)
    ensures !written ==> r == d
    ensures written ==> r.matches == d.matches + [NewMatch(d.matches, Submission(form), newId, now)]
    ensures r.teams == d.teams && r.players == d.players
    ensures d.goals <= r.goals && d.assists <= r.assists && d.yellowCards <= r.yellowCards && d.redCards <= r.redCards
    ensures forall i | |d.goals| <= i < |r.goals| :: r.goals[i].matchId == newId && r.goals[i].playerId in Chosen(lists.goals)
    ensures forall i | |d.assists| <= i < |r.assists| :: r.assists[i].matchId == newId && r.assists[i].playerId in Chosen(lists.assists)
    ensures forall i | |d.yellowCards| <= i < |r.yellowCards| ::
      r.yellowCards[i].matchId == newId && r.yellowCards[i].playerId in Chosen(lists.yellows)
    ensures forall i | |d.redCards| <= i < |r.redCards| :: r.redCards[i].matchId == newId && r.redCards[i].playerId in Chosen(lists.reds)
    ensures newId == "" || form.status != Played ==>
      r.goals == d.goals && r.assists == d.assists && r.yellowCards == d.yellowCards && r.redCards == d.redCards
    ensures written && newId != "" && form.status == Played ==>
      && |r.goals| == |d.goals| + |Chosen(lists.goals)| && |r.assists| == |d.assists| + |Chosen(lists.assists)|
      && |r.yellowCards| == |d.yellowCards| + |Chosen(lists.yellows)| && |r.redCards| == |d.redCards| + |Chosen(lists.reds)|
  {
    var m := NewMatch(d.matches, Submission(form), newId, now);
    if !written then d
    else if newId != "" && form.status == Played then
      var b := AddBatch(d.players, lists);
      d.(matches := d.matches + [m],
         goals := d.goals + Stamped(b.goals, newId, m.matchDay, now),
         assists := d.assists + Stamped(b.assists, newId, m.matchDay, now),
         yellowCards := d.yellowCards + Stamped(b.yellows, newId, m.matchDay, now),
         redCards := d.redCards + Stamped(b.reds, newId, m.matchDay, now))
    else d.(matches := d.matches + [m])
  }

  /**
   * An added upcoming match is stored 0-0 with no points and gets no events;
   * an added played match keeps its scores and gets the points of its result.
   */
  lemma AddedMatchPoints(d: League, form: Match, lists: PlayerLists, newId: string, now: int)
    ensures var e := AddedLeague(d, form, lists, newId, now, true);
      && |e.matches| == |d.matches| + 1
      && e.matches[..|d.matches|] == d.matches
      && var m := e.matches[|d.matches|];
      && m.id == newId && m.status == form.status
      && (form.status == Upcoming ==> m.homeScore == 0 && m.awayScore == 0 && m.homePoints == 0 && m.awayPoints == 0)
      && (form.status == Played ==> m.homeScore == form.homeScore && m.awayScore == form.awayScore)
      && (form.status == Played ==> (m.homePoints, m.awayPoints) == ResultPoints(form.homeScore, form.awayScore))
    ensures form.status == Upcoming ==>
      var e := AddedLeague(d, form, lists, newId, now, true);
      e.goals == d.goals && e.assists == d.assists && e.yellowCards == d.yellowCards && e.redCards == d.redCards
  {
    var e := AddedLeague(d, form, lists, newId, now, true);
    assert e.matches[..|d.matches|] == d.matches;
  }

  /**
   * A played match added under a fresh id gets, for each kind, one event per
   * set, non-empty slot of its list, uncut, with the picked player's id and
   * team.
   */
  lemma AddedEvents(d: League, form: Match, lists: PlayerLists, newId: string, now: int)
    requires newId != "" && form.status == Played
    requires forall i | 0 <= i < |d.goals| :: d.goals[i].matchId != newId
    requires forall i | 0 <= i < |d.assists| :: d.assists[i].matchId != newId
    requires forall i | 0 <= i < |d.yellowCards| :: d.yellowCards[i].matchId != newId
    requires forall i | 0 <= i < |d.redCards| :: d.redCards[i].matchId != newId
    ensures var e := AddedLeague(d, form, lists, newId, now, true);
      && FreshEvents(EventsIn(e.goals, newId), d.players, lists.goals)
      && FreshEvents(EventsIn(e.assists, newId), d.players, lists.assists)
      && FreshEvents(EventsIn(e.yellowCards, newId), d.players, lists.yellows)
      && FreshEvents(EventsIn(e.redCards, newId), d.players, lists.reds)
  {
    var day := NewMatch(d.matches, Submission(form), newId, now).matchDay;
    AddedKind(d.goals, d.players, lists.goals, newId, day, now);
    AddedKind(d.assists, d.players, lists.assists, newId, day, now);
    AddedKind(d.yellowCards, d.players, lists.yellows, newId, day, now);
    AddedKind(d.redCards, d.players, lists.reds, newId, day, now);
  }

  /** `es` are one event per set, non-empty slot of `list`, with the picked player and that player's team. */
  predicate FreshEvents(es: seq<PlayerEvent>, players: seq<Player>, list: Slots) {
    PlayerIds(es) == Chosen(list)
    && forall i | 0 <= i < |es| :: es[i].teamId == TeamOfPlayer(players, Chosen(list)[i])
  }

  /** Recording one list's entries under a match id no old event has. */
  lemma AddedKind(events: seq<PlayerEvent>, players: seq<Player>, list: Slots, newId: string, day: int, now: int)
    requires forall i | 0 <= i < |events| :: events[i].matchId != newId
    ensures FreshEvents(EventsIn(events + Stamped(Recorded(players, list), newId, day, now), newId), players, list)
  {
    var s := Stamped(Recorded(players, list), newId, day, now);
    RecordedEventsOfMatch(events, Recorded(players, list), newId, day, now);
    NoneOfMatch(events, newId);
    assert EventsIn(events + s, newId) == s;
    assert PlayerIds(s) == Chosen(list);
  }

  /** The add dialog: its form, its lists and its step. */
  class AddMatchDialog {
    const picks: PlayerPicks
    var form: Match
    var step: int

    /** The dialog as first shown: the blank form, no players, step 1. */
    constructor (today: int)
      ensures form == BlankForm(today) && step == 1
      ensures fresh(picks) && picks.lists == NoPlayers
    {
      form := BlankForm(today);
      step := 1;
      picks := new PlayerPicks();
    }

    /** `resetForm()`: step 1, the blank form and empty lists. */
    method ResetForm(today: int)
      modifies this, picks
      ensures form == BlankForm(today) && step == 1 && picks.lists == NoPlayers
    {
      step := 1;
      form := BlankForm(today);
      picks.lists := NoPlayers;
    }

    /**
     * `handleNextStep()`: step 2 is reached exactly when both teams are
     * chosen and differ; otherwise an alert names the first problem.
     */
    method HandleNextStep() returns (alert: Option<string>)
      modifies this
      ensures form == old(form)
      ensures alert.None? <==> form.homeTeamId != "" && form.awayTeamId != "" && form.homeTeamId != form.awayTeamId
      ensures alert.None? ==> step == 2
      ensures alert.Some? ==> step == old(step)
      ensures alert.Some? && (form.homeTeamId == "" || form.awayTeamId == "") ==> alert.value == SelectTeams
      ensures alert.Some? && form.homeTeamId != "" && form.awayTeamId != "" ==> alert.value == TeamsMustDiffer
    {
      if form.homeTeamId == "" || form.awayTeamId == "" {
        return Some(SelectTeams);
      }
      if form.homeTeamId == form.awayTeamId {
        return Some(TeamsMustDiffer);
      }
      step := 2;
      alert := None;
    }

    /**
     * `handleFinalSubmit()`: a form whose teams are equal is refused before
     * any write. Otherwise the submission is added (`newId`, `now` and
     * `written` stand for the new document's id, the server time and whether
     * the write went through), the uncut lists are recorded when the add
     * returned an id and the match was played, and the form is reset
     * whatever the outcome.
     */
    method HandleFinalSubmit(store: Store, newId: string, now: int, written: bool, today: int)
      returns (alert: Option<string>)
      modifies this, picks, store
      ensures alert.Some? <==> old(form).homeTeamId == old(form).awayTeamId
      ensures alert.Some? ==>
        && alert.value == SameTeam && store.Data() == old(store.Data())
        && form == old(form) && step == old(step) && picks.lists == old(picks.lists)
      ensures alert.None? ==>
        && store.Data() == AddedLeague(old(store.Data()), old(form), old(picks.lists), newId, now, written)
        && form == BlankForm(today) && step == 1 && picks.lists == NoPlayers
    {
      if form.homeTeamId == form.awayTeamId {
        return Some(SameTeam);
      }
      var result := store.AddMatch(Submission(form), newId, now, written);
      if RecordsEvents(result, form) {
        store.RecordMatchStats(result.value.0, result.value.1, AddBatch(store.players, picks.lists), now);
      }
      ResetForm(today);
      alert := None;
    }
  }
}
