/**
 * The edit match dialog: its state loaded from a stored match and that
 * match's events, and `handleUpdate`, which checks the teams, sends the form
 * to `updateMatch`, clears the match's events and records the picked
 * players again when the match was played.
 */
module EditMatch {
  import opened Common
  import opened Domain
  import opened LeagueStore
  import opened MatchForms

  /** Player ids as form slots, every one of them set. */
  function AsSlots(ids: seq<string>): (r: Slots)
    ensures |r| == |ids|
    ensures forall i | 0 <= i < |r| :: r[i] == Some(ids[i])
  {
    MapSeq(ids, (id: string) => Some(id))
  }

  /** Reading back the slots of non-empty ids gives the ids. */
  lemma {:induction false} ChosenAsSlots(ids: seq<string>)
    requires forall i | 0 <= i < |ids| :: ids[i] != ""
    ensures Chosen(AsSlots(ids)) == ids
  {
    if ids != [] {
      var rest := AsSlots(ids[1..]);
      ChosenAsSlots(ids[1..]);
      assert AsSlots(ids) == [Some(ids[0])] + rest;
      ChosenCons(Some(ids[0]), rest);
    }
  }

  /**
   * The lists the dialog opens with: for each kind, the players of the
   * stored events of match `mid`, in stored order.
   */
  function StoredLists(d: League, mid: string): (r: PlayerLists)
    ensures r.goals == AsSlots(PlayerIds(EventsIn(d.goals, mid)))
    ensures r.assists == AsSlots(PlayerIds(EventsIn(d.assists, mid)))
    ensures r.yellows == AsSlots(PlayerIds(EventsIn(d.yellowCards, mid)))
    ensures r.reds == AsSlots(PlayerIds(EventsIn(d.redCards, mid)))
  {
    PlayerLists(AsSlots(PlayerIds(EventsIn(d.goals, mid))), AsSlots(PlayerIds(EventsIn(d.assists, mid))),
                AsSlots(PlayerIds(EventsIn(d.yellowCards, mid))), AsSlots(PlayerIds(EventsIn(d.redCards, mid))))
  }

  /**
   * `finalMatchData`: the form with the given points, and with both scores
   * 0 when the match is upcoming. Every field is sent.
   */
  function FinalPatch(form: Match, points: (int, int)): (u: MatchPatch)
    ensures u.status == Some(form.status)
    ensures u.homeScore == Some(if form.status == Upcoming then 0 else form.homeScore)
    ensures u.awayScore == Some(if form.status == Upcoming then 0 else form.awayScore)
    ensures u.homePoints == Some(points.0) && u.awayPoints == Some(points.1)
  {
    MatchPatch(
      Some(form.matchDay), Some(form.homeTeamId), Some(form.awayTeamId),
      Some(if form.status == Upcoming then 0 else form.homeScore),
      Some(if form.status == Upcoming then 0 else form.awayScore),
      Some(form.homeAssists), Some(form.awayAssists), Some(form.homeYellows), Some(form.awayYellows),
      Some(form.homeReds), Some(form.awayReds), Some(points.0), Some(points.1),
      Some(form.minutesPlayed), Some(form.league), Some(form.time), Some(form.date), Some(form.status))
  }

  /** The batch `handleUpdate` records: the cut lists for a played match, nothing otherwise. */
  function EditRecorded(players: seq<Player>, lists: PlayerLists, form: Match): EventBatch {
    if form.status == Played then EditBatch(players, lists, form) else EventBatch([], [], [], [])
  }

  /** The collections after a `handleUpdate` that passed the team check. */
  function EditedLeague(d: League, matchId: string, form: Match, lists: PlayerLists, now: int): League {
    var u := FinalPatch(form, AddedPoints(form.status, form.homeScore, form.awayScore));
    var b := EditRecorded(d.players, lists, form);
    d.(matches := Patched(d.matches, matchId, u),
       goals := WithoutMatch(d.goals, matchId) + Stamped(b.goals, matchId, form.matchDay, now),
       assists := WithoutMatch(d.assists, matchId) + Stamped(b.assists, matchId, form.matchDay, now),
       yellowCards := WithoutMatch(d.yellowCards, matchId) + Stamped(b.yellows, matchId, form.matchDay, now),
       redCards := WithoutMatch(d.redCards, matchId) + Stamped(b.reds, matchId, form.matchDay, now))
  }

  /**
   * The edited match takes the form's status and its scores, 0-0 when
   * upcoming; its points follow those scores, since `updateMatch` recomputes
   * them whenever scores are sent. So an upcoming match is stored with a
   * draw's points, although the dialog itself computed 0/0. No other match
   * changes.
   */
  lemma EditedMatch(d: League, matchId: string, form: Match, lists: PlayerLists, now: int, k: nat)
    requires k < |d.matches| && d.matches[k].id == matchId
    requires forall i | 0 <= i < k :: d.matches[i].id != matchId
    ensures var e := EditedLeague(d, matchId, form, lists, now).matches;
      && |e| == |d.matches|
      && e[k].id == matchId && e[k].status == form.status
      && e[k].homeScore == (if form.status == Upcoming then 0 else form.homeScore)
      && e[k].awayScore == (if form.status == Upcoming then 0 else form.awayScore)
      && (e[k].homePoints, e[k].awayPoints) == ResultPoints(e[k].homeScore, e[k].awayScore)
      && (form.status == Upcoming ==> e[k].homePoints == 1 && e[k].awayPoints == 1)
      && forall i | 0 <= i < |e| && i != k :: e[i] == d.matches[i]
  {
  }

  /**
   * After an update the match has exactly the picked events of its cut lists
   * when played and none when upcoming, and every other match keeps its
   * events, for all four kinds.
   */
  lemma EditedEvents(d: League, matchId: string, form: Match, lists: PlayerLists, now: int)
    ensures var e, b := EditedLeague(d, matchId, form, lists, now), EditRecorded(d.players, lists, form);
      && EventsIn(e.goals, matchId) == Stamped(b.goals, matchId, form.matchDay, now)
      && EventsIn(e.assists, matchId) == Stamped(b.assists, matchId, form.matchDay, now)
      && EventsIn(e.yellowCards, matchId) == Stamped(b.yellows, matchId, form.matchDay, now)
      && EventsIn(e.redCards, matchId) == Stamped(b.reds, matchId, form.matchDay, now)
    ensures var e := EditedLeague(d, matchId, form, lists, now);
      forall other | other != matchId ::
        && EventsIn(e.goals, other) == EventsIn(d.goals, other)
        && EventsIn(e.assists, other) == EventsIn(d.assists, other)
        && EventsIn(e.yellowCards, other) == EventsIn(d.yellowCards, other)
        && EventsIn(e.redCards, other) == EventsIn(d.redCards, other)
    ensures form.status == Upcoming ==>
      var e := EditedLeague(d, matchId, form, lists, now);
      EventsIn(e.goals, matchId) == [] && EventsIn(e.assists, matchId) == []
      && EventsIn(e.yellowCards, matchId) == [] && EventsIn(e.redCards, matchId) == []
  {
    var b := EditRecorded(d.players, lists, form);
    ReplaceEvents(d.goals, b.goals, matchId, form.matchDay, now);
    ReplaceEvents(d.assists, b.assists, matchId, form.matchDay, now);
    ReplaceEvents(d.yellowCards, b.yellows, matchId, form.matchDay, now);
    ReplaceEvents(d.redCards, b.reds, matchId, form.matchDay, now);
  }

  /**
   * Saving a played match without touching the lists it opened with records
   * again the players of its stored events, as far as the form's counts reach:
   * here `ids` are the stored players of one kind and `total` its count.
   */
  lemma ResaveKeepsStoredPlayers(players: seq<Player>, ids: seq<string>, total: int)
    requires forall i | 0 <= i < |ids| :: ids[i] != ""
    ensures |CutRecorded(players, AsSlots(ids), total)| <= |ids|
    ensures forall i | 0 <= i < |CutRecorded(players, AsSlots(ids), total)| ::
      CutRecorded(players, AsSlots(ids), total)[i] == EntryOf(players, ids[i])
  {
    ChosenAsSlots(ids);
    CutIsPrefix(players, AsSlots(ids), total);
  }

  /** The edit dialog: the match it was opened on, its form, its lists and its step. */
  class EditMatchDialog {
    const picks: PlayerPicks
    var matchId: string
    var form: Match
    var step: int

    /** `useState({ ...match })`, empty lists, step 1. */
    constructor (m: Match)
      ensures matchId == m.id && form == m && step == 1
      ensures fresh(picks) && picks.lists == NoPlayers
    {
      matchId := m.id;
      form := m;
      step := 1;
      picks := new PlayerPicks();
    }

    /**
     * The effect run when the dialog opens on `m`: the form is the match with
     * its date, or `today` when it has none; the lists are the players of the
     * match's stored events; the dialog is back at step 1.
     */
    method Open(m: Match, d: League, today: int)
      modifies this, picks
      ensures matchId == m.id && step == 1
      ensures form == m.(date := Some(m.date.GetOr(today)))
      ensures picks.lists == StoredLists(d, m.id)
    {
      var date := today;
      if m.date.Some? {
        date := m.date.value;
      }
      matchId := m.id;
      form := m.(date := Some(date));
      picks.lists := StoredLists(d, m.id);
      step := 1;
    }

    /**
     * `handleUpdate`: a form whose teams are equal is refused before any
     * write. Otherwise the points are worked out (3/0, 0/3 or 1/1 for a
     * played match, 0/0 for an upcoming one) and sent with the form; the
     * match's events are cleared whatever the outcome of the update, and the
     * cut lists are recorded when the match was played. `sent` is what went
     * to `updateMatch`.
     */
    method HandleUpdate(store: Store, now: int) returns (error: Option<string>, sent: Option<MatchPatch>)
      modifies store
      ensures error.Some? <==> form.homeTeamId == form.awayTeamId
      ensures error.Some? ==> error.value == SameTeam && sent.None? && store.Data() == old(store.Data())
      ensures error.None? ==>
        && sent == Some(FinalPatch(form, AddedPoints(form.status, form.homeScore, form.awayScore)))
        && store.Data() == EditedLeague(old(store.Data()), matchId, form, picks.lists, now)
    {
      if form.homeTeamId == form.awayTeamId {
        return Some(SameTeam), None;
      }
      var homePoints, awayPoints := 0, 0;
      if form.status == Played {
        if form.homeScore > form.awayScore {
          homePoints := 3;
        } else if form.homeScore < form.awayScore {
          awayPoints := 3;
        } else {
          homePoints, awayPoints := 1, 1;
        }
      }
      ghost var d := store.Data();
      var u := FinalPatch(form, (homePoints, awayPoints));
      assert u == FinalPatch(form, AddedPoints(form.status, form.homeScore, form.awayScore));
      // a failed update is only reported by a toast: the dialog carries on
      var updated := store.UpdateMatch(matchId, u);
      ghost var e := EditedLeague(d, matchId, form, picks.lists, now);
      assert store.matches == e.matches;
      store.DeleteMatchEvents(matchId);
      ghost var cleared := store.Data();
      if form.status == Played {
        store.RecordMatchStats(matchId, form.matchDay, EditBatch(store.players, picks.lists, form), now);
        assert store.goals == e.goals && store.assists == e.assists;
        assert store.yellowCards == e.yellowCards && store.redCards == e.redCards;
      } else {
        ghost var none := Stamped([], matchId, form.matchDay, now);
        assert none == [];
        assert cleared.goals + none == cleared.goals && cleared.assists + none == cleared.assists;
        assert cleared.yellowCards + none == cleared.yellowCards && cleared.redCards + none == cleared.redCards;
      }
      assert store.teams == e.teams && store.players == e.players && store.matches == e.matches;
      assert store.Data() == e;
      error, sent := None, Some(u);
    }
  }
}
