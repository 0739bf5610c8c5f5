/**
 * What the add and edit match dialogs share: the four per-kind player lists
 * (`playerStats`), the slot layout of their pickers, and the way a list
 * becomes the entries handed to `recordMatchStats`.
 */
module MatchForms {
  import opened Common
  import opened Domain

  /** The alert both dialogs raise when the home and away team are the same. */
  const SameTeam := "Error: A team cannot play against itself."

  /** The four lists of the form: `'goals' | 'assists' | 'yellows' | 'reds'`. */
  datatype EventKind = Goals | Assists | Yellows | Reds

  /**
   * A player list as the form holds it. `None` is a slot never set: a hole
   * left by writing past the end, which reads as `undefined`.
   */
  type Slots = seq<Option<string>>

  datatype PlayerLists = PlayerLists(goals: Slots, assists: Slots, yellows: Slots, reds: Slots) {
    function Get(k: EventKind): Slots {
      match k
      case Goals => goals
      case Assists => assists
      case Yellows => yellows
      case Reds => reds
    }

    /** `{ ...prev, [type]: list }` */
    function Put(k: EventKind, list: Slots): (r: PlayerLists)
      ensures r.Get(k) == list
      ensures forall k' | k' != k :: r.Get(k') == Get(k')
    {
      match k
      case Goals => this.(goals := list)
      case Assists => this.(assists := list)
      case Yellows => this.(yellows := list)
      case Reds => this.(reds := list)
    }
  }

  /** `{ goals: [], assists: [], yellows: [], reds: [] }` */
  const NoPlayers := PlayerLists([], [], [], [])

  /**
   * `newList = [...list]; newList[index] = value`: slot `i` holds `v`, every
   * other slot keeps its value, and the slots between the old end and `i`
   * are holes.
   */
  function SetSlot(list: Slots, i: nat, v: string): (r: Slots)
    ensures |r| == if i < |list| then |list| else i + 1
    ensures r[i] == Some(v)
    ensures forall j | 0 <= j < |list| && j != i :: r[j] == list[j]
    ensures forall j | |list| <= j < |r| && j != i :: r[j] == None
  {
    var n := if i < |list| then |list| else i + 1;
    seq(n, j requires 0 <= j < n => if j == i then Some(v) else if j < |list| then list[j] else None)
  }

  /** The `playerStats` state of a dialog. */
  class PlayerPicks {
    var lists: PlayerLists

    constructor ()
      ensures lists == NoPlayers
    {
      lists := NoPlayers;
    }

    /**
     * `updatePlayerList(type, index, value)`: copies the list of that kind,
     * writes one slot of the copy and puts the copy in place.
     */
    method UpdatePlayerList(k: EventKind, i: nat, v: string)
      modifies this
      ensures lists.Get(k) == SetSlot(old(lists).Get(k), i, v)
      ensures forall k' | k' != k :: lists.Get(k') == old(lists).Get(k')
    {
      var prev := lists.Get(k);
      var n := if i < |prev| then |prev| else i + 1;
      var copy := new Option<string>[n](j => if 0 <= j < |prev| then prev[j] else None);
      copy[i] := Some(v);
      assert copy[..] == SetSlot(prev, i, v);
      lists := lists.Put(k, copy[..]);
    }
  }

  // ---------------------------------------------------------------------
  // Slot layout

  /**
   * The slot a picker writes: home pickers `i < homeCount` use slot `i`, away
   * pickers use `homeCount + i`, for goals, assists, yellows and reds alike.
   */
  function SlotIndex(home: bool, homeCount: nat, i: nat): nat {
    if home then i else homeCount + i
  }

  /**
   * With `h` home and `a` away pickers, the pickers and the slots `0 .. h+a-1`
   * correspond one to one: home pickers fill the first `h` slots and away
   * pickers the next `a`.
   */
  lemma SlotLayout(h: nat, a: nat)
    ensures forall i | 0 <= i < h :: SlotIndex(true, h, i) < h
    ensures forall i | 0 <= i < a :: h <= SlotIndex(false, h, i) < h + a
    ensures forall i, j | 0 <= i < h && 0 <= j < a :: SlotIndex(true, h, i) != SlotIndex(false, h, j)
    ensures forall s | 0 <= s < h + a ::
      (s < h && SlotIndex(true, h, s) == s) || (h <= s && SlotIndex(false, h, s - h) == s)
  {
  }

  // ---------------------------------------------------------------------
  // From lists to entries

  /**
   * `list.slice(0, end)`: a negative `end` counts back from the end of the
   * list, and an `end` past it stops at the end.
   */
  function SliceTo<T>(list: seq<T>, end: int): (r: seq<T>)
    ensures |r| <= |list| && r == list[..|r|]
    ensures 0 <= end ==> |r| == if end < |list| then end else |list|
    ensures end < 0 ==> |r| == if |list| + end < 0 then 0 else |list| + end
  {
    if end < 0 then list[..if |list| + end < 0 then 0 else |list| + end]
    else if end < |list| then list[..end]
    else list
  }

  /** `list.filter(id => !!id)`: the set slots holding a non-empty id, in order. */
  function Chosen(list: Slots): (r: seq<string>)
    ensures |r| <= |list|
    ensures forall i | 0 <= i < |r| :: r[i] != "" && Some(r[i]) in list
    ensures forall i | 0 <= i < |list| && list[i].Some? && list[i].value != "" :: list[i].value in r
  {
    if list == [] then []
    else (if list[0].Some? && list[0].value != "" then [list[0].value] else []) + Chosen(list[1..])
  }

  /** A list starting with a slot holding `pid` keeps `pid` first. */
  lemma ChosenCons(o: Option<string>, rest: Slots)
    requires o.Some? && o.value != ""
    ensures Chosen([o] + rest) == [o.value] + Chosen(rest)
  {
    assert ([o] + rest)[1..] == rest;
  }

  /** Filtering distributes over concatenation. */
  lemma {:induction false} ChosenAppend(a: Slots, b: Slots)
    ensures Chosen(a + b) == Chosen(a) + Chosen(b)
  {
    if a == [] {
      assert a + b == b;
    } else {
      assert (a + b)[1..] == a[1..] + b;
      ChosenAppend(a[1..], b);
    }
  }

  /** The entry of one picked player: `{ playerId, teamId: players.find(...)?.teamId || "" }`. */
  function EntryOf(players: seq<Player>, pid: string): (e: EventEntry)
    ensures e.playerId == pid
    ensures FindPlayer(players, pid).None? ==> e.teamId == ""
    ensures FindPlayer(players, pid).Some? ==> e.teamId == FindPlayer(players, pid).value.teamId
  {
    EventEntry(pid, TeamOfPlayer(players, pid))
  }

  /** `list.filter(id => !!id).map(pid => ...)`: one entry per set, non-empty slot. */
  function Recorded(players: seq<Player>, list: Slots): (r: seq<EventEntry>)
    ensures |r| == |Chosen(list)|
    ensures forall i | 0 <= i < |r| :: r[i] == EntryOf(players, Chosen(list)[i])
  {
    MapSeq(Chosen(list), pid => EntryOf(players, pid))
  }

  /**
   * `list.slice(0, total).filter(id => !!id).map(pid => ...)`: the entries of
   * the slots that the pickers for `total` events can reach.
   */
  function CutRecorded(players: seq<Player>, list: Slots, total: int): seq<EventEntry> {
    Recorded(players, SliceTo(list, total))
  }

  /**
   * Cutting a list first gives the first entries of the uncut list, and no
   * more entries than there are events to pick players for.
   */
  lemma CutIsPrefix(players: seq<Player>, list: Slots, total: int)
    ensures |CutRecorded(players, list, total)| <= |Recorded(players, list)|
    ensures CutRecorded(players, list, total) == Recorded(players, list)[..|CutRecorded(players, list, total)|]
    ensures 0 <= total ==> |CutRecorded(players, list, total)| <= total
  {
    var cut := SliceTo(list, total);
    assert list == cut + list[|cut|..];
    ChosenAppend(cut, list[|cut|..]);
  }

  /** `es` holds one entry per set, non-empty slot of `list`, in slot order. */
  predicate EntriesOf(es: seq<EventEntry>, players: seq<Player>, list: Slots) {
    |es| == |Chosen(list)| && forall i | 0 <= i < |es| :: es[i] == EntryOf(players, Chosen(list)[i])
  }

  /** `cut` is a prefix of `full` holding at most `total` entries when `total` is not negative. */
  predicate CutOf(cut: seq<EventEntry>, full: seq<EventEntry>, total: int) {
    cut <= full && (0 <= total ==> |cut| <= total)
  }

  lemma CutPrefix(players: seq<Player>, list: Slots, total: int)
    ensures CutOf(CutRecorded(players, list, total), Recorded(players, list), total)
  {
    CutIsPrefix(players, list, total);
  }

  /** `stats` of the add dialog: every list filtered, none cut. */
  function AddBatch(players: seq<Player>, lists: PlayerLists): (b: EventBatch)
    ensures EntriesOf(b.goals, players, lists.goals) && EntriesOf(b.assists, players, lists.assists)
    ensures EntriesOf(b.yellows, players, lists.yellows) && EntriesOf(b.reds, players, lists.reds)
  {
    EventBatch(Recorded(players, lists.goals), Recorded(players, lists.assists),
               Recorded(players, lists.yellows), Recorded(players, lists.reds))
  }

  /**
   * `stats` of the edit dialog: each list cut to the slots of the current
   * home plus away count of its kind, then filtered.
   */
  function EditBatch(players: seq<Player>, lists: PlayerLists, form: Match): EventBatch {
    EventBatch(
      CutRecorded(players, lists.goals, form.homeScore + form.awayScore),
      CutRecorded(players, lists.assists, form.homeAssists + form.awayAssists),
      CutRecorded(players, lists.yellows, form.homeYellows + form.awayYellows),
      CutRecorded(players, lists.reds, form.homeReds + form.awayReds))
  }

  /** The entries of one kind in a batch. */
  function BatchOf(b: EventBatch, k: EventKind): seq<EventEntry> {
    match k
    case Goals => b.goals
    case Assists => b.assists
    case Yellows => b.yellows
    case Reds => b.reds
  }

  /** The form's home plus away count of one kind: the number of pickers the edit dialog shows. */
  function FormTotal(form: Match, k: EventKind): int {
    match k
    case Goals => form.homeScore + form.awayScore
    case Assists => form.homeAssists + form.awayAssists
    case Yellows => form.homeYellows + form.awayYellows
    case Reds => form.homeReds + form.awayReds
  }

  /**
   * The edit dialog records, for each kind, a prefix of what the add dialog
   * records from the same list, with no more entries than the form's count
   * of that kind.
   */
  lemma EditBatchCuts(players: seq<Player>, lists: PlayerLists, form: Match, k: EventKind)
    ensures CutOf(BatchOf(EditBatch(players, lists, form), k), BatchOf(AddBatch(players, lists), k), FormTotal(form, k))
  {
    CutPrefix(players, lists.Get(k), FormTotal(form, k));
  }

  /** Each set, non-empty slot in a list gives exactly one recorded id, in slot order. */
  lemma ChosenOnePerSlot(list: Slots, i: nat, pid: string)
    requires i < |list| && list[i] == Some(pid) && pid != ""
    ensures Chosen(list) == Chosen(list[..i]) + [pid] + Chosen(list[i + 1..])
  {
    var before, from, after := list[..i], list[i..], list[i + 1..];
    assert list == before + from;
    assert from == [list[i]] + after;
    ChosenAppend(before, from);
    ChosenCons(list[i], after);
  }
}
