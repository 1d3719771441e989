/**
 * The eraTW player save: the game clock with its time-of-day buckets,
 * the item inventory, and the save record with its conversion to and
 * from the plain dictionary that is stored.
 *
 * The clock and the inventory are objects whose methods update their
 * fields; each method is specified by a function on the values, and the
 * lemmas state what the game promises about those functions.
 */
module EraPlayer {
  import opened Wrappers
  import opened Text
  import opened EraEnums

  // ---------------------------------------------------------------------
  // Game clock

  /** The fields of the game progress record. `time` is minutes since midnight. */
  datatype Progress = Progress(
    day: int,
    time: int,
    weather: Weather,
    location: Location,
    money: int,
    gameState: GameState,
    target: Option<int>)

  const MinutesPerDay := 1440

  /** A fresh progress record: day 1, 06:00, sunny, at the Hakurei shrine, 1000 money, idle. */
  const DefaultProgress := Progress(1, 360, Sunny, HakureiShrine, 1000, Idle, None)

  /** The time-of-day bucket of a clock reading, stated on minutes rather than hours. */
  function TimeOfDayOf(time: int): (r: TimeOfDay)
    ensures r == Dawn <==> 240 <= time < 360
    ensures r == Morning <==> 360 <= time < 720
    ensures r == Afternoon <==> 720 <= time < 1080
    ensures r == Evening <==> 1080 <= time < 1200
    ensures r == Night <==> time < 240 || 1200 <= time
  {
    var hour := time / 60;
    if 4 <= hour < 6 then Dawn
    else if 6 <= hour < 12 then Morning
    else if 12 <= hour < 18 then Afternoon
    else if 18 <= hour < 20 then Evening
    else Night
  }

  /** `f"{i:02d}"` for any integer: negative values keep their sign and are not padded further. */
  function Format02(i: int): (s: string)
    ensures i >= 0 ==> s == Pad2(i)
  {
    if i < 0 then "-" + NatToString(-i) else Pad2(i)
  }

  /** "HH:MM" of a clock reading. */
  function FormattedTime(time: int): (s: string)
    ensures 0 <= time < MinutesPerDay ==>
      |s| == 5 && s[2] == ':' && AllDigits(s[..2]) && AllDigits(s[3..]) &&
      DigitsValue(s[..2]) * 60 + DigitsValue(s[3..]) == time
  {
    var s := Format02(time / 60) + ":" + Pad2(time % 60);
    if 0 <= time < MinutesPerDay then
      Pad2Value(time / 60);
      Pad2Value(time % 60);
      assert s[..2] == Pad2(time / 60);
      assert s[3..] == Pad2(time % 60);
      s
    else s
  }

  /**
   * `advance_time`: add the minutes; once the clock reaches 1440 it is
   * reduced modulo 1440 and the day goes up by one. The flag says whether
   * a new day began.
   */
  function AdvanceClock(p: Progress, minutes: int): (r: (Progress, bool))
    ensures r.1 <==> r.0.day == p.day + 1
    ensures !r.1 ==> r.0.time == p.time + minutes
    ensures r.0.(day := p.day, time := p.time) == p
  {
    var t := p.time + minutes;
    if t >= MinutesPerDay then (p.(time := t % MinutesPerDay, day := p.day + 1), true)
    else (p.(time := t), false)
  }

  /** Only the day and the time change, and a new day begins exactly when the sum reaches 1440. */
  lemma AdvanceClockFrame(p: Progress, minutes: int)
    ensures var (q, newDay) := AdvanceClock(p, minutes);
      (newDay <==> p.time + minutes >= MinutesPerDay) &&
      q.(day := p.day, time := p.time) == p &&
      q.day == p.day + (if newDay then 1 else 0)
  {
  }

  /** From a valid reading and a non-negative span, the clock stays within a day. */
  lemma AdvanceClockStaysInDay(p: Progress, minutes: int)
    requires 0 <= p.time < MinutesPerDay && minutes >= 0
    ensures 0 <= AdvanceClock(p, minutes).0.time < MinutesPerDay
  {
  }

  /** Absolute minutes (day and time together) are conserved while the span does not cross two midnights. */
  lemma AdvanceClockConservesMinutes(p: Progress, minutes: int)
    requires 0 <= p.time < MinutesPerDay && 0 <= minutes && p.time + minutes < 2 * MinutesPerDay
    ensures var q := AdvanceClock(p, minutes).0;
      q.day * MinutesPerDay + q.time == p.day * MinutesPerDay + p.time + minutes
  {
  }

  /**
   * As written, one call adds at most one day: a span that crosses two
   * or more midnights loses whole days (from 06:00, 2880 minutes later is
   * reported as the next day, not the day after).
   */
  lemma AdvanceClockAtMostOneDay(p: Progress, minutes: int)
    ensures p.day <= AdvanceClock(p, minutes).0.day <= p.day + 1
    ensures 0 <= p.time < MinutesPerDay && p.time + minutes >= 2 * MinutesPerDay ==>
      var q := AdvanceClock(p, minutes).0;
      q.day * MinutesPerDay + q.time < p.day * MinutesPerDay + p.time + minutes
  {
  }

  lemma AdvanceClockTwoDaysExample()
    ensures AdvanceClock(DefaultProgress, 2880) == (DefaultProgress.(day := 2), true)
  {
  }

  /** The game progress record as an object whose clock is advanced in place. */
  class GameProgress {
    var day: int
    var time: int
    var weather: Weather
    var location: Location
    var money: int
    var gameState: GameState
    var target: Option<int>

    function Model(): Progress
      reads this
    {
      Progress(day, time, weather, location, money, gameState, target)
    }

    constructor ()
      ensures Model() == DefaultProgress
    {
      day, time, weather, location := 1, 360, Sunny, HakureiShrine;
      money, gameState, target := 1000, Idle, None;
    }

    function TimeOfDay(): (r: TimeOfDay)
      reads this
      ensures r == Dawn <==> 240 <= time < 360
      ensures r == Morning <==> 360 <= time < 720
      ensures r == Night <==> time < 240 || 1200 <= time
    {
      TimeOfDayOf(time)
    }

    function Formatted(): (r: string)
      reads this
      ensures 0 <= time < MinutesPerDay ==>
        |r| == 5 && r[2] == ':' && AllDigits(r[..2]) && AllDigits(r[3..]) &&
        DigitsValue(r[..2]) * 60 + DigitsValue(r[3..]) == time
    {
      FormattedTime(time)
    }

    method AdvanceTime(minutes: int) returns (newDay: bool)
      modifies this
      ensures (Model(), newDay) == AdvanceClock(old(Model()), minutes)
    {
      time := time + minutes;
      if time >= MinutesPerDay {
        time := time % MinutesPerDay;
        day := day + 1;
        return true;
      }
      return false;
    }
  }

  // ---------------------------------------------------------------------
  // Inventory

  /** Quantity held of an item, 0 when it has no entry. */
  function Count(items: map<string, int>, id: string): int {
    if id in items then items[id] else 0
  }

  /** `add_item`: the item's count goes up by the quantity; no other entry changes. */
  function WithItemAdded(items: map<string, int>, id: string, quantity: int): (r: map<string, int>)
    ensures id in r && r[id] == Count(items, id) + quantity
    ensures r - {id} == items - {id}
  {
    items[id := Count(items, id) + quantity]
  }

  /**
   * `remove_item`: fails, leaving the items alone, when fewer than the
   * quantity are held; otherwise subtracts and drops an entry whose count
   * is no longer positive.
   */
  function WithItemRemoved(items: map<string, int>, id: string, quantity: int): (r: (map<string, int>, bool))
    ensures r.1 <==> Count(items, id) >= quantity
    ensures !r.1 ==> r.0 == items
    ensures r.1 ==> Count(r.0, id) == Count(items, id) - quantity
    ensures r.1 ==> (id in r.0 <==> Count(items, id) - quantity > 0)
    ensures r.0 - {id} == items - {id}
  {
    var current := Count(items, id);
    if current < quantity then (items, false)
    else if current - quantity <= 0 then (items - {id}, true)
    else (items[id := current - quantity], true)
  }

  /** `has_item`. */
  predicate HasItem(items: map<string, int>, id: string, quantity: int) {
    Count(items, id) >= quantity
  }

  /** Every entry holds a positive count. */
  predicate PositiveCounts(items: map<string, int>) {
    forall k :: k in items ==> items[k] > 0
  }

  /** Removal succeeds exactly when the items are held. */
  lemma RemoveSucceedsIffHas(items: map<string, int>, id: string, quantity: int)
    ensures WithItemRemoved(items, id, quantity).1 <==> HasItem(items, id, quantity)
  {
  }

  /** Adding a positive quantity and removing from a positive inventory keep every count positive. */
  lemma InventoryKeepsPositiveCounts(items: map<string, int>, id: string, quantity: int)
    requires PositiveCounts(items)
    ensures quantity > 0 ==> PositiveCounts(WithItemAdded(items, id, quantity))
    ensures PositiveCounts(WithItemRemoved(items, id, quantity).0)
  {
    var r := WithItemRemoved(items, id, quantity).0;
    forall k | k in r ensures r[k] > 0 {
      if k != id {
        assert k in r - {id};
      }
    }
  }

  /** Removing what was just added restores an inventory of positive counts. */
  lemma AddThenRemove(items: map<string, int>, id: string, quantity: int)
    requires PositiveCounts(items) && quantity >= 0
    ensures WithItemRemoved(WithItemAdded(items, id, quantity), id, quantity) == (items, true)
  {
    var added := WithItemAdded(items, id, quantity);
    if id in items {
      assert added[id := items[id]] == items;
    } else {
      assert added - {id} == items;
    }
  }

  /** The player's inventory, an item-to-count dictionary updated in place. */
  class Inventory {
    var items: map<string, int>

    constructor ()
      ensures items == map[]
    {
      items := map[];
    }

    method AddItem(id: string, quantity: int)
      modifies this
      ensures items == WithItemAdded(old(items), id, quantity)
    {
      items := items[id := Count(items, id) + quantity];
    }

    method RemoveItem(id: string, quantity: int) returns (ok: bool)
      modifies this
      ensures (items, ok) == WithItemRemoved(old(items), id, quantity)
    {
      var current := Count(items, id);
      if current < quantity {
        return false;
      }
      items := items[id := current - quantity];
      if items[id] <= 0 {
        items := items - {id};
        assert items == old(items) - {id};
      }
      return true;
    }

    function Has(id: string, quantity: int): (r: bool)
      reads this
      ensures r <==> WithItemRemoved(items, id, quantity).1
      ensures id !in items ==> (r <==> quantity <= 0)
    {
      HasItem(items, id, quantity)
    }
  }

  // ---------------------------------------------------------------------
  // Save record and its dictionary form

  /** A value held in a per-character state dictionary. */
  datatype Val = IntV(i: int) | BoolV(b: bool) | FlagsV(flags: map<string, int>)

  type CharState = map<string, Val>

  /** An integer entry of a state dictionary, or the default when absent or not an integer. */
  function IntEntry(state: CharState, key: string, default: int): int {
    if key in state && state[key].IntV? then state[key].i else default
  }

  /** A boolean entry of a state dictionary, or the default when absent or not a boolean. */
  function BoolEntry(state: CharState, key: string, default: bool): bool {
    if key in state && state[key].BoolV? then state[key].b else default
  }

  /** Timestamps are kept as opaque clock readings; their ISO text form is the identity here. */
  type Timestamp = int

  datatype PlayerSave = PlayerSave(
    discordId: int,
    discordName: string,
    progress: Progress,
    items: map<string, int>,
    characterStates: map<int, CharState>,
    flags: map<string, int>,
    totalPlayTime: int,
    commandsExecuted: int,
    createdAt: Timestamp,
    updatedAt: Timestamp,
    slot: int)

  const MaxSaveSlots := 5

  /** A save with every field at its default. */
  function NewSave(discordId: int, now: Timestamp): (r: PlayerSave)
    ensures r.discordId == discordId && r.progress == DefaultProgress && r.createdAt == now && r.updatedAt == now
    ensures FromDict(ToDict(r, now), now) == Ok(r)
  {
    PlayerSave(discordId, "", DefaultProgress, map[], map[], map[], 0, 0, now, now, 0)
  }

  /** The stored progress dictionary: each key may be absent. */
  datatype ProgressDict = ProgressDict(
    day: Option<int>,
    time: Option<int>,
    weather: Option<int>,
    location: Option<int>,
    money: Option<int>,
    gameState: Option<int>,
    target: Option<int>)

  /** The stored save dictionary: each key may be absent. */
  datatype SaveDict = SaveDict(
    discordId: Option<int>,
    discordName: Option<string>,
    progress: Option<ProgressDict>,
    items: Option<map<string, int>>,
    characterStates: Option<map<int, CharState>>,
    flags: Option<map<string, int>>,
    totalPlayTime: Option<int>,
    commandsExecuted: Option<int>,
    createdAt: Option<Timestamp>,
    updatedAt: Option<Timestamp>,
    slot: Option<int>)

  datatype LoadError = MissingDiscordId | BadEnumValue

  /** `to_dict`: every field is written; `updated_at` is stamped with the current time. */
  function ToDict(s: PlayerSave, now: Timestamp): (r: SaveDict)
    ensures r.discordId == Some(s.discordId) && r.updatedAt == Some(now) && r.createdAt == Some(s.createdAt)
    ensures FromDict(r, now).Ok?
  {
    var p := s.progress;
    SaveDict(
      Some(s.discordId), Some(s.discordName),
      Some(ProgressDict(Some(p.day), Some(p.time), Some(WeatherValue(p.weather)),
                        Some(LocationValue(p.location)), Some(p.money),
                        Some(GameStateValue(p.gameState)), p.target)),
      Some(s.items), Some(s.characterStates), Some(s.flags),
      Some(s.totalPlayTime), Some(s.commandsExecuted),
      Some(s.createdAt), Some(now), Some(s.slot))
  }

  /**
   * `from_dict`: absent keys take their defaults, timestamps default to
   * the current time; a missing `discord_id` or an enumeration value out
   * of range is an error.
   */
  function FromDict(d: SaveDict, now: Timestamp): (r: Result<PlayerSave, LoadError>)
    ensures var pd := d.progress.GetOr(ProgressDict(None, None, None, None, None, None, None));
      r.Ok? <==> (d.discordId.Some? &&
                  0 <= pd.weather.GetOr(0) < 6 && 0 <= pd.location.GetOr(0) < 10 && 0 <= pd.gameState.GetOr(0) < 6)
  {
    var pd := d.progress.GetOr(ProgressDict(None, None, None, None, None, None, None));
    var weather := WeatherOf(pd.weather.GetOr(0));
    var location := LocationOf(pd.location.GetOr(0));
    var state := GameStateOf(pd.gameState.GetOr(0));
    if weather.None? || location.None? || state.None? then Err(BadEnumValue)
    else if d.discordId.None? then Err(MissingDiscordId)
    else
      var progress := Progress(pd.day.GetOr(1), pd.time.GetOr(360), weather.value, location.value,
                               pd.money.GetOr(1000), state.value, pd.target);
      Ok(PlayerSave(d.discordId.value, d.discordName.GetOr(""), progress,
                    d.items.GetOr(map[]), d.characterStates.GetOr(map[]), d.flags.GetOr(map[]),
                    d.totalPlayTime.GetOr(0), d.commandsExecuted.GetOr(0),
                    d.createdAt.GetOr(now), d.updatedAt.GetOr(now), d.slot.GetOr(0)))
  }

  /** Reading back a written save restores every field except `updated_at`, which holds the write time. */
  lemma FromDictToDict(s: PlayerSave, writeTime: Timestamp, readTime: Timestamp)
    ensures FromDict(ToDict(s, writeTime), readTime) == Ok(s.(updatedAt := writeTime))
  {
    ValuesRoundTrip(s.progress.weather, s.progress.location, s.progress.gameState);
  }

  /** A dictionary holding only the Discord id loads as a fresh save stamped with the read time. */
  lemma FromDictDefaults(id: int, now: Timestamp)
    ensures FromDict(SaveDict(Some(id), None, None, None, None, None, None, None, None, None, None), now)
         == Ok(NewSave(id, now))
  {
  }
}
