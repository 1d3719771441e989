/**
 * The eraTW game manager: the table of player saves keyed by Discord id,
 * and the clock, location, interaction-target, money and counter updates
 * applied to a player's save.
 *
 * Each update of one save is a function on the save value; the manager
 * object holds the table and its methods apply those functions to the
 * entry of the given player.
 */
module EraGameManager {
  import opened Wrappers
  import opened EraEnums
  import opened EraPlayer
  import opened EraCharacter

  /** Start-of-game settings and the travel time; their values live in a constants file not part of this model. */
  datatype Settings = Settings(startDay: int, startTime: int, startMoney: int, startLocation: Location, travelCost: int)

  /** The state every loaded character starts with in a new game. */
  const InitialCharState: CharState := map[
    "affection" := IntV(0), "trust" := IntV(0), "times_met" := IntV(0),
    "relationship_level" := IntV(0), "flags" := FlagsV(map[])]

  /**
   * `create_new_game`: a fresh save in the exploring state at the start
   * settings, with one initial state per loaded character.
   */
  function NewGame(settings: Settings, loaded: Option<CharacterTable>, id: int, name: string, now: Timestamp): (s: PlayerSave)
    ensures s.discordId == id && s.discordName == name
    ensures s.progress.gameState == Exploring && s.progress.target == None
    ensures s.progress.day == settings.startDay && s.progress.time == settings.startTime
    ensures s.progress.money == settings.startMoney && s.progress.location == settings.startLocation
    ensures s.characterStates.Keys == (if loaded.Some? then loaded.value.byId.Keys else {})
    ensures forall c :: c in s.characterStates ==> s.characterStates[c] == InitialCharState
    ensures s.items == map[] && s.flags == map[] && s.commandsExecuted == 0 && s.totalPlayTime == 0
  {
    var progress := DefaultProgress.(day := settings.startDay, time := settings.startTime,
                                     money := settings.startMoney, location := settings.startLocation,
                                     gameState := Exploring);
    var states := if loaded.Some? then map c | c in loaded.value.byId.Keys :: InitialCharState else map[];
    NewSave(id, now).(discordName := name, progress := progress, characterStates := states)
  }

  /** `advance_time` on a save: the clock update and whether a new day began. */
  function AdvanceSave(s: PlayerSave, minutes: int): (r: (PlayerSave, bool))
    ensures r.0 == s.(progress := AdvanceClock(s.progress, minutes).0)
    ensures r.1 == AdvanceClock(s.progress, minutes).1
  {
    var (p, newDay) := AdvanceClock(s.progress, minutes);
    (s.(progress := p), newDay)
  }

  datatype MoveOutcome = MoveNoSave | AlreadyHere | Moved

  /**
   * `move_to_location`: moving to where the player already is fails
   * without time passing; otherwise the travel time passes and the
   * location changes.
   */
  function MoveSave(s: PlayerSave, to: Location, travelCost: int): (r: (PlayerSave, MoveOutcome))
    ensures r.1 == AlreadyHere || r.1 == Moved
    ensures r.0.progress.location == to
  {
    if s.progress.location == to then (s, AlreadyHere)
    else
      var moved := AdvanceSave(s, travelCost).0;
      (moved.(progress := moved.progress.(location := to)), Moved)
  }

  /** A move changes only the location, the clock and the day, and lands where it was asked to. */
  lemma MoveSaveSpec(s: PlayerSave, to: Location, travelCost: int)
    ensures var (t, outcome) := MoveSave(s, to, travelCost);
      (outcome == AlreadyHere <==> s.progress.location == to) &&
      (outcome == AlreadyHere ==> t == s) &&
      (outcome == Moved ==>
        t.progress.location == to &&
        t.progress == AdvanceClock(s.progress, travelCost).0.(location := to) &&
        t.(progress := s.progress) == s)
  {
  }

  datatype TargetOutcome = TargetNoSave | NotLoaded | NoSuchCharacter | Started

  /**
   * `set_interaction_target` on a save that exists: needs loaded
   * character data holding the target, then records the target and
   * enters the interacting state.
   */
  function SetTarget(s: PlayerSave, loaded: Option<CharacterTable>, target: int): (r: (PlayerSave, TargetOutcome))
    ensures r.1 == Started <==> loaded.Some? && target in loaded.value.byId
    ensures r.1 != Started ==> r.0 == s
    ensures r.1 == Started ==>
      r.0 == s.(progress := s.progress.(target := Some(target), gameState := Interacting))
  {
    if loaded.None? then (s, NotLoaded)
    else if target !in loaded.value.byId then (s, NoSuchCharacter)
    else (s.(progress := s.progress.(target := Some(target), gameState := Interacting)), Started)
  }

  /** `end_interaction` on a save: no target, back to exploring. */
  function EndInteraction(s: PlayerSave): (r: PlayerSave)
    ensures CurrentTarget(Some(r), None).None?
    ensures r.progress.target.None? && r.progress.gameState == Exploring
    ensures r.(progress := s.progress) == s
  {
    s.(progress := s.progress.(target := None, gameState := Exploring))
  }

  /** Starting and then ending an interaction leaves the player exploring with no target, whatever came before. */
  lemma StartThenEnd(s: PlayerSave, loaded: Option<CharacterTable>, target: int)
    ensures var t := EndInteraction(SetTarget(s, loaded, target).0);
      t.progress.gameState == Exploring && t.progress.target == None &&
      t.progress.(target := s.progress.target, gameState := s.progress.gameState) == s.progress &&
      t.(progress := s.progress) == s
  {
  }

  /**
   * `get_current_target`: the loaded character the save points at. A
   * target id of 0 counts as no target, as the source tests the id's
   * truth value.
   */
  function CurrentTarget(save: Option<PlayerSave>, loaded: Option<CharacterTable>): (r: Option<Character>)
    ensures r.Some? <==> (save.Some? && save.value.progress.target.Some? &&
      save.value.progress.target.value != 0 && loaded.Some? && save.value.progress.target.value in loaded.value.byId)
    ensures r.Some? ==> r.value == loaded.value.byId[save.value.progress.target.value]
  {
    if save.None? || save.value.progress.target.None? || save.value.progress.target.value == 0 then None
    else if loaded.None? then None
    else if save.value.progress.target.value in loaded.value.byId then Some(loaded.value.byId[save.value.progress.target.value])
    else None
  }

  /** A started interaction makes the target current, unless its id is 0. */
  lemma SetTargetThenCurrent(s: PlayerSave, loaded: Option<CharacterTable>, target: int)
    requires SetTarget(s, loaded, target).1 == Started
    ensures target != 0 ==> CurrentTarget(Some(SetTarget(s, loaded, target).0), loaded) == Some(loaded.value.byId[target])
    ensures target == 0 ==> CurrentTarget(Some(SetTarget(s, loaded, target).0), loaded) == None
  {
  }

  /** `add_money`: any amount, negative ones included, is added. */
  function AddMoney(s: PlayerSave, amount: int): (r: (PlayerSave, int))
    ensures r.1 == r.0.progress.money == s.progress.money + amount
    ensures r.0.(progress := s.progress) == s && r.0.progress.(money := s.progress.money) == s.progress
  {
    var money := s.progress.money + amount;
    (s.(progress := s.progress.(money := money)), money)
  }

  /** `spend_money`: refused when the player holds less than the amount; otherwise deducted. */
  function SpendMoney(s: PlayerSave, amount: int): (r: (PlayerSave, bool))
    ensures r.1 <==> s.progress.money >= amount
    ensures !r.1 ==> r.0 == s
    ensures r.1 ==> r.0 == s.(progress := s.progress.(money := s.progress.money - amount))
  {
    if s.progress.money < amount then (s, false)
    else (s.(progress := s.progress.(money := s.progress.money - amount)), true)
  }

  /** Spending a non-negative amount never takes money below zero. */
  lemma SpendKeepsMoneyNonNegative(s: PlayerSave, amount: int)
    requires s.progress.money >= 0 && amount >= 0
    ensures 0 <= SpendMoney(s, amount).0.progress.money <= s.progress.money
  {
  }

  /** Spending what was just added succeeds and restores a save whose money was not negative. */
  lemma AddThenSpend(s: PlayerSave, amount: int)
    requires s.progress.money >= 0
    ensures SpendMoney(AddMoney(s, amount).0, amount) == (s, true)
  {
    var p := s.progress;
    assert p.(money := p.money + amount - amount) == p;
  }

  /** The manager: the save table and the loaded character data, if any. */
  class GameManager {
    var saves: map<int, PlayerSave>
    var loaded: Option<CharacterTable>
    const settings: Settings

    /** The loaded table, if any, is a well-formed insertion-ordered dictionary. */
    ghost predicate Valid()
      reads this
    {
      loaded.Some? ==> TableWellFormed(loaded.value)
    }

    constructor (settings: Settings, loaded: Option<CharacterTable>)
      requires loaded.Some? ==> TableWellFormed(loaded.value)
      ensures Valid() && this.settings == settings && this.loaded == loaded && saves == map[]
    {
      this.settings := settings;
      this.loaded := loaded;
      saves := map[];
    }

    function GetPlayerSave(id: int): (r: Option<PlayerSave>)
      reads this
      ensures r.Some? <==> HasSave(id)
      ensures r.Some? ==> r.value == saves[id]
    {
      if id in saves then Some(saves[id]) else None
    }

    /** `create_new_game`: installs a new save, replacing any earlier one for the player. */
    method CreateNewGame(id: int, name: string, now: Timestamp) returns (save: PlayerSave)
      modifies this
      ensures save == NewGame(settings, loaded, id, name, now)
      ensures saves == old(saves)[id := save] && loaded == old(loaded)
    {
      save := NewGame(settings, loaded, id, name, now);
      saves := saves[id := save];
    }

    function HasSave(id: int): (r: bool)
      reads this
      ensures r <==> id in saves
    {
      id in saves
    }

    method DeleteSave(id: int) returns (deleted: bool)
      modifies this
      ensures deleted == (id in old(saves))
      ensures saves == old(saves) - {id} && !HasSave(id) && loaded == old(loaded)
    {
      deleted := id in saves;
      saves := saves - {id};
    }

    method AdvanceTime(id: int, minutes: int) returns (newDay: bool)
      modifies this
      ensures id !in old(saves) ==> !newDay && saves == old(saves)
      ensures id in old(saves) ==>
        saves == old(saves)[id := AdvanceSave(old(saves)[id], minutes).0] &&
        newDay == AdvanceSave(old(saves)[id], minutes).1
      ensures loaded == old(loaded)
    {
      if id !in saves {
        return false;
      }
      var (s, nd) := AdvanceSave(saves[id], minutes);
      saves := saves[id := s];
      newDay := nd;
    }

    /** `get_current_time_period`: morning when there is no save. */
    function CurrentTimePeriod(id: int): (r: TimeOfDay)
      reads this
      ensures id !in saves ==> r == Morning
      ensures id in saves ==> (r == Night <==> saves[id].progress.time < 240 || 1200 <= saves[id].progress.time)
    {
      if id in saves then TimeOfDayOf(saves[id].progress.time) else Morning
    }

    method MoveToLocation(id: int, to: Location) returns (outcome: MoveOutcome)
      modifies this
      ensures id !in old(saves) ==> outcome == MoveNoSave && saves == old(saves)
      ensures id in old(saves) ==>
        saves == old(saves)[id := MoveSave(old(saves)[id], to, settings.travelCost).0] &&
        outcome == MoveSave(old(saves)[id], to, settings.travelCost).1
      ensures loaded == old(loaded)
    {
      if id !in saves {
        return MoveNoSave;
      }
      if saves[id].progress.location == to {
        return AlreadyHere;
      }
      var _ := AdvanceTime(id, settings.travelCost);
      var s := saves[id];
      saves := saves[id := s.(progress := s.progress.(location := to))];
      outcome := Moved;
    }

    /** `get_available_characters`: the loaded characters whose window contains the save's clock. */
    function AvailableCharacters(id: int): (r: set<int>)
      reads this
      ensures id !in saves || loaded.None? ==> r == {}
      ensures forall c :: c in r <==>
        (id in saves && loaded.Some? && c in loaded.value.byId && IsAvailable(loaded.value.byId[c], saves[id].progress.time))
    {
      if id !in saves || loaded.None? then {}
      else set c | c in loaded.value.byId && IsAvailable(loaded.value.byId[c], saves[id].progress.time)
    }

    method SetInteractionTarget(id: int, target: int) returns (outcome: TargetOutcome)
      modifies this
      ensures id !in old(saves) ==> outcome == TargetNoSave && saves == old(saves)
      ensures id in old(saves) ==>
        saves == old(saves)[id := SetTarget(old(saves)[id], loaded, target).0] &&
        outcome == SetTarget(old(saves)[id], loaded, target).1
      ensures loaded == old(loaded)
    {
      if id !in saves {
        return TargetNoSave;
      }
      var (s, o) := SetTarget(saves[id], loaded, target);
      saves := saves[id := s];
      outcome := o;
    }

    method EndInteractionOf(id: int) returns (ok: bool)
      modifies this
      ensures ok == (id in old(saves))
      ensures ok ==> saves == old(saves)[id := EndInteraction(old(saves)[id])]
      ensures !ok ==> saves == old(saves)
      ensures loaded == old(loaded)
    {
      if id !in saves {
        return false;
      }
      saves := saves[id := EndInteraction(saves[id])];
      return true;
    }

    function GetCurrentTarget(id: int): (r: Option<Character>)
      reads this
      ensures r.Some? ==>
        (id in saves && loaded.Some? && saves[id].progress.target.Some? &&
         saves[id].progress.target.value in loaded.value.byId &&
         r.value == loaded.value.byId[saves[id].progress.target.value])
    {
      CurrentTarget(GetPlayerSave(id), loaded)
    }

    method AddMoneyTo(id: int, amount: int) returns (ok: bool, money: int)
      modifies this
      ensures ok == (id in old(saves))
      ensures !ok ==> money == 0 && saves == old(saves)
      ensures ok ==> saves == old(saves)[id := AddMoney(old(saves)[id], amount).0] &&
                     money == AddMoney(old(saves)[id], amount).1
      ensures loaded == old(loaded)
    {
      if id !in saves {
        return false, 0;
      }
      var (s, m) := AddMoney(saves[id], amount);
      saves := saves[id := s];
      return true, m;
    }

    method SpendMoneyOf(id: int, amount: int) returns (ok: bool)
      modifies this
      ensures id !in old(saves) ==> !ok && saves == old(saves)
      ensures id in old(saves) ==>
        saves == old(saves)[id := SpendMoney(old(saves)[id], amount).0] &&
        ok == SpendMoney(old(saves)[id], amount).1
      ensures loaded == old(loaded)
    {
      if id !in saves {
        return false;
      }
      var (s, spent) := SpendMoney(saves[id], amount);
      saves := saves[id := s];
      ok := spent;
    }

    method IncrementCommandCount(id: int)
      modifies this
      ensures id !in old(saves) ==> saves == old(saves)
      ensures id in old(saves) ==>
        saves == old(saves)[id := old(saves)[id].(commandsExecuted := old(saves)[id].commandsExecuted + 1)]
      ensures loaded == old(loaded)
    {
      if id in saves {
        saves := saves[id := saves[id].(commandsExecuted := saves[id].commandsExecuted + 1)];
      }
    }

    method AddPlayTime(id: int, minutes: int)
      modifies this
      ensures id !in old(saves) ==> saves == old(saves)
      ensures id in old(saves) ==>
        saves == old(saves)[id := old(saves)[id].(totalPlayTime := old(saves)[id].totalPlayTime + minutes)]
      ensures loaded == old(loaded)
    {
      if id in saves {
        saves := saves[id := saves[id].(totalPlayTime := saves[id].totalPlayTime + minutes)];
      }
    }
  }
}
