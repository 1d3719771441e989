/**
 * The eraTW command manager: which training commands a relationship
 * level unlocks, the outcome of each command handler, and the effect of
 * executing a command on the player's save.
 *
 * Random draws are parameters: `roll` is any integer, reduced into the
 * handler's range, so every value of the range is reachable and none
 * outside it; the 60% success draw of the temptation command is the
 * boolean `tempted`. Handler messages are not modelled.
 */
module EraCommandManager {
  import opened Wrappers
  import opened Text
  import opened EraPlayer
  import opened EraCharacter
  import opened EraRelationship
  import opened EraGameManager
  import opened EraCharacterManager

  /** `random.randint(lo, hi)` driven by an arbitrary integer. */
  function Roll(lo: int, hi: int, roll: int): (r: int)
    requires lo <= hi
    ensures lo <= r <= hi
  {
    lo + roll % (hi - lo + 1)
  }

  /** Every value of the range is drawn by some roll. */
  lemma RollCoversRange(lo: int, hi: int, v: int)
    requires lo <= v <= hi
    ensures Roll(lo, hi, v - lo) == v
  {
  }

  const Conversation := 300
  const Tea := 301
  const Touch := 302
  const Headpat := 309
  const Hug := 311
  const Kiss := 312
  const CommKiss := 20
  const Tempt := 22
  const Confess := 352

  /** `_is_command_available`: the basic commands always, hug and kiss from level 2, temptation and confession from level 3, anything else always. */
  predicate IsCommandAvailable(cmd: int, level: int)
    ensures level >= 3 ==> IsCommandAvailable(cmd, level)
    ensures cmd in {Conversation, Tea, Touch, Headpat} ==> IsCommandAvailable(cmd, level)
  {
    if cmd in {300, 301, 302, 309} then true
    else if cmd in {311, 312, 20} then level >= 2
    else if cmd in {22, 352} then level >= 3
    else true
  }

  /** The gating table stated as the set of commands a level cannot use. */
  lemma LockedCommands(cmd: int, level: int)
    ensures !IsCommandAvailable(cmd, level) <==>
      (level < 2 && cmd in {311, 312, 20}) || (level < 3 && cmd in {22, 352})
  {
  }

  /** The outcome a handler reports: its own result, before it is applied. */
  datatype CommandResult = CommandResult(success: bool, affectionChange: int, timePassed: int, becameLover: bool)

  function Ok(delta: int, time: int): CommandResult { CommandResult(true, delta, time, false) }
  function Fail(delta: int, time: int): CommandResult { CommandResult(false, delta, time, false) }

  /**
   * The handler of a command (the generic handler for unregistered ids),
   * given the target's affection before the command. Levels are derived
   * from that affection.
   */
  function Handle(cmd: int, affection: int, roll: int, tempted: bool, conversationTime: int): (r: CommandResult)
    ensures cmd != Conversation ==> r.timePassed > 0
    ensures cmd == Conversation ==> r.success && r.timePassed == conversationTime
    ensures r.becameLover ==> r.success && cmd == Confess
    ensures !r.success ==> cmd in {Touch, Hug, Kiss, CommKiss, Tempt, Confess}
  {
    var level := Level(affection);
    if cmd == Conversation then Ok(Roll(1, 5, roll), conversationTime)
    else if cmd == Tea then Ok(Roll(2, 6, roll), 10)
    else if cmd == Touch then (if level < 1 then Fail(-2, 5) else Ok(Roll(1, 4, roll), 5))
    else if cmd == Headpat then Ok(Roll(3, 8, roll), 5)
    else if cmd == Hug then (if level < 2 then Fail(-3, 5) else Ok(Roll(5, 12, roll), 10))
    else if cmd == Kiss || cmd == CommKiss then (if level < 3 then Fail(-10, 5) else Ok(Roll(10, 20, roll), 15))
    else if cmd == Tempt then (if tempted then Ok(Roll(5, 15, roll), 10) else Fail(-5, 10))
    else if cmd == Confess then
      (if affection >= 800 then CommandResult(true, 100, 30, true)
       else if affection >= 500 then Fail(10, 30)
       else Fail(-20, 30))
    else Ok(Roll(-2, 5, roll), 10)
  }

  /** Touch, hug and kiss fail with a fixed penalty exactly below levels 1, 2 and 3. */
  lemma ContactGating(affection: int, roll: int, tempted: bool, t: int)
    ensures var r := Handle(Touch, affection, roll, tempted, t);
      !r.success <==> Level(affection) < 1 && (!r.success ==> r.affectionChange == -2)
    ensures var r := Handle(Hug, affection, roll, tempted, t);
      !r.success <==> Level(affection) < 2 && (!r.success ==> r.affectionChange == -3)
    ensures forall k :: k == Kiss || k == CommKiss ==>
      var r := Handle(k, affection, roll, tempted, t);
      !r.success <==> Level(affection) < 3 && (!r.success ==> r.affectionChange == -10)
  {
  }

  /** At level 2 the kiss command is offered but always refused. */
  lemma KissOfferedButRefusedAtLevelTwo(affection: int, roll: int, tempted: bool, t: int)
    requires Level(affection) == 2
    ensures IsCommandAvailable(Kiss, Level(affection)) && IsCommandAvailable(CommKiss, Level(affection))
    ensures !Handle(Kiss, affection, roll, tempted, t).success
  {
  }

  /** Confession: lover at 800 or more, a kind refusal from 500, a shocked one below; always half an hour. */
  lemma ConfessOutcomes(affection: int, roll: int, tempted: bool, t: int)
    ensures var r := Handle(Confess, affection, roll, tempted, t);
      r.timePassed == 30 &&
      (r.success <==> affection >= 800) && (r.becameLover <==> affection >= 800) &&
      r.affectionChange == (if affection >= 800 then 100 else if affection >= 500 then 10 else -20)
  {
  }

  /** Random gains stay in the handler's range; the generic handler may also lose a little. */
  lemma DeltaRanges(cmd: int, affection: int, roll: int, tempted: bool, t: int)
    ensures var r := Handle(cmd, affection, roll, tempted, t);
      (cmd == Conversation ==> 1 <= r.affectionChange <= 5) &&
      (cmd == Tea ==> 2 <= r.affectionChange <= 6) &&
      (cmd == Headpat ==> 3 <= r.affectionChange <= 8) &&
      (cmd == Hug && r.success ==> 5 <= r.affectionChange <= 12) &&
      (cmd == Kiss && r.success ==> 10 <= r.affectionChange <= 20) &&
      (cmd !in {300, 301, 302, 309, 311, 312, 20, 22, 352} ==> -2 <= r.affectionChange <= 5 && r.timePassed == 10)
  {
  }

  /** Only the confession sets the lover flag, and only on success. */
  lemma OnlyConfessionMakesLovers(cmd: int, affection: int, roll: int, tempted: bool, t: int)
    ensures Handle(cmd, affection, roll, tempted, t).becameLover <==> cmd == Confess && affection >= 800
  {
  }

  /** The command catalogue: ids in declaration order, their names, and the category lists. */
  datatype Catalog = Catalog(order: seq<int>, names: map<int, string>, categories: map<string, seq<int>>)

  /** No id twice in a list. */
  predicate Distinct(ids: seq<int>) {
    forall i, j :: 0 <= i < j < |ids| ==> ids[i] != ids[j]
  }

  /** `list(COMMANDS.keys())`: the declaration order lists each named id once, and nothing else. */
  predicate WellFormed(c: Catalog) {
    Distinct(c.order) && (forall id :: id in c.order ==> id in c.names) && (forall id :: id in c.names ==> id in c.order)
  }

  /** `COMMANDS.get(id, f"指令{id}")`. */
  function CommandName(c: Catalog, id: int): (r: string)
    ensures id in c.names ==> r == c.names[id]
    ensures id !in c.names ==> |r| > 2 && r[..2] == "指令" && ParseInt(r[2..]) == Some(id)
  {
    if id in c.names then c.names[id]
    else
      var r := "指令" + IntToString(id);
      ParseIntOfIntToString(id);
      assert r[2..] == IntToString(id);
      r
  }

  /** The ids offered for a category: the category's list, all ids when none (or an empty name) is given. */
  function CandidateIds(c: Catalog, category: Option<string>): (r: seq<int>)
    ensures category.None? || category.value == "" ==> r == c.order
    ensures category.Some? && category.value != "" && category.value !in c.categories ==> r == []
  {
    if category.Some? && category.value != "" then
      (if category.value in c.categories then c.categories[category.value] else [])
    else c.order
  }

  /** The unlocked ids of a list with their names, in list order. */
  function Unlocked(c: Catalog, ids: seq<int>, level: int): (r: seq<(int, string)>)
    ensures forall i :: 0 <= i < |r| ==> r[i].0 in ids && IsCommandAvailable(r[i].0, level) && r[i].1 == CommandName(c, r[i].0)
    ensures forall id :: id in ids && IsCommandAvailable(id, level) ==> (id, CommandName(c, id)) in r
  {
    if ids == [] then []
    else
      var init := Unlocked(c, ids[..|ids| - 1], level);
      var last := ids[|ids| - 1];
      assert forall d :: d in ids ==> d in ids[..|ids| - 1] || d == last;
      init + (if IsCommandAvailable(last, level) then [(last, CommandName(c, last))] else [])
  }

  /** One more id extends the unlocked list by that id, when it is unlocked. */
  lemma UnlockedSnoc(c: Catalog, ids: seq<int>, i: nat, level: int)
    requires i < |ids|
    ensures Unlocked(c, ids[..i + 1], level) ==
      Unlocked(c, ids[..i], level) + (if IsCommandAvailable(ids[i], level) then [(ids[i], CommandName(c, ids[i]))] else [])
  {
    assert ids[..i + 1][..i] == ids[..i];
  }

  /** The loop of `get_available_commands` over the candidate ids. */
  method CollectUnlocked(c: Catalog, ids: seq<int>, level: int) returns (r: seq<(int, string)>)
    ensures r == Unlocked(c, ids, level)
  {
    r := [];
    var i := 0;
    while i < |ids|
      invariant 0 <= i <= |ids|
      invariant r == Unlocked(c, ids[..i], level)
    {
      UnlockedSnoc(c, ids, i, level);
      if IsCommandAvailable(ids[i], level) {
        r := r + [(ids[i], CommandName(c, ids[i]))];
      }
      i := i + 1;
    }
    assert ids[..|ids|] == ids;
  }

  /** A list without repeats offers each command at most once. */
  lemma {:induction false} UnlockedDistinct(c: Catalog, ids: seq<int>, level: int)
    requires Distinct(ids)
    ensures forall i, j :: 0 <= i < j < |Unlocked(c, ids, level)| ==> Unlocked(c, ids, level)[i].0 != Unlocked(c, ids, level)[j].0
  {
    if ids != [] {
      var init := ids[..|ids| - 1];
      var last := ids[|ids| - 1];
      assert Distinct(init);
      UnlockedDistinct(c, init, level);
      var before := Unlocked(c, init, level);
      var r := Unlocked(c, ids, level);
      assert r == before + (if IsCommandAvailable(last, level) then [(last, CommandName(c, last))] else []);
      assert last !in init by {
        forall k | 0 <= k < |init| ensures init[k] != last {
          assert ids[k] == init[k];
        }
      }
      forall i, j | 0 <= i < j < |r|
        ensures r[i].0 != r[j].0
      {
        assert r[i] == before[i];
        if j == |before| {
          assert r[j].0 == last;
          assert before[i].0 in init;
        } else {
          assert r[j] == before[j];
        }
      }
    }
  }

  /**
   * In a well-formed catalogue the full listing offers each unlocked command
   * exactly once, under its declared name.
   */
  lemma ListingOfWellFormed(c: Catalog, level: int)
    requires WellFormed(c)
    ensures var r := Unlocked(c, CandidateIds(c, None), level);
      (forall id :: (exists i :: 0 <= i < |r| && r[i].0 == id) <==> id in c.names && IsCommandAvailable(id, level))
      && (forall i :: 0 <= i < |r| ==> r[i].1 == c.names[r[i].0])
      && (forall i, j :: 0 <= i < j < |r| ==> r[i].0 != r[j].0)
  {
    var r := Unlocked(c, c.order, level);
    UnlockedDistinct(c, c.order, level);
    forall id | id in c.names && IsCommandAvailable(id, level)
      ensures exists i :: 0 <= i < |r| && r[i].0 == id
    {
      assert (id, CommandName(c, id)) in r;
    }
  }

  /** A higher level never offers fewer commands. */
  lemma UnlockedGrows(c: Catalog, ids: seq<int>, lo: int, hi: int)
    requires lo <= hi
    ensures forall p :: p in Unlocked(c, ids, lo) ==> p in Unlocked(c, ids, hi)
  {
  }

  datatype Refusal = NoSave | NoTarget | NoCharacter

  /**
   * The effect of a dispatched command on the save: a successful
   * confession first sets the lover flag; then the command count goes up
   * by one, the clock advances if time passed, and the affection change,
   * if any, is added (clamped) to the target.
   */
  function Apply(s: PlayerSave, target: int, cmd: int, r: CommandResult): (res: PlayerSave)
    ensures res.(characterStates := s.characterStates, commandsExecuted := s.commandsExecuted, progress := s.progress) == s
  {
    var s1 := if r.becameLover then MergeState(s, target, map["is_lover" := BoolV(true)]) else s;
    var s2 := s1.(commandsExecuted := s1.commandsExecuted + 1);
    var s3 := if r.timePassed > 0 then AdvanceSave(s2, r.timePassed).0 else s2;
    if r.affectionChange != 0 then AddAffection(s3, target, r.affectionChange).0 else s3
  }

  /** Every dispatch counts exactly one command and moves the clock only by the time that passed. */
  lemma ApplyCountsOnce(s: PlayerSave, target: int, cmd: int, r: CommandResult)
    ensures Apply(s, target, cmd, r).commandsExecuted == s.commandsExecuted + 1
    ensures Apply(s, target, cmd, r).progress ==
      (if r.timePassed > 0 then AdvanceClock(s.progress, r.timePassed).0 else s.progress)
  {
    var s1 := if r.becameLover then MergeState(s, target, map["is_lover" := BoolV(true)]) else s;
    assert s1.commandsExecuted == s.commandsExecuted && s1.progress == s.progress;
    var s2 := s1.(commandsExecuted := s1.commandsExecuted + 1);
    var s3 := if r.timePassed > 0 then AdvanceSave(s2, r.timePassed).0 else s2;
    if r.affectionChange != 0 {
      var t := AddAffection(s3, target, r.affectionChange).0;
      assert t.commandsExecuted == s3.commandsExecuted && t.progress == s3.progress;
    }
  }

  /** A dispatch changes no other character's state. */
  lemma ApplyIsLocal(s: PlayerSave, target: int, cmd: int, r: CommandResult, other: int)
    requires other != target
    ensures StateOf(Some(Apply(s, target, cmd, r)), other) == StateOf(Some(s), other)
  {
    var s1 := if r.becameLover then MergeState(s, target, map["is_lover" := BoolV(true)]) else s;
    assert StateOf(Some(s1), other) == StateOf(Some(s), other) by {
      if r.becameLover {
        assert s1.characterStates - {target} == s.characterStates - {target};
        assert other in s1.characterStates <==> other in s1.characterStates - {target};
        assert other in s.characterStates <==> other in s.characterStates - {target};
      }
    }
    var s2 := s1.(commandsExecuted := s1.commandsExecuted + 1);
    var s3 := if r.timePassed > 0 then AdvanceSave(s2, r.timePassed).0 else s2;
    if r.affectionChange != 0 {
      AddAffectionIsLocal(s3, target, r.affectionChange, other);
    }
  }

  /** A successful confession leaves the target a lover with the clamped bonus. */
  lemma ConfessionMakesLover(s: PlayerSave, target: int, roll: int, tempted: bool, t: int)
    requires AffectionIn(StateOf(Some(s), target)) >= 800
    ensures var a := AffectionIn(StateOf(Some(s), target));
      var after := StateOf(Some(Apply(s, target, Confess, Handle(Confess, a, roll, tempted, t))), target);
      IsLoverIn(after) && AffectionIn(after) == Clamp(a + 100, -1000, 1000)
  {
    var a := AffectionIn(StateOf(Some(s), target));
    var r := Handle(Confess, a, roll, tempted, t);
    assert r == CommandResult(true, 100, 30, true);
    var s1 := MergeState(s, target, map["is_lover" := BoolV(true)]);
    var s2 := s1.(commandsExecuted := s1.commandsExecuted + 1);
    var s3 := AdvanceSave(s2, 30).0;
    assert Apply(s, target, Confess, r) == AddAffection(s3, target, 100).0;
    assert StateOf(Some(s3), target) == StateOf(Some(s1), target);
    LoverFlagKeepsAffection(s, target);
    AddAffectionStoresClamped(s3, target, 100);
    AddAffectionKeepsLover(s3, target, 100);
  }

  /** The manager dispatches commands against the shared game and character managers. */
  class CommandManager {
    const game: GameManager
    const characters: CharacterManager
    const catalog: Catalog
    const conversationTime: int

    ghost predicate Valid()
      reads this
    {
      characters.game == game && WellFormed(catalog)
    }

    constructor (game: GameManager, characters: CharacterManager, catalog: Catalog, conversationTime: int)
      requires characters.game == game && WellFormed(catalog)
      ensures Valid() && this.game == game && this.characters == characters
      ensures this.catalog == catalog && this.conversationTime == conversationTime
    {
      this.game := game;
      this.characters := characters;
      this.catalog := catalog;
      this.conversationTime := conversationTime;
    }

    /** `get_available_commands`: nothing without a save or a (non-zero) target; otherwise the unlocked candidates. */
    method GetAvailableCommands(id: int, category: Option<string>) returns (r: seq<(int, string)>)
      requires Valid()
      ensures id !in game.saves || game.saves[id].progress.target.None? || game.saves[id].progress.target.value == 0 ==> r == []
      ensures id in game.saves && game.saves[id].progress.target.Some? && game.saves[id].progress.target.value != 0 ==>
        r == Unlocked(catalog, CandidateIds(catalog, category),
                      Level(AffectionIn(StateOf(Some(game.saves[id]), game.saves[id].progress.target.value))))
    {
      if id !in game.saves || game.saves[id].progress.target.None? || game.saves[id].progress.target.value == 0 {
        return [];
      }
      var target := game.saves[id].progress.target.value;
      var level := characters.GetRelationshipLevel(id, target);
      r := CollectUnlocked(catalog, CandidateIds(catalog, category), level);
    }

    /** The effects of a handled command, in the order `execute_command` applies them. */
    method ApplyResult(id: int, target: int, cmd: int, result: CommandResult)
      requires Valid() && id in game.saves
      modifies game
      ensures game.loaded == old(game.loaded)
      ensures game.saves == old(game.saves)[id := Apply(old(game.saves)[id], target, cmd, result)]
    {
      ghost var save := game.saves[id];
      ghost var s1 := if result.becameLover then MergeState(save, target, map["is_lover" := BoolV(true)]) else save;
      if result.becameLover {
        characters.SetLover(id, target, true);
      }
      assert game.saves == old(game.saves)[id := s1];
      ghost var s2 := s1.(commandsExecuted := s1.commandsExecuted + 1);
      game.IncrementCommandCount(id);
      assert game.saves == old(game.saves)[id := s2];
      ghost var s3 := if result.timePassed > 0 then AdvanceSave(s2, result.timePassed).0 else s2;
      if result.timePassed > 0 {
        var _ := game.AdvanceTime(id, result.timePassed);
      }
      assert game.saves == old(game.saves)[id := s3];
      if result.affectionChange != 0 {
        var _ := characters.AddAffectionOf(id, target, result.affectionChange);
      }
    }

    /** `execute_command`. */
    method ExecuteCommand(id: int, cmd: int, roll: int, tempted: bool) returns (outcome: Result<CommandResult, Refusal>)
      requires Valid()
      modifies game
      ensures game.loaded == old(game.loaded)
      ensures outcome.Err? ==> game.saves == old(game.saves)
      ensures outcome == Err(NoSave) <==> id !in old(game.saves)
      ensures outcome == Err(NoTarget) <==> (id in old(game.saves) &&
        (old(game.saves)[id].progress.target.None? || old(game.saves)[id].progress.target.value == 0))
      ensures outcome == Err(NoCharacter) <==> (id in old(game.saves) &&
        old(game.saves)[id].progress.target.Some? && old(game.saves)[id].progress.target.value != 0 &&
        characters.GetCharacter(old(game.saves)[id].progress.target.value).None?)
      ensures outcome.Ok? ==> characters.GetCharacter(old(game.saves)[id].progress.target.value).Some?
      ensures outcome.Ok? ==>
        id in old(game.saves) &&
        var target := old(game.saves)[id].progress.target.value;
        var a := AffectionIn(StateOf(Some(old(game.saves)[id]), target));
        outcome.value == Handle(cmd, a, roll, tempted, conversationTime) &&
        game.saves == old(game.saves)[id := Apply(old(game.saves)[id], target, cmd, outcome.value)]
    {
      if id !in game.saves {
        return Err(NoSave);
      }
      var save := game.saves[id];
      if save.progress.target.None? || save.progress.target.value == 0 {
        return Err(NoTarget);
      }
      var target := save.progress.target.value;
      if characters.GetCharacter(target).None? {
        return Err(NoCharacter);
      }
      var a := characters.GetAffection(id, target);
      var result := Handle(cmd, a, roll, tempted, conversationTime);
      ApplyResult(id, target, cmd, result);
      outcome := Ok(result);
    }
  }
}
