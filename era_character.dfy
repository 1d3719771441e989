/**
 * eraTW character records: attribute groups with their defaults, the
 * visiting-hours window, the primary race name and the bust description.
 *
 * The three attribute groups (stats, abilities, talents) are dictionaries
 * from attribute name to value; a fresh group holds every attribute at
 * its declared default.
 */
module EraCharacter {

  type Attributes = map<string, int>

  const DefaultStats: Attributes := map[
    "stamina" := 2000, "max_stamina" := 2000, "energy" := 1500, "max_energy" := 1500,
    "lust" := 0, "max_lust" := 1500, "vitality" := 10000, "max_vitality" := 10000,
    "mana" := 4000, "max_mana" := 4000, "mood" := 1500, "max_mood" := 1500,
    "reason" := 1000, "max_reason" := 1000, "anger" := 0, "max_anger" := 1000,
    "depth" := 1000, "alcohol" := 0, "max_alcohol" := 1900]

  const DefaultAbilities: Attributes := map[
    "c_sensitivity" := 0, "v_sensitivity" := 0, "a_sensitivity" := 0, "b_sensitivity" := 0,
    "m_sensitivity" := 0, "intimacy" := 0, "obedience" := 0, "desire" := 0, "technique" := 0,
    "service_spirit" := 0, "exhibitionism" := 0, "masochism" := 0, "sadism" := 0, "yuri" := 0,
    "yaoi" := 0, "cleaning" := 0, "speech" := 0, "combat" := 0, "culture" := 0, "cooking" := 0,
    "music" := 0, "finger_skill" := 0, "tongue_skill" := 0, "chest_skill" := 0,
    "waist_skill" := 0, "v_skill" := 0, "a_skill" := 0]

  const DefaultTalents: Attributes := map[
    "virgin" := 0, "non_virgin" := 0, "love" := 0, "lewd" := 0,
    "submission" := 0, "courage" := 0, "attitude" := 0,
    "response" := 0, "pride" := 0, "tsundere" := 0, "mood_var" := 0, "appearance" := 0,
    "age" := 0, "body_type" := 0, "bust_size" := 0, "alcohol_tolerance" := 0,
    "tsukumogami" := 0, "doll" := 0, "extra_race" := 0, "pregnancy" := 0, "child_rearing" := 0,
    "gender" := 1, "no_kiss_exp" := 1, "lover" := 0,
    "human" := 0, "youkai" := 0, "fairy" := 0, "spirit" := 0, "ghost" := 0]

  datatype Character = Character(
    id: int,
    name: string,
    callname: string,
    stats: Attributes,
    abilities: Attributes,
    talents: Attributes,
    currentLocation: int,
    homeLocation: int,
    visitTime: int,
    leaveTime: int,
    sleepTime: int,
    wakeTime: int,
    compatibility: map<int, int>,
    description: string,
    occupation: string,
    flags: map<string, int>)

  const DefaultVisitTime := 540
  const DefaultLeaveTime := 1140
  const DefaultSleepTime := 1380
  const DefaultWakeTime := 360

  /** A character with only the required fields given: every other field at its default. */
  function NewCharacter(id: int, name: string, callname: string): Character {
    Character(id, name, callname, DefaultStats, DefaultAbilities, DefaultTalents, 0, 0,
              DefaultVisitTime, DefaultLeaveTime, DefaultSleepTime, DefaultWakeTime,
              map[], "", "", map[])
  }

  /** The value of a talent, 0 for a name outside the talent group. */
  function Talent(c: Character, name: string): int {
    if name in c.talents then c.talents[name] else 0
  }

  /** A lookup with a default, `d.get(k, default)`. */
  function Get<K, V>(m: map<K, V>, k: K, default: V): V {
    if k in m then m[k] else default
  }

  /**
   * `is_available`: an inclusive window from the visiting time to the
   * leaving time; when the visiting time is later than the leaving time
   * the window wraps past midnight.
   */
  predicate IsAvailable(c: Character, t: int) {
    if c.visitTime <= c.leaveTime then c.visitTime <= t <= c.leaveTime
    else t >= c.visitTime || t <= c.leaveTime
  }

  /** A wrapped window is exactly the complement of the gap strictly between leaving and visiting. */
  lemma WrappedWindowIsComplement(c: Character, t: int)
    requires c.visitTime > c.leaveTime + 1
    ensures IsAvailable(c, t) <==> !IsAvailable(c.(visitTime := c.leaveTime + 1, leaveTime := c.visitTime - 1), t)
  {
  }

  /** With the default schedule a character is available from 09:00 to 19:00 inclusive. */
  lemma DefaultScheduleWindow(id: int, name: string, callname: string, t: int)
    ensures IsAvailable(NewCharacter(id, name, callname), t) <==> 540 <= t <= 1140
  {
  }

  /** A character built from its id and names: at location 0 (its home), of no race, female, never kissed, nobody's lover. */
  lemma NewCharacterDefaults(id: int, name: string, callname: string)
    ensures var c := NewCharacter(id, name, callname);
      c.id == id && c.name == name && c.callname == callname && c.currentLocation == c.homeLocation == 0
      && PrimaryRace(c) == UnknownRace
      && Talent(c, "gender") == 1 && Talent(c, "no_kiss_exp") == 1 && Talent(c, "lover") == 0
  {
    var c := NewCharacter(id, name, callname);
    assert c.talents == DefaultTalents;
    assert Talent(c, "human") == 0 && Talent(c, "youkai") == 0 && Talent(c, "fairy") == 0;
    assert Talent(c, "spirit") == 0 && Talent(c, "ghost") == 0;
  }

  const HumanRaces: map<int, string> := map[1 := "人類", 2 := "仙人", 3 := "天人", 4 := "月人", 5 := "魔界人", 6 := "外界人"]
  const YoukaiRaces: map<int, string> := map[
    1 := "妖怪", 2 := "鬼", 3 := "吸血鬼", 4 := "河童", 5 := "天狗", 6 := "妖獸", 7 := "妖鳥", 8 := "妖蟲", 9 := "惡魔"]
  const SpiritRaces: map<int, string> := map[1 := "神靈", 2 := "死神", 3 := "閻魔"]
  const UnknownRace := "不明"

  /**
   * `get_primary_race`: human, then youkai, then fairy, then spirit, then
   * ghost; the first positive talent decides, and an unlisted positive
   * sub-code gives the category's own name.
   */
  function PrimaryRace(c: Character): (r: string)
    ensures r == UnknownRace <==>
      (Talent(c, "human") <= 0 && Talent(c, "youkai") <= 0 && Talent(c, "fairy") <= 0 &&
       Talent(c, "spirit") <= 0 && Talent(c, "ghost") <= 0)
  {
    var human := Talent(c, "human");
    var youkai := Talent(c, "youkai");
    var spirit := Talent(c, "spirit");
    if human > 0 then Get(HumanRaces, human, "人類")
    else if youkai > 0 then Get(YoukaiRaces, youkai, "妖怪")
    else if Talent(c, "fairy") > 0 then "妖精"
    else if spirit > 0 then Get(SpiritRaces, spirit, "神靈")
    else if Talent(c, "ghost") > 0 then "幽靈"
    else UnknownRace
  }

  /** Each category's name table, including the fallback for unlisted sub-codes. */
  lemma PrimaryRacePrecedence(c: Character)
    ensures Talent(c, "human") > 0 ==>
      PrimaryRace(c) in HumanRaces.Values && (Talent(c, "human") > 6 ==> PrimaryRace(c) == "人類")
    ensures Talent(c, "human") <= 0 && Talent(c, "youkai") > 0 ==>
      PrimaryRace(c) in YoukaiRaces.Values && (Talent(c, "youkai") > 9 ==> PrimaryRace(c) == "妖怪")
    ensures Talent(c, "human") <= 0 && Talent(c, "youkai") <= 0 && Talent(c, "fairy") > 0 ==>
      PrimaryRace(c) == "妖精"
    ensures Talent(c, "human") <= 0 && Talent(c, "youkai") <= 0 && Talent(c, "fairy") <= 0 && Talent(c, "spirit") > 0 ==>
      PrimaryRace(c) in SpiritRaces.Values && (Talent(c, "spirit") > 3 ==> PrimaryRace(c) == "神靈")
  {
    var human := Talent(c, "human");
    var youkai := Talent(c, "youkai");
    var spirit := Talent(c, "spirit");
    if human > 0 {
      assert HumanRaces[1] == "人類";
    } else if youkai > 0 {
      assert YoukaiRaces[1] == "妖怪";
    } else if Talent(c, "fairy") <= 0 && spirit > 0 {
      assert SpiritRaces[1] == "神靈";
    }
  }

  const BustNames: map<int, string> := map[-2 := "绝壁", -1 := "贫乳", 0 := "普通", 1 := "巨乳", 2 := "爆乳"]

  /** `get_bust_description`: -2..2 have fixed names; any other size reads as ordinary. */
  function BustDescription(c: Character): (r: string)
    ensures r in BustNames.Values
    ensures r == "普通" <==> (Talent(c, "bust_size") == 0 || Talent(c, "bust_size") < -2 || Talent(c, "bust_size") > 2)
  {
    var size := Talent(c, "bust_size");
    assert BustNames[0] == "普通";
    Get(BustNames, size, "普通")
  }

  /**
   * The loaded characters by id, with the order in which they were
   * loaded (a Python dictionary keeps insertion order).
   */
  datatype CharacterTable = CharacterTable(order: seq<int>, byId: map<int, Character>)

  predicate TableWellFormed(t: CharacterTable) {
    (forall i :: 0 <= i < |t.order| ==> t.order[i] in t.byId) &&
    (forall k :: k in t.byId ==> k in t.order) &&
    (forall i, j :: 0 <= i < j < |t.order| ==> t.order[i] != t.order[j])
  }

  /** `list(characters.values())`: the characters in load order. */
  function Values(t: CharacterTable): (r: seq<Character>)
    requires TableWellFormed(t)
    ensures |r| == |t.order| && forall i :: 0 <= i < |r| ==> r[i] == t.byId[t.order[i]]
  {
    seq(|t.order|, i requires 0 <= i < |t.order| && TableWellFormed(t) => t.byId[t.order[i]])
  }

  /** Character ids loaded when only the first batch of characters is wanted. */
  const MvpCharacterIds: seq<int> := [1, 11, 15, 16, 50, 26, 23, 31, 38, 54]
}
