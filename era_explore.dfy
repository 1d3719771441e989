/**
 * The map-exploration version of the eraTW game: locations joined by a
 * fixed connection table, characters found at fixed locations, and a
 * per-player record of location, clock, money and affection updated by
 * moving, talking, patting and giving gifts.
 *
 * Random draws are parameters reduced into their range (see `Roll`).
 */
module EraExplore {
  import opened Wrappers
  import opened EraPlayer
  import opened EraRelationship
  import opened Text
  import EraCommandManager
  import EraCharacterManager

  datatype LocationType =
    | HakureiShrine | ScarletManor | HumanVillage | MagicForest
    | MoriyaShrine | Eientei | Underground | Netherworld

  /** `LOCATION_CONNECTIONS`: where the move menu offers to go from each location. */
  function Connections(l: LocationType): (r: seq<LocationType>)
    ensures r != [] && l !in r
    ensures l in ReachableFromShrine ==> forall k :: 0 <= k < |r| ==> r[k] in ReachableFromShrine
  {
    match l
    case HakureiShrine => [HumanVillage, MagicForest]
    case HumanVillage => [HakureiShrine, ScarletManor, MagicForest]
    case ScarletManor => [HumanVillage]
    case MagicForest => [HakureiShrine, HumanVillage, MoriyaShrine]
    case MoriyaShrine => [MagicForest]
    case Eientei => [HumanVillage]
    case Underground => [MoriyaShrine]
    case Netherworld => [HakureiShrine]
  }

  /** The locations a player starting at the Hakurei shrine can visit. */
  const ReachableFromShrine: set<LocationType> := {HakureiShrine, HumanVillage, MagicForest, ScarletManor, MoriyaShrine}

  /** A route that follows the move menu at every step. */
  predicate IsRoute(p: seq<LocationType>) {
    forall i :: 0 < i < |p| ==> p[i] in Connections(p[i - 1])
  }

  /** No route from the shrine ever leaves the reachable set. */
  lemma {:induction false} RoutesStayReachable(p: seq<LocationType>)
    requires |p| >= 1 && p[0] == HakureiShrine && IsRoute(p)
    ensures forall i :: 0 <= i < |p| ==> p[i] in ReachableFromShrine
  {
    if |p| > 1 {
      var init := p[..|p| - 1];
      assert IsRoute(init) by {
        forall i | 0 < i < |init| ensures init[i] in Connections(init[i - 1]) {
          assert init[i] == p[i] && init[i - 1] == p[i - 1];
        }
      }
      RoutesStayReachable(init);
      assert p[|p| - 2] == init[|init| - 1];
      assert p[|p| - 1] in Connections(p[|p| - 2]);
      forall i | 0 <= i < |p| ensures p[i] in ReachableFromShrine {
        if i < |p| - 1 {
          assert p[i] == init[i];
        }
      }
    }
  }

  /** Every location of the reachable set is the end of some route from the shrine. */
  lemma EveryReachableHasRoute(l: LocationType)
    requires l in ReachableFromShrine
    ensures exists p :: |p| >= 1 && p[0] == HakureiShrine && IsRoute(p) && p[|p| - 1] == l
  {
    var p: seq<LocationType> := match l
      case HakureiShrine => [HakureiShrine]
      case HumanVillage => [HakureiShrine, HumanVillage]
      case MagicForest => [HakureiShrine, MagicForest]
      case ScarletManor => [HakureiShrine, HumanVillage, ScarletManor]
      case _ => [HakureiShrine, MagicForest, MoriyaShrine];
    assert IsRoute(p);
  }

  /** Eientei, the underground and the netherworld can never be visited. */
  lemma UnreachableLocations(p: seq<LocationType>)
    requires |p| >= 1 && p[0] == HakureiShrine && IsRoute(p)
    ensures Eientei !in p && Underground !in p && Netherworld !in p
  {
    RoutesStayReachable(p);
  }

  /** `CHARACTER_LOCATIONS`: where each character may be met, in table order. */
  const CharacterOrder: seq<int> := [1, 11, 15, 16, 50, 26, 23, 31, 38, 54]

  function CharacterLocations(cid: int): (r: seq<LocationType>)
    ensures r != [] <==> cid in CharacterOrder
  {
    if cid == 1 then [HakureiShrine]
    else if cid == 11 then [MagicForest, HakureiShrine]
    else if cid in {15, 16, 50, 54} then [ScarletManor]
    else if cid == 26 then [HakureiShrine, Netherworld]
    else if cid == 23 then [Netherworld]
    else if cid == 31 then [MoriyaShrine]
    else if cid == 38 then [Underground]
    else []
  }

  /** The characters that may be met at a location, in table order. */
  function CharactersAt(l: LocationType): (r: seq<int>)
    ensures forall c :: c in r <==> c in CharacterOrder && l in CharacterLocations(c)
  {
    Filter(CharacterOrder, l)
  }

  function Filter(ids: seq<int>, l: LocationType): (r: seq<int>)
    ensures forall c :: c in r <==> c in ids && l in CharacterLocations(c)
  {
    if ids == [] then []
    else (if l in CharacterLocations(ids[0]) then [ids[0]] else []) + Filter(ids[1..], l)
  }

  /** The character a view shows: a random one of those present, or nobody. */
  function PickCharacter(l: LocationType, roll: int): (r: Option<int>)
    ensures r.None? <==> CharactersAt(l) == []
    ensures r.Some? ==> r.value in CharacterOrder && l in CharacterLocations(r.value)
  {
    var here := CharactersAt(l);
    if here == [] then None
    else
      var c := here[roll % |here|];
      assert c in here;
      Some(c)
  }

  /** Youmu (23) and Koishi (38) live only where no route leads, so they are never met. */
  lemma SomeCharactersNeverMet(p: seq<LocationType>)
    requires |p| >= 1 && p[0] == HakureiShrine && IsRoute(p)
    ensures forall i :: 0 <= i < |p| ==> 23 !in CharactersAt(p[i]) && 38 !in CharactersAt(p[i])
  {
    RoutesStayReachable(p);
    forall i | 0 <= i < |p| ensures 23 !in CharactersAt(p[i]) && 38 !in CharactersAt(p[i]) {
      assert p[i] !in CharacterLocations(23) && p[i] !in CharacterLocations(38);
    }
  }

  /** `time_period`: no dawn here, and the evening runs to 21:00. */
  function TimePeriod(time: int): (r: string)
    ensures r == "☀️ 早晨" <==> 360 <= time < 720
    ensures r == "🌤️ 下午" <==> 720 <= time < 1080
    ensures r == "🌆 傍晚" <==> 1080 <= time < 1260
    ensures r == "🌙 夜晚" <==> time < 360 || 1260 <= time
  {
    var h := time / 60;
    if 6 <= h < 12 then "☀️ 早晨"
    else if 12 <= h < 18 then "🌤️ 下午"
    else if 18 <= h < 21 then "🌆 傍晚"
    else "🌙 夜晚"
  }

  /** `_get_relationship_name`: the emoji and label of the shared level thresholds. */
  function RelationshipName(affection: int): (r: string)
    ensures r == LevelEmoji[Level(affection)] + " " + LevelLabels[Level(affection)]
  {
    if affection >= 900 then "💕 戀人"
    else if affection >= 700 then "💗 親密"
    else if affection >= 500 then "💖 好友"
    else if affection >= 300 then "❤️ 朋友"
    else if affection >= 100 then "🧡 認識"
    else "💔 陌生"
  }

  const MinAffection := -100
  const MaxAffection := 1000
  const MoveTime := 30
  const GiftCost := 100

  /** The value of a player's record. */
  datatype Player = Player(discordId: int, location: LocationType, day: int, time: int, money: int, affections: map<int, int>)

  function NewPlayer(id: int): (r: Player)
    ensures r.discordId == id && r.location == HakureiShrine && r.day == 1 && r.money == 1000
    ensures FormattedTime(r.time) == "06:00" && TimePeriod(r.time) == "☀️ 早晨"
    ensures forall cid :: AffectionOf(r, cid) == 0
  {
    Player(id, HakureiShrine, 1, 360, 1000, map[])
  }

  function AffectionOf(p: Player, cid: int): int {
    if cid in p.affections then p.affections[cid] else 0
  }

  /** `add_affection`: the sum clamped to [-100, 1000], stored and returned. */
  function WithAffection(p: Player, cid: int, amount: int): (r: (Player, int))
    ensures -100 <= r.1 <= 1000 && AffectionOf(r.0, cid) == r.1
    ensures r.1 == (if AffectionOf(p, cid) + amount < -100 then -100
                    else if AffectionOf(p, cid) + amount > 1000 then 1000
                    else AffectionOf(p, cid) + amount)
    ensures r.0.affections - {cid} == p.affections - {cid}
    ensures r.0.(affections := p.affections) == p
  {
    var v := EraCharacterManager.Clamp(AffectionOf(p, cid) + amount, MinAffection, MaxAffection);
    (p.(affections := p.affections[cid := v]), v)
  }

  /** The result of an interaction button. */
  datatype Interaction = NobodyHere | NotEnoughMoney | Changed(delta: int, affection: int)

  /** The talk button: a gain of 2..8 and ten minutes. */
  function Talk(p: Player, here: Option<int>, roll: int): (r: (Player, Interaction))
    ensures here.None? ==> r == (p, NobodyHere)
    ensures here.Some? ==> (r.1.Changed? && 2 <= r.1.delta <= 8
      && r.1.affection == AffectionOf(r.0, here.value)
      && r.0.time == p.time + 10 && r.0.money == p.money && r.0.location == p.location)
  {
    if here.None? then (p, NobodyHere)
    else
      var delta := EraCommandManager.Roll(2, 8, roll);
      var (q, v) := WithAffection(p, here.value, delta);
      (q.(time := q.time + 10), Changed(delta, v))
  }

  /** The headpat button: below 100 affection the character dodges for -5; otherwise a gain of 5..15. Five minutes either way. */
  function Headpat(p: Player, here: Option<int>, roll: int): (r: (Player, Interaction))
    ensures here.None? ==> r == (p, NobodyHere)
    ensures here.Some? ==> (r.1.Changed? && r.1.affection == AffectionOf(r.0, here.value)
      && (r.1.delta == -5 <==> AffectionOf(p, here.value) < 100)
      && (AffectionOf(p, here.value) >= 100 ==> 5 <= r.1.delta <= 15)
      && r.0.time == p.time + 5 && r.0.money == p.money && r.0.location == p.location)
  {
    if here.None? then (p, NobodyHere)
    else
      var delta := if AffectionOf(p, here.value) < 100 then -5 else EraCommandManager.Roll(5, 15, roll);
      var (q, v) := WithAffection(p, here.value, delta);
      (q.(time := q.time + 5), Changed(delta, v))
  }

  /** The gift button: refused with no change below 100 money; otherwise costs 100 and gains 10..25 in five minutes. */
  function Gift(p: Player, here: Option<int>, roll: int): (r: (Player, Interaction))
    ensures here.None? ==> r == (p, NobodyHere)
    ensures r.1.NotEnoughMoney? <==> here.Some? && p.money < GiftCost
    ensures r.1.Changed? ==> (here.Some? && 10 <= r.1.delta <= 25
      && r.1.affection == AffectionOf(r.0, here.value)
      && r.0.money == p.money - GiftCost && r.0.time == p.time + 5 && r.0.location == p.location)
  {
    if here.None? then (p, NobodyHere)
    else if p.money < GiftCost then (p, NotEnoughMoney)
    else
      var delta := EraCommandManager.Roll(10, 25, roll);
      var (q, v) := WithAffection(p.(money := p.money - GiftCost), here.value, delta);
      (q.(time := q.time + 5), Changed(delta, v))
  }

  /** Gifts never take money below zero, and a refused gift changes nothing. */
  lemma GiftKeepsMoneyNonNegative(p: Player, here: Option<int>, roll: int)
    requires p.money >= 0
    ensures Gift(p, here, roll).0.money >= 0
    ensures Gift(p, here, roll).1 == NotEnoughMoney <==> here.Some? && p.money < 100
    ensures Gift(p, here, roll).1.NotEnoughMoney? ==> Gift(p, here, roll).0 == p
  {
  }

  /** A headpat below 100 affection costs exactly 5 (down to the floor of -100). */
  lemma HeadpatPenalty(p: Player, cid: int, roll: int)
    requires AffectionOf(p, cid) < 100
    ensures var (q, r) := Headpat(p, Some(cid), roll);
      r == Changed(-5, AffectionOf(q, cid)) &&
      AffectionOf(q, cid) == (if AffectionOf(p, cid) - 5 < -100 then -100 else AffectionOf(p, cid) - 5)
  {
  }

  /** A move to an offered location: thirty minutes pass and the clock is never wrapped. */
  function Move(p: Player, to: LocationType): (r: Player)
    ensures r.location == to && r.time == p.time + MoveTime
    ensures r.(location := p.location, time := p.time) == p
  {
    p.(location := to, time := p.time + MoveTime)
  }

  /** The clock is never reduced: after enough moves the display reads past 24:00. */
  lemma ClockNeverWraps()
    ensures var p := Move(NewPlayer(0).(time := 1430), HumanVillage);
      p.day == 1 && p.time == 1460 && FormattedTime(p.time) == "24:20"
  {
  }

  /** A player record, updated in place by the move menu and the interaction buttons. */
  class PlayerData {
    const discordId: int
    var location: LocationType
    var day: int
    var time: int
    var money: int
    var affections: map<int, int>

    function Model(): Player
      reads this
    {
      Player(discordId, location, day, time, money, affections)
    }

    ghost predicate Valid()
      reads this
    {
      location in ReachableFromShrine && money >= 0
    }

    constructor (id: int)
      ensures Model() == NewPlayer(id) && Valid()
    {
      discordId := id;
      location, day, time, money, affections := HakureiShrine, 1, 360, 1000, map[];
    }

    function GetAffection(cid: int): (r: int)
      reads this
      ensures cid !in affections ==> r == 0
      ensures cid in affections ==> r == affections[cid]
    {
      AffectionOf(Model(), cid)
    }

    method AddAffection(cid: int, amount: int) returns (v: int)
      modifies this
      ensures (Model(), v) == WithAffection(old(Model()), cid, amount)
    {
      var current := if cid in affections then affections[cid] else 0;
      v := EraCharacterManager.Clamp(current + amount, MinAffection, MaxAffection);
      affections := affections[cid := v];
    }

    function FormattedTime(): (r: string)
      reads this
      ensures 0 <= time < MinutesPerDay ==>
        |r| == 5 && r[2] == ':' && AllDigits(r[..2]) && AllDigits(r[3..]) &&
        DigitsValue(r[..2]) * 60 + DigitsValue(r[3..]) == time
    {
      EraPlayer.FormattedTime(time)
    }

    function TimePeriodNow(): (r: string)
      reads this
      ensures r == "☀️ 早晨" <==> 360 <= time < 720
      ensures r == "🌙 夜晚" <==> time < 360 || 1260 <= time
    {
      TimePeriod(time)
    }

    /**
     * The move menu. The choice is not checked against the current location: a menu
     * from an older message may offer a place not connected to where the player is now.
     * Every menu offered from a reachable location lists only reachable places (see
     * `Connections`), so any choice the menus can send keeps the player in that set.
     */
    method SelectLocation(to: LocationType)
      requires to in ReachableFromShrine
      requires Valid()
      modifies this
      ensures Model() == Move(old(Model()), to) && Valid()
    {
      location := to;
      time := time + MoveTime;
    }

    method TalkButton(here: Option<int>, roll: int) returns (r: Interaction)
      modifies this
      ensures (Model(), r) == Talk(old(Model()), here, roll)
    {
      if here.None? {
        return NobodyHere;
      }
      var delta := EraCommandManager.Roll(2, 8, roll);
      var v := AddAffection(here.value, delta);
      time := time + 10;
      r := Changed(delta, v);
    }

    method HeadpatButton(here: Option<int>, roll: int) returns (r: Interaction)
      modifies this
      ensures (Model(), r) == Headpat(old(Model()), here, roll)
    {
      if here.None? {
        return NobodyHere;
      }
      var delta := if GetAffection(here.value) < 100 then -5 else EraCommandManager.Roll(5, 15, roll);
      var v := AddAffection(here.value, delta);
      time := time + 5;
      r := Changed(delta, v);
    }

    method GiftButton(here: Option<int>, roll: int) returns (r: Interaction)
      requires Valid()
      modifies this
      ensures (Model(), r) == Gift(old(Model()), here, roll) && Valid()
    {
      if here.None? {
        return NobodyHere;
      }
      if money < GiftCost {
        return NotEnoughMoney;
      }
      money := money - GiftCost;
      var delta := EraCommandManager.Roll(10, 25, roll);
      var v := AddAffection(here.value, delta);
      time := time + 5;
      r := Changed(delta, v);
    }
  }

  /** `_player_data` with `get_player`: one record per player, created on first access. */
  class Players {
    var table: map<int, PlayerData>

    constructor ()
      ensures table == map[]
    {
      table := map[];
    }

    method GetPlayer(id: int) returns (p: PlayerData)
      modifies this
      ensures id in old(table) ==> p == old(table)[id] && table == old(table)
      ensures id !in old(table) ==> fresh(p) && p.Model() == NewPlayer(id) && p.Valid() && table == old(table)[id := p]
    {
      if id !in table {
        p := new PlayerData(id);
        table := table[id := p];
      } else {
        p := table[id];
      }
    }
  }
}
