/**
 * The eraTW character manager: per-player character state dictionaries
 * held in the save (affection, lover flag, times met), the clamped
 * affection update, relationship levels, and the list of characters
 * ordered by affection.
 */
module EraCharacterManager {
  import opened Wrappers
  import opened EraPlayer
  import opened EraCharacter
  import opened EraRelationship
  import opened EraGameManager

  const MinAffection := -1000
  const MaxAffection := 1000

  function Clamp(v: int, lo: int, hi: int): (r: int)
    requires lo <= hi
    ensures lo <= r <= hi
    ensures lo <= v <= hi ==> r == v
  {
    if v < lo then lo else if v > hi then hi else v
  }

  /** `get_character_state`: the state of a character in a save, if both exist. */
  function StateOf(save: Option<PlayerSave>, cid: int): (r: Option<CharState>)
    ensures r.Some? <==> save.Some? && cid in save.value.characterStates
    ensures r.Some? ==> r.value == save.value.characterStates[cid]
  {
    if save.Some? && cid in save.value.characterStates then Some(save.value.characterStates[cid]) else None
  }

  /** `get_affection`: 0 without a save, a state, or an affection entry (an empty state counts as none). */
  function AffectionIn(state: Option<CharState>): (r: int)
    ensures state.None? || state.value == map[] ==> r == 0
    ensures state.Some? && "affection" in state.value && state.value["affection"].IntV? ==> r == state.value["affection"].i
  {
    if state.None? || state.value == map[] then 0 else IntEntry(state.value, "affection", 0)
  }

  /**
   * `update_character_state` on a save: creates an empty state when the
   * character has none, then overwrites the given keys.
   */
  function MergeState(s: PlayerSave, cid: int, updates: CharState): (r: PlayerSave)
    ensures cid in r.characterStates
    ensures forall k :: k in updates ==> k in r.characterStates[cid] && r.characterStates[cid][k] == updates[k]
    ensures forall k :: k !in updates ==>
      (k in r.characterStates[cid] <==> cid in s.characterStates && k in s.characterStates[cid]) &&
      (k in r.characterStates[cid] ==> r.characterStates[cid][k] == s.characterStates[cid][k])
    ensures r.characterStates - {cid} == s.characterStates - {cid}
    ensures r.(characterStates := s.characterStates) == s
  {
    var old_ := if cid in s.characterStates then s.characterStates[cid] else map[];
    s.(characterStates := s.characterStates[cid := old_ + updates])
  }

  /**
   * `add_affection` on a save: nothing happens and 0 is reported when the
   * character has no state or an empty one; otherwise the sum is clamped
   * to [-1000, 1000] and stored.
   */
  function AddAffection(s: PlayerSave, cid: int, amount: int): (r: (PlayerSave, int))
    ensures StateOf(Some(s), cid).None? || s.characterStates[cid] == map[] ==> r == (s, 0)
  {
    var state := StateOf(Some(s), cid);
    if state.None? || state.value == map[] then (s, 0)
    else
      var updated := Clamp(AffectionIn(state) + amount, MinAffection, MaxAffection);
      (MergeState(s, cid, map["affection" := IntV(updated)]), updated)
  }

  /** The stored affection is the clamped sum, and reading it back gives the reported value. */
  lemma AddAffectionStoresClamped(s: PlayerSave, cid: int, amount: int)
    requires cid in s.characterStates && s.characterStates[cid] != map[]
    ensures var (t, v) := AddAffection(s, cid, amount);
      v == Clamp(AffectionIn(StateOf(Some(s), cid)) + amount, -1000, 1000) &&
      AffectionIn(StateOf(Some(t), cid)) == v &&
      -1000 <= v <= 1000
  {
  }

  /** Adding affection to one character leaves every other character's state alone. */
  lemma AddAffectionIsLocal(s: PlayerSave, cid: int, amount: int, other: int)
    requires other != cid
    ensures StateOf(Some(AddAffection(s, cid, amount).0), other) == StateOf(Some(s), other)
  {
    var t := AddAffection(s, cid, amount).0;
    if t != s {
      assert other in t.characterStates - {cid} <==> other in s.characterStates - {cid};
      if other in s.characterStates {
        assert (t.characterStates - {cid})[other] == (s.characterStates - {cid})[other];
      }
    }
  }

  /** A relationship level can only go up with positive amounts while the value stays in range. */
  lemma AddAffectionLevelMonotone(s: PlayerSave, cid: int, amount: int)
    requires cid in s.characterStates && s.characterStates[cid] != map[]
    requires amount >= 0
    requires -1000 <= AffectionIn(StateOf(Some(s), cid))
    ensures Level(AffectionIn(StateOf(Some(s), cid))) <= Level(AddAffection(s, cid, amount).1)
  {
    var a := AffectionIn(StateOf(Some(s), cid));
    LevelMonotone(if a > 1000 then 1000 else a, AddAffection(s, cid, amount).1);
    assert Level(a) == Level(if a > 1000 then 1000 else a);
  }

  /** `is_lover`: false without a non-empty state or a boolean entry. */
  function IsLoverIn(state: Option<CharState>): (r: bool)
    ensures r ==> state.Some? && "is_lover" in state.value && state.value["is_lover"] == BoolV(true)
  {
    if state.None? || state.value == map[] then false else BoolEntry(state.value, "is_lover", false)
  }

  /** `get_times_met`. */
  function TimesMetIn(state: Option<CharState>): (r: int)
    ensures state.None? || state.value == map[] ==> r == 0
    ensures state.Some? && "times_met" in state.value && state.value["times_met"].IntV? ==> r == state.value["times_met"].i
  {
    if state.None? || state.value == map[] then 0 else IntEntry(state.value, "times_met", 0)
  }

  /** Setting the lover flag on a save makes it read back, whether or not a state existed. */
  lemma SetLoverReadsBack(s: PlayerSave, cid: int, lover: bool)
    ensures IsLoverIn(StateOf(Some(MergeState(s, cid, map["is_lover" := BoolV(lover)])), cid)) == lover
  {
    var t := MergeState(s, cid, map["is_lover" := BoolV(lover)]);
    assert "is_lover" in t.characterStates[cid];
  }

  /** Setting the lover flag keeps the affection and leaves a non-empty state. */
  lemma LoverFlagKeepsAffection(s: PlayerSave, cid: int)
    ensures var t := MergeState(s, cid, map["is_lover" := BoolV(true)]);
      IsLoverIn(StateOf(Some(t), cid)) && t.characterStates[cid] != map[] &&
      AffectionIn(StateOf(Some(t), cid)) == AffectionIn(StateOf(Some(s), cid))
  {
    var t := MergeState(s, cid, map["is_lover" := BoolV(true)]);
    assert "is_lover" in t.characterStates[cid];
    assert "affection" !in map["is_lover" := BoolV(true)];
  }

  /** Adding affection keeps the lover flag. */
  lemma AddAffectionKeepsLover(s: PlayerSave, cid: int, amount: int)
    requires IsLoverIn(StateOf(Some(s), cid))
    ensures IsLoverIn(StateOf(Some(AddAffection(s, cid, amount).0), cid))
  {
    var t := AddAffection(s, cid, amount).0;
    if t != s {
      var updated := Clamp(AffectionIn(StateOf(Some(s), cid)) + amount, MinAffection, MaxAffection);
      assert "is_lover" !in map["affection" := IntV(updated)];
      assert "is_lover" in t.characterStates[cid];
    }
  }

  /** A character with its affection, as listed by `get_characters_by_affection`. */
  datatype Entry = Entry(character: Character, affection: int)

  predicate SortedDesc(s: seq<Entry>) {
    forall i, j :: 0 <= i < j < |s| ==> s[i].affection >= s[j].affection
  }

  /** Inserts before the first entry with no more affection, so earlier equals stay in front. */
  function Insert(x: Entry, s: seq<Entry>): (r: seq<Entry>)
    ensures multiset(r) == multiset(s) + multiset{x}
  {
    if s == [] || x.affection >= s[0].affection then [x] + s
    else
      assert s == [s[0]] + s[1..];
      [s[0]] + Insert(x, s[1..])
  }

  lemma {:induction false} InsertSorted(x: Entry, s: seq<Entry>)
    requires SortedDesc(s)
    ensures SortedDesc(Insert(x, s))
  {
    if s != [] && x.affection < s[0].affection {
      var rest := Insert(x, s[1..]);
      InsertSorted(x, s[1..]);
      forall e | e in s[1..] ensures e.affection <= s[0].affection {
        var k :| 0 <= k < |s[1..]| && s[1..][k] == e;
        assert s[k + 1] == e;
      }
      InsertUnder(x, s[1..], s[0].affection);
      var r := [s[0]] + rest;
      forall i, j | 0 <= i < j < |r| ensures r[i].affection >= r[j].affection {
        if i > 0 {
          assert r[i] == rest[i - 1] && r[j] == rest[j - 1];
        } else {
          assert r[j] in rest;
        }
      }
    }
  }

  /** Inserting an entry under a bound into entries under it leaves every entry under it. */
  lemma InsertUnder(x: Entry, s: seq<Entry>, b: int)
    requires x.affection <= b
    requires forall e | e in s :: e.affection <= b
    ensures forall e | e in Insert(x, s) :: e.affection <= b
  {
    forall e | e in Insert(x, s) ensures e.affection <= b {
      assert e in multiset(Insert(x, s));
      assert e == x || e in multiset(s);
    }
  }

  /** Python's stable `sort(key=affection, reverse=True)`, as an insertion sort. */
  function SortDesc(s: seq<Entry>): (r: seq<Entry>)
    ensures SortedDesc(r) && multiset(r) == multiset(s)
  {
    if s == [] then []
    else
      assert s == [s[0]] + s[1..];
      var t := SortDesc(s[1..]);
      InsertSorted(s[0], t);
      Insert(s[0], t)
  }

  /** The entries holding a given affection value, in order. */
  function WithAffection(s: seq<Entry>, v: int): seq<Entry> {
    if s == [] then [] else (if s[0].affection == v then [s[0]] else []) + WithAffection(s[1..], v)
  }

  lemma {:induction false} InsertIsStable(x: Entry, s: seq<Entry>, v: int)
    ensures WithAffection(Insert(x, s), v) == (if x.affection == v then [x] else []) + WithAffection(s, v)
  {
    var hx: seq<Entry> := if x.affection == v then [x] else [];
    if s == [] || x.affection >= s[0].affection {
      assert ([x] + s)[1..] == s;
    } else {
      var rest := Insert(x, s[1..]);
      var h0: seq<Entry> := if s[0].affection == v then [s[0]] else [];
      calc {
        WithAffection(Insert(x, s), v);
        WithAffection([s[0]] + rest, v);
        { assert ([s[0]] + rest)[1..] == rest; }
        h0 + WithAffection(rest, v);
        { InsertIsStable(x, s[1..], v); }
        h0 + (hx + WithAffection(s[1..], v));
        { assert hx == [] || h0 == []; }
        hx + (h0 + WithAffection(s[1..], v));
        hx + WithAffection(s, v);
      }
    }
  }

  /** Sorting keeps entries of equal affection in their original order. */
  lemma {:induction false} SortDescIsStable(s: seq<Entry>, v: int)
    ensures WithAffection(SortDesc(s), v) == WithAffection(s, v)
  {
    if s != [] {
      SortDescIsStable(s[1..], v);
      InsertIsStable(s[0], SortDesc(s[1..]), v);
    }
  }

  /** The characters with at least the minimum affection, paired with it, in load order. */
  function Qualifying(chars: seq<Character>, save: Option<PlayerSave>, minAffection: int): (r: seq<Entry>)
    ensures |r| <= |chars|
  {
    if chars == [] then []
    else
      var c := chars[|chars| - 1];
      var a := AffectionIn(StateOf(save, c.id));
      Qualifying(chars[..|chars| - 1], save, minAffection) + (if a >= minAffection then [Entry(c, a)] else [])
  }

  /** Every listed character qualifies, and every qualifying character is listed. */
  lemma {:induction false} QualifyingSpec(chars: seq<Character>, save: Option<PlayerSave>, minAffection: int)
    ensures var r := Qualifying(chars, save, minAffection);
      (forall e :: e in r ==> e.affection >= minAffection && e.character in chars &&
                              e.affection == AffectionIn(StateOf(save, e.character.id))) &&
      (forall c :: c in chars && AffectionIn(StateOf(save, c.id)) >= minAffection ==>
                   Entry(c, AffectionIn(StateOf(save, c.id))) in r)
  {
    if chars != [] {
      var init := chars[..|chars| - 1];
      QualifyingSpec(init, save, minAffection);
      assert forall d :: d in chars ==> d in init || d == chars[|chars| - 1];
      assert forall d :: d in init ==> d in chars;
    }
  }

  /** `get_characters_by_affection` on a character list. */
  function ByAffection(chars: seq<Character>, save: Option<PlayerSave>, minAffection: int): (r: seq<Entry>)
    ensures SortedDesc(r)
    ensures multiset(r) == multiset(Qualifying(chars, save, minAffection))
  {
    SortDesc(Qualifying(chars, save, minAffection))
  }

  /** The list is sorted by affection, holds exactly the qualifying characters, and is stable. */
  lemma ByAffectionSpec(chars: seq<Character>, save: Option<PlayerSave>, minAffection: int, v: int)
    ensures var r := ByAffection(chars, save, minAffection);
      SortedDesc(r) &&
      multiset(r) == multiset(Qualifying(chars, save, minAffection)) &&
      (forall e :: e in r ==> e.affection >= minAffection && e.character in chars) &&
      (forall c :: c in chars && AffectionIn(StateOf(save, c.id)) >= minAffection ==>
                   Entry(c, AffectionIn(StateOf(save, c.id))) in r) &&
      WithAffection(r, v) == WithAffection(Qualifying(chars, save, minAffection), v)
  {
    var q := Qualifying(chars, save, minAffection);
    var r := ByAffection(chars, save, minAffection);
    SortDescIsStable(q, v);
    QualifyingSpec(chars, save, minAffection);
    forall e | e in r ensures e.affection >= minAffection && e.character in chars {
      assert e in multiset(q);
    }
    forall c | c in chars && AffectionIn(StateOf(save, c.id)) >= minAffection
      ensures Entry(c, AffectionIn(StateOf(save, c.id))) in r
    {
      assert Entry(c, AffectionIn(StateOf(save, c.id))) in multiset(q);
    }
  }

  /** The manager works on the game manager's saves and loaded characters. */
  class CharacterManager {
    const game: GameManager

    constructor (game: GameManager)
      ensures this.game == game
    {
      this.game := game;
    }

    function GetCharacter(cid: int): (r: Option<Character>)
      reads game
      ensures r.Some? <==> game.loaded.Some? && cid in game.loaded.value.byId
      ensures r.Some? ==> r.value == game.loaded.value.byId[cid]
    {
      if game.loaded.Some? && cid in game.loaded.value.byId then Some(game.loaded.value.byId[cid]) else None
    }

    function GetCharacterState(id: int, cid: int): (r: Option<CharState>)
      reads game
      ensures r.Some? <==> id in game.saves && cid in game.saves[id].characterStates
      ensures r.Some? ==> r.value == game.saves[id].characterStates[cid]
    {
      StateOf(game.GetPlayerSave(id), cid)
    }

    method UpdateCharacterState(id: int, cid: int, updates: CharState) returns (ok: bool)
      modifies game
      ensures ok == (id in old(game.saves))
      ensures ok ==> game.saves == old(game.saves)[id := MergeState(old(game.saves)[id], cid, updates)]
      ensures !ok ==> game.saves == old(game.saves)
      ensures game.loaded == old(game.loaded)
    {
      if id !in game.saves {
        return false;
      }
      game.saves := game.saves[id := MergeState(game.saves[id], cid, updates)];
      return true;
    }

    function GetAffection(id: int, cid: int): (r: int)
      reads game
      ensures id !in game.saves || cid !in game.saves[id].characterStates ==> r == 0
    {
      AffectionIn(GetCharacterState(id, cid))
    }

    method AddAffectionOf(id: int, cid: int, amount: int) returns (updated: int)
      modifies game
      ensures id !in old(game.saves) ==> updated == 0 && game.saves == old(game.saves)
      ensures id in old(game.saves) ==>
        game.saves == old(game.saves)[id := AddAffection(old(game.saves)[id], cid, amount).0] &&
        updated == AddAffection(old(game.saves)[id], cid, amount).1
      ensures game.loaded == old(game.loaded)
    {
      var state := GetCharacterState(id, cid);
      if state.None? || state.value == map[] {
        return 0;
      }
      updated := Clamp(AffectionIn(state) + amount, MinAffection, MaxAffection);
      var _ := UpdateCharacterState(id, cid, map["affection" := IntV(updated)]);
    }

    function GetRelationshipLevel(id: int, cid: int): (r: nat)
      reads game
      ensures r <= 5
      ensures id !in game.saves ==> r == 0
    {
      Level(GetAffection(id, cid))
    }

    function GetRelationshipName(id: int, cid: int): (r: string)
      reads game
      ensures r != "未知"
    {
      LevelName(GetRelationshipLevel(id, cid))
    }

    function IsLover(id: int, cid: int): (r: bool)
      reads game
      ensures r ==> id in game.saves && cid in game.saves[id].characterStates
    {
      IsLoverIn(GetCharacterState(id, cid))
    }

    method SetLover(id: int, cid: int, lover: bool)
      modifies game
      ensures id in old(game.saves) ==>
        game.saves == old(game.saves)[id := MergeState(old(game.saves)[id], cid, map["is_lover" := BoolV(lover)])]
      ensures id !in old(game.saves) ==> game.saves == old(game.saves)
      ensures game.loaded == old(game.loaded)
    {
      var _ := UpdateCharacterState(id, cid, map["is_lover" := BoolV(lover)]);
    }

    function GetTimesMet(id: int, cid: int): (r: int)
      reads game
      ensures id !in game.saves || cid !in game.saves[id].characterStates ==> r == 0
    {
      TimesMetIn(GetCharacterState(id, cid))
    }

    /** Returns the previous count plus one, and stores it when the player has a save. */
    method IncrementTimesMet(id: int, cid: int) returns (times: int)
      modifies game
      ensures times == old(GetTimesMet(id, cid)) + 1
      ensures id in old(game.saves) ==>
        game.saves == old(game.saves)[id := MergeState(old(game.saves)[id], cid, map["times_met" := IntV(times)])]
      ensures id !in old(game.saves) ==> game.saves == old(game.saves)
      ensures game.loaded == old(game.loaded)
    {
      times := GetTimesMet(id, cid) + 1;
      var _ := UpdateCharacterState(id, cid, map["times_met" := IntV(times)]);
    }

    /** `get_characters_by_affection`: filters the loaded characters in a loop, then sorts. */
    method GetCharactersByAffection(id: int, minAffection: int) returns (r: seq<Entry>)
      requires game.Valid()
      ensures game.loaded.None? ==> r == []
      ensures game.loaded.Some? ==> r == ByAffection(Values(game.loaded.value), game.GetPlayerSave(id), minAffection)
    {
      if game.loaded.None? {
        return [];
      }
      var chars := Values(game.loaded.value);
      var save := game.GetPlayerSave(id);
      var result: seq<Entry> := [];
      var i := 0;
      while i < |chars|
        invariant 0 <= i <= |chars|
        invariant result == Qualifying(chars[..i], save, minAffection)
      {
        var a := AffectionIn(StateOf(save, chars[i].id));
        assert chars[..i + 1][..i] == chars[..i];
        if a >= minAffection {
          result := result + [Entry(chars[i], a)];
        }
        i := i + 1;
      }
      assert chars[..|chars|] == chars;
      r := SortDesc(result);
    }
  }
}
