/**
 * The pure parts of the `/pp` command and the state of its mod-selection
 * view: the mods label, the beatmap URL precedence, the ordering of a set's
 * difficulties, the starting difficulty, the length text, and the view's
 * difficulty paging, mod selection and button flags.
 */
module PpCog {
  import opened Wrappers
  import opened Text
  import OsuApi

  /** `format_mods_for_display`: "" for no mods, else "+" and the acronyms run together, upper-cased. */
  function FormatModsForDisplay(mods: seq<string>): (r: string)
    ensures mods == [] <==> r == ""
    ensures mods != [] ==> r[0] == '+' && |r| == 1 + |Concat(mods)|
  {
    if mods == [] then "" else "+" + Upper(Concat(mods))
  }

  predicate UpperAcronym(m: string) {
    |m| == 2 && Upper(m) == m
  }

  lemma {:induction false} ConcatOfPairs(mods: seq<string>)
    requires forall k :: 0 <= k < |mods| ==> |mods[k]| == 2
    ensures |Concat(mods)| == 2 * |mods|
  {
    if mods != [] {
      ConcatOfPairs(mods[1..]);
    }
  }

  lemma {:induction false} UpperConcat(mods: seq<string>)
    requires forall k :: 0 <= k < |mods| ==> Upper(mods[k]) == mods[k]
    ensures Upper(Concat(mods)) == Concat(mods)
  {
    if mods != [] {
      UpperConcat(mods[1..]);
      assert Upper(mods[0] + Concat(mods[1..])) == Upper(mods[0]) + Upper(Concat(mods[1..]));
    }
  }

  lemma {:induction false} ChunksOfConcat(mods: seq<string>)
    requires forall k :: 0 <= k < |mods| ==> |mods[k]| == 2
    ensures |Concat(mods)| % 2 == 0 && OsuApi.Chunks(Concat(mods)) == mods
  {
    ConcatOfPairs(mods);
    if mods != [] {
      ChunksOfConcat(mods[1..]);
      ConcatOfPairs(mods[1..]);
      var s := Concat(mods);
      assert s[..2] == mods[0];
      assert s[2..] == Concat(mods[1..]);
    }
  }

  /**
   * The label reads back: for upper-case two-letter acronyms, the text after
   * "+" cut into two-letter chunks (as the attributes request does) is the
   * selected list.
   */
  lemma DisplayChunksBack(mods: seq<string>)
    requires mods != []
    requires forall k :: 0 <= k < |mods| ==> UpperAcronym(mods[k])
    ensures var shown := FormatModsForDisplay(mods);
      |shown[1..]| % 2 == 0 && OsuApi.Chunks(shown[1..]) == mods
  {
    UpperConcat(mods);
    ChunksOfConcat(mods);
    assert FormatModsForDisplay(mods)[1..] == Concat(mods);
  }

  // ---------------------------------------------------------------------
  // The beatmap URL

  /**
   * What each of the three URL patterns found, tried in order: a
   * `beatmapsets/<set>` link (with an optional `#mode/<diff>`), an
   * `osu.ppy.sh/b/<diff>` link, an `osu.ppy.sh/s/<set>` link.
   */
  datatype UrlMatches = UrlMatches(setLink: Option<(int, Option<int>)>, shortB: Option<int>, shortS: Option<int>)

  datatype Ids = Ids(beatmapId: Option<int>, beatmapsetId: Option<int>)

  /** The ids taken from the first pattern that matched, or None (an invalid URL). */
  function UrlIds(m: UrlMatches): (r: Option<Ids>)
    ensures r.None? <==> m.setLink.None? && m.shortB.None? && m.shortS.None?
    ensures m.setLink.Some? ==> r == Some(Ids(m.setLink.value.1, Some(m.setLink.value.0)))
    ensures m.setLink.None? && m.shortB.Some? ==> r == Some(Ids(m.shortB, None))
    ensures m.setLink.None? && m.shortB.None? && m.shortS.Some? ==> r == Some(Ids(None, m.shortS))
  {
    match m.setLink
    case Some((setId, diff)) => Some(Ids(diff, Some(setId)))
    case None =>
      if m.shortB.Some? then Some(Ids(m.shortB, None))
      else if m.shortS.Some? then Some(Ids(None, m.shortS))
      else None
  }

  /** Python truthiness of an optional id: present and non-zero. */
  predicate Truthy(id: Option<int>) {
    id.Some? && id.value != 0
  }

  datatype Route = Difficulty(beatmapId: int, beatmapsetId: Option<int>) | WholeSet(setId: int) | Invalid

  /** The branch taken: a (non-zero) difficulty id wins, then a set id. */
  function RouteOf(ids: Option<Ids>): (r: Route)
    ensures r.Difficulty? ==> ids.Some? && ids.value.beatmapId == Some(r.beatmapId) && r.beatmapId != 0
    ensures r.WholeSet? ==> ids.Some? && !Truthy(ids.value.beatmapId) && ids.value.beatmapsetId == Some(r.setId)
    ensures r.Invalid? <==> ids.None? || (!Truthy(ids.value.beatmapId) && !Truthy(ids.value.beatmapsetId))
  {
    match ids
    case None => Invalid
    case Some(Ids(b, s)) =>
      if Truthy(b) then Difficulty(b.value, s)
      else if Truthy(s) then WholeSet(s.value)
      else Invalid
  }

  /** A set link with a difficulty always opens that difficulty, whatever the other patterns found. */
  lemma SetLinkPrecedence(setId: int, diff: int, b: Option<int>, s: Option<int>)
    requires diff != 0
    ensures RouteOf(UrlIds(UrlMatches(Some((setId, Some(diff))), b, s))) == Difficulty(diff, Some(setId))
  {
  }

  /** A difficulty id of 0 is falsy: the link is routed as its whole set. */
  lemma ZeroDifficultyOpensSet(setId: int)
    requires setId != 0
    ensures RouteOf(UrlIds(UrlMatches(Some((setId, Some(0))), None, None))) == WholeSet(setId)
  {
  }

  // ---------------------------------------------------------------------
  // Difficulties of a set

  /** A difficulty as the view sees it: its id, its `mode` and its star rating. */
  datatype Beatmap = Beatmap(id: int, mode: Option<string>, rating: real)

  const ModePriorities: seq<(string, int)> := [("osu", 0), ("taiko", 1), ("fruits", 2), ("mania", 3)]

  /** `mode_priority.get(mode, 4)`. */
  function ModePriority(b: Beatmap): (r: int)
    ensures 0 <= r <= 4
  {
    match b.mode
    case None => 4
    case Some(m) =>
      match Lookup(ModePriorities, m)
      case Some(p) => (LookupFound(ModePriorities, m); p)
      case None => 4
  }

  /** `sort_key(a) <= sort_key(b)`: mode priority, then star rating. */
  predicate KeyLe(a: Beatmap, b: Beatmap) {
    ModePriority(a) < ModePriority(b) || (ModePriority(a) == ModePriority(b) && a.rating <= b.rating)
  }

  predicate Sorted(s: seq<Beatmap>) {
    forall i, j :: 0 <= i < j < |s| ==> KeyLe(s[i], s[j])
  }

  /**
   * Insert after the elements with a strictly smaller key and before equal
   * ones: `b` came earlier than those, so a stable sort keeps it first.
   */
  function Insert(b: Beatmap, s: seq<Beatmap>): (r: seq<Beatmap>)
    ensures multiset(r) == multiset(s) + multiset{b}
    ensures |r| == |s| + 1
  {
    if s == [] then [b]
    else if !KeyLe(b, s[0]) then
      assert s == [s[0]] + s[1..];
      [s[0]] + Insert(b, s[1..])
    else
      assert s == [s[0]] + s[1..];
      [b] + s
  }

  /** `sorted(maps, key=sort_key)` as insertion from the back. */
  function SortMaps(s: seq<Beatmap>): (r: seq<Beatmap>)
    ensures multiset(r) == multiset(s)
    ensures |r| == |s|
  {
    if s == [] then []
    else
      assert s == [s[0]] + s[1..];
      Insert(s[0], SortMaps(s[1..]))
  }

  lemma {:induction false} InsertSorted(b: Beatmap, s: seq<Beatmap>)
    requires Sorted(s)
    ensures Sorted(Insert(b, s))
  {
    if s != [] && !KeyLe(b, s[0]) {
      InsertSorted(b, s[1..]);
      var r := Insert(b, s[1..]);
      forall j | 0 <= j < |r| ensures KeyLe(s[0], r[j]) {
        assert r[j] in multiset(r);
        assert r[j] in multiset(s[1..]) + multiset{b};
        if r[j] != b {
          var k :| 0 <= k < |s[1..]| && s[1..][k] == r[j];
          assert s[k + 1] == r[j];
        }
      }
    }
  }

  /** The difficulties come out ordered by mode, then by star rating, and none is lost or added. */
  lemma {:induction false} SortMapsSorted(s: seq<Beatmap>)
    ensures Sorted(SortMaps(s)) && multiset(SortMaps(s)) == multiset(s)
  {
    if s != [] {
      SortMapsSorted(s[1..]);
      InsertSorted(s[0], SortMaps(s[1..]));
    }
  }

  /** The difficulties of `s` whose sort key is (`priority`, `rating`), in list order. */
  function WithSortKey(s: seq<Beatmap>, priority: int, rating: real): (r: seq<Beatmap>)
    ensures |r| <= |s|
    ensures forall i :: 0 <= i < |r| ==> ModePriority(r[i]) == priority && r[i].rating == rating
  {
    if s == [] then []
    else (if ModePriority(s[0]) == priority && s[0].rating == rating then [s[0]] else []) + WithSortKey(s[1..], priority, rating)
  }

  /** Inserting a difficulty puts it first among those with its key. */
  lemma {:induction false} InsertFirstAmongEqual(b: Beatmap, s: seq<Beatmap>, priority: int, rating: real)
    ensures WithSortKey(Insert(b, s), priority, rating)
      == (if ModePriority(b) == priority && b.rating == rating then [b] else []) + WithSortKey(s, priority, rating)
  {
    var mb: seq<Beatmap> := if ModePriority(b) == priority && b.rating == rating then [b] else [];
    if s != [] && !KeyLe(b, s[0]) {
      var m0: seq<Beatmap> := if ModePriority(s[0]) == priority && s[0].rating == rating then [s[0]] else [];
      var rest := Insert(b, s[1..]);
      InsertFirstAmongEqual(b, s[1..], priority, rating);
      assert Insert(b, s) == [s[0]] + rest;
      assert ([s[0]] + rest)[1..] == rest;
      assert WithSortKey(Insert(b, s), priority, rating) == m0 + (mb + WithSortKey(s[1..], priority, rating));
      // `b` and `s[0]` cannot both carry the key, or `b` would not sort after `s[0]`.
      var w := WithSortKey(s[1..], priority, rating);
      assert WithSortKey(s, priority, rating) == m0 + w;
      if m0 == [] {
        assert m0 + (mb + w) == mb + w && m0 + w == w;
      } else {
        assert mb == [];
        assert mb + (m0 + w) == m0 + w && mb + w == w;
      }
    } else {
      assert Insert(b, s) == [b] + s;
      assert ([b] + s)[0] == b && ([b] + s)[1..] == s;
      assert WithSortKey([b] + s, priority, rating) == mb + WithSortKey(s, priority, rating);
    }
  }

  /**
   * The sort is stable: difficulties with the same mode priority and star
   * rating keep their order, so a set link opens on the first of equals.
   */
  lemma {:induction false} SortMapsStable(s: seq<Beatmap>, priority: int, rating: real)
    ensures WithSortKey(SortMaps(s), priority, rating) == WithSortKey(s, priority, rating)
  {
    if s != [] {
      SortMapsStable(s[1..], priority, rating);
      InsertFirstAmongEqual(s[0], SortMaps(s[1..]), priority, rating);
    }
  }

  /** `next(i for i, bm in enumerate(maps) if bm.get("id") == id)`, else 0. */
  function InitialDifficulty(maps: seq<Beatmap>, id: int): (r: nat)
    ensures maps != [] ==> r < |maps|
    ensures (exists i :: 0 <= i < |maps| && maps[i].id == id) ==> maps[r].id == id
    ensures forall i :: 0 <= i < r && i < |maps| ==> maps[i].id != id
  {
    if maps == [] then 0
    else if maps[0].id == id then 0
    else
      var rest := InitialDifficulty(maps[1..], id);
      if rest < |maps| - 1 && maps[1..][rest].id == id then rest + 1 else 0
  }

  /** `ruleset_id_map.get(mode, 0)`. */
  function RulesetOf(b: Beatmap): (r: int)
    ensures 0 <= r <= 3
  {
    match b.mode
    case None => 0
    case Some(m) =>
      match Lookup(ModePriorities, m)
      case Some(p) => (LookupFound(ModePriorities, m); p)
      case None => 0
  }

  /** The ruleset id is the mode priority for the four modes and 0 otherwise. */
  lemma RulesetIsPriority(b: Beatmap)
    ensures ModePriority(b) < 4 ==> RulesetOf(b) == ModePriority(b)
    ensures ModePriority(b) == 4 ==> RulesetOf(b) == 0
  {
  }

  /** The length text: whole minutes, ":", zero-padded seconds (floor division, as in Python). */
  function LengthText(seconds: int): (r: string)
    ensures |r| >= 4 && r[|r| - 3] == ':'
  {
    IntToString(seconds / 60) + ":" + Pad2(seconds % 60)
  }

  /** Reading the text back (minutes * 60 + seconds) gives the length. */
  lemma LengthTextReadsBack(seconds: int)
    ensures var parts := Split(LengthText(seconds), ':');
      |parts| == 2 && ParseInt(parts[0]).Some? && ParseInt(parts[1]).Some?
      && ParseInt(parts[0]).value * 60 + ParseInt(parts[1]).value == seconds
      && 0 <= ParseInt(parts[1]).value < 60
  {
    var m := IntToString(seconds / 60);
    var sec := Pad2(seconds % 60);
    NoColon(seconds / 60);
    assert Free(sec, ':');
    SplitJoin([m, sec], ':');
    assert Join([m, sec], ":") == LengthText(seconds);
    ParseIntOfIntToString(seconds / 60);
    Pad2Value(seconds % 60);
  }

  lemma NoColon(k: int)
    ensures Free(IntToString(k), ':')
  {
    var s := IntToString(k);
    forall i | 0 <= i < |s| ensures s[i] != ':' {
      if k < 0 && i > 0 {
        assert s[i] == NatToString(-k)[i - 1];
      }
    }
  }

  // ---------------------------------------------------------------------
  // The mod-selection view

  /**
   * `ModSelectView`: the difficulties of the set (empty when none were
   * given), the current difficulty index (None when none was given), the
   * target difficulty, its ruleset id, the selected mods and the `disabled`
   * flags of the two paging buttons, which exist only when paging is active.
   */
  class ModSelectView {
    const maps: seq<Beatmap>
    const hasPaging: bool
    var index: Option<int>
    var target: Beatmap
    var beatmapId: int
    var rulesetId: int
    var selectedMods: seq<string>
    var prevDisabled: bool
    var nextDisabled: bool

    predicate Valid()
      reads this
    {
      (index.Some? && maps != [] ==> 0 <= index.value < |maps|)
      && (hasPaging <==> maps != [] && index.Some?)
    }

    /** `_update_pagination_buttons_state` was applied to the current index. */
    predicate ButtonsMatch()
      reads this
    {
      hasPaging ==>
        index.Some? && prevDisabled == (index.value == 0) && nextDisabled == (index.value == |maps| - 1)
    }

    /** The id is stored as given: the requested one for a difficulty link, even when the set lacks it. */
    constructor (beatmapId: int, maps: seq<Beatmap>, index: Option<int>, target: Beatmap, rulesetId: int)
      requires index.Some? && maps != [] ==> 0 <= index.value < |maps|
      ensures this.maps == maps && this.index == index && this.target == target
      ensures this.beatmapId == beatmapId && this.rulesetId == rulesetId && selectedMods == []
      ensures hasPaging <==> maps != [] && index.Some?
      ensures Valid() && ButtonsMatch()
    {
      this.maps := maps;
      this.index := index;
      this.target := target;
      this.beatmapId := beatmapId;
      this.rulesetId := rulesetId;
      selectedMods := [];
      hasPaging := maps != [] && index.Some?;
      new;
      UpdatePaginationButtons();
    }

    method UpdatePaginationButtons()
      requires Valid()
      modifies this
      ensures Valid() && ButtonsMatch()
      ensures index == old(index) && target == old(target) && beatmapId == old(beatmapId)
      ensures rulesetId == old(rulesetId) && selectedMods == old(selectedMods)
      ensures !hasPaging ==> prevDisabled && nextDisabled
    {
      if maps == [] || index.None? {
        prevDisabled := true;
        nextDisabled := true;
        return;
      }
      prevDisabled := index.value == 0;
      nextDisabled := index.value == |maps| - 1;
    }

    /**
     * `_update_difficulty`: the new target, its id and ruleset, and no mods.
     * When the attributes cannot be fetched it stops before the buttons are
     * brought up to date.
     */
    method UpdateDifficulty(attributesFound: bool)
      requires Valid() && hasPaging
      modifies this
      ensures Valid() && index == old(index)
      ensures target == maps[index.value] && beatmapId == target.id
      ensures rulesetId == RulesetOf(target) && selectedMods == []
      ensures attributesFound ==> ButtonsMatch()
      ensures !attributesFound ==> prevDisabled == old(prevDisabled) && nextDisabled == old(nextDisabled)
    {
      target := maps[index.value];
      beatmapId := target.id;
      selectedMods := [];
      rulesetId := RulesetOf(target);
      if !attributesFound {
        return;
      }
      UpdatePaginationButtons();
    }

    /**
     * The previous-difficulty callback: acts only when paging is active and not
     * at the first. After a move with attributes, each paging button is
     * disabled exactly when pressing it next would not move.
     */
    method PrevDifficulty(attributesFound: bool) returns (moved: bool)
      requires Valid()
      modifies this
      ensures Valid()
      ensures moved <==> hasPaging && old(index).value > 0
      ensures moved ==>
        index == Some(old(index).value - 1) && target == maps[index.value]
        && selectedMods == [] && rulesetId == RulesetOf(target)
      ensures moved && attributesFound ==> ButtonsMatch()
      ensures moved && attributesFound ==>
        (prevDisabled <==> !(hasPaging && index.value > 0)) && (nextDisabled <==> !(hasPaging && index.value < |maps| - 1))
      ensures !moved ==>
        index == old(index) && target == old(target) && selectedMods == old(selectedMods)
        && prevDisabled == old(prevDisabled) && nextDisabled == old(nextDisabled)
    {
      if maps != [] && index.Some? && index.value > 0 {
        index := Some(index.value - 1);
        UpdateDifficulty(attributesFound);
        return true;
      }
      return false;
    }

    /**
     * The next-difficulty callback: acts only when paging is active and not at
     * the last. After a move with attributes, the buttons tell the next moves
     * as in `PrevDifficulty`.
     */
    method NextDifficulty(attributesFound: bool) returns (moved: bool)
      requires Valid()
      modifies this
      ensures Valid()
      ensures moved <==> hasPaging && old(index).value < |maps| - 1
      ensures moved ==>
        index == Some(old(index).value + 1) && target == maps[index.value]
        && selectedMods == [] && rulesetId == RulesetOf(target)
      ensures moved && attributesFound ==> ButtonsMatch()
      ensures moved && attributesFound ==>
        (prevDisabled <==> !(hasPaging && index.value > 0)) && (nextDisabled <==> !(hasPaging && index.value < |maps| - 1))
      ensures !moved ==>
        index == old(index) && target == old(target) && selectedMods == old(selectedMods)
        && prevDisabled == old(prevDisabled) && nextDisabled == old(nextDisabled)
    {
      if maps != [] && index.Some? && index.value < |maps| - 1 {
        index := Some(index.value + 1);
        UpdateDifficulty(attributesFound);
        return true;
      }
      return false;
    }

    /** `update_embed_with_mods`: "_no_mods_" among the values clears the mods; otherwise they replace them. */
    method SelectMods(values: seq<string>)
      modifies this
      ensures selectedMods == SelectedAfter(values)
      ensures index == old(index) && target == old(target) && beatmapId == old(beatmapId)
      ensures rulesetId == old(rulesetId) && prevDisabled == old(prevDisabled) && nextDisabled == old(nextDisabled)
    {
      if "_no_mods_" in values {
        selectedMods := [];
      } else {
        selectedMods := values;
      }
    }
  }

  /** The mods after a selection. */
  function SelectedAfter(values: seq<string>): (r: seq<string>)
    ensures "_no_mods_" in values ==> r == []
    ensures "_no_mods_" !in values ==> r == values
    ensures "_no_mods_" !in r
  {
    if "_no_mods_" in values then [] else values
  }

  /**
   * With matching buttons, a disabled paging button is exactly one whose
   * callback would not move: the buttons tell the user what the callbacks do.
   */
  lemma PagingButtonsTellMoves(v: ModSelectView)
    requires v.Valid() && v.ButtonsMatch() && v.hasPaging
    ensures v.prevDisabled <==> !(v.hasPaging && v.index.value > 0)
    ensures v.nextDisabled <==> !(v.hasPaging && v.index.value < |v.maps| - 1)
  {
    assert v.index.Some? && 0 <= v.index.value < |v.maps|;
  }

  /**
   * `/pp`: the starting difficulty. A difficulty link starts at that
   * difficulty's place among the sorted maps (0 if absent); a set link at the
   * easiest of the first mode.
   */
  function StartIndex(route: Route, maps: seq<Beatmap>): (r: nat)
    ensures maps != [] ==> r < |maps|
    ensures !route.Difficulty? ==> r == 0
  {
    if route.Difficulty? then InitialDifficulty(SortMaps(maps), route.beatmapId) else 0
  }

  /** A difficulty that is in the set is the one the view opens on. */
  lemma StartsOnRequestedDifficulty(route: Route, maps: seq<Beatmap>, i: int)
    requires route.Difficulty? && 0 <= i < |maps| && maps[i].id == route.beatmapId
    ensures SortMaps(maps)[StartIndex(route, maps)].id == route.beatmapId
  {
    var sorted := SortMaps(maps);
    assert maps[i] in multiset(maps);
    assert maps[i] in multiset(sorted);
    var j :| 0 <= j < |sorted| && sorted[j] == maps[i];
  }

  /**
   * The id `/pp` gives the view: the requested one for a difficulty link,
   * and the first sorted difficulty's for a set link.
   */
  function ViewBeatmapId(route: Route, maps: seq<Beatmap>): (r: int)
    requires maps != []
    ensures route.Difficulty? ==> r == route.beatmapId
    ensures !route.Difficulty? ==> exists b :: b in maps && b.id == r
  {
    if route.Difficulty? then route.beatmapId
    else
      var first := SortMaps(maps)[0];
      assert first in multiset(SortMaps(maps));
      first.id
  }

  /**
   * For a difficulty link the view's id names its opening difficulty exactly
   * when the set holds the requested id; otherwise the view shows the first
   * sorted difficulty while its attribute requests use the requested id.
   */
  lemma ViewIdIsTargetIdIff(route: Route, maps: seq<Beatmap>)
    requires route.Difficulty? && maps != []
    ensures ViewBeatmapId(route, maps) == SortMaps(maps)[StartIndex(route, maps)].id
            <==> exists i :: 0 <= i < |maps| && maps[i].id == route.beatmapId
  {
    var sorted := SortMaps(maps);
    var k := StartIndex(route, maps);
    if sorted[k].id == route.beatmapId {
      assert sorted[k] in multiset(sorted);
      assert sorted[k] in multiset(maps);
      var i :| 0 <= i < |maps| && maps[i] == sorted[k];
    } else if exists i :: 0 <= i < |maps| && maps[i].id == route.beatmapId {
      var i :| 0 <= i < |maps| && maps[i].id == route.beatmapId;
      StartsOnRequestedDifficulty(route, maps, i);
    }
  }

  /** A set link's view starts on its first sorted difficulty, under that difficulty's own id. */
  lemma SetViewIdIsTargetId(route: Route, maps: seq<Beatmap>)
    requires route.WholeSet? && maps != []
    ensures ViewBeatmapId(route, maps) == SortMaps(maps)[StartIndex(route, maps)].id
  {
  }
}
