/**
 * The computations inside the osu! profile and mapper commands: the flag
 * emoji of a country code, the "time since" text, the play-time split, the
 * tree prefixes of a profile section, the choice of the user to look up,
 * and the `/mapper` collection loop with its totals.
 */
module UserCog {
  import opened Wrappers
  import opened Text

  // ---------------------------------------------------------------------
  // Country flag

  const Globe: string := "\U{1F30D}"

  /** The regional indicator paired with a character: `chr(127397 + ord(c))`, None when past U+10FFFF. */
  function Indicator(c: char): (r: Option<char>)
    ensures r.Some? ==> r.value as int == 127397 + c as int
  {
    var v := 127397 + c as int;
    if v <= 0x10FFFF then Some(v as char) else None
  }

  /** `get_country_flag_emoji`: the globe unless the code has two characters whose indicators exist. */
  function FlagEmoji(code: string): (r: string)
    ensures |code| != 2 ==> r == Globe
    ensures r != Globe ==>
      |r| == 2 && r[0] as int == 127397 + UpperChar(code[0]) as int
      && r[1] as int == 127397 + UpperChar(code[1]) as int
  {
    if |code| != 2 then Globe
    else
      var upper := Upper(code);
      match (Indicator(upper[0]), Indicator(upper[1]))
      case (Some(a), Some(b)) => [a, b]
      case _ => Globe
  }

  predicate IsAsciiLetter(c: char) {
    'a' <= c <= 'z' || 'A' <= c <= 'Z'
  }

  /** Reading a flag back: each regional indicator minus 127397. */
  function FlagCode(flag: string): string
    requires |flag| == 2
    requires 127397 + 'A' as int <= flag[0] as int <= 127397 + 'Z' as int
    requires 127397 + 'A' as int <= flag[1] as int <= 127397 + 'Z' as int
  {
    [(flag[0] as int - 127397) as char, (flag[1] as int - 127397) as char]
  }

  /** Two ASCII letters give a real flag, and the flag reads back as the upper-case code. */
  lemma FlagRoundTrip(code: string)
    requires |code| == 2 && IsAsciiLetter(code[0]) && IsAsciiLetter(code[1])
    ensures FlagEmoji(code) != Globe && |FlagEmoji(code)| == 2
    ensures 127397 + 'A' as int <= FlagEmoji(code)[0] as int <= 127397 + 'Z' as int
    ensures 127397 + 'A' as int <= FlagEmoji(code)[1] as int <= 127397 + 'Z' as int
    ensures FlagCode(FlagEmoji(code)) == Upper(code)
  {
    var f := FlagEmoji(code);
    assert |Globe| == 1;
    assert f == [(127397 + UpperChar(code[0]) as int) as char, (127397 + UpperChar(code[1]) as int) as char];
  }

  // ---------------------------------------------------------------------
  // Time since

  /** The localized unit texts. */
  datatype Units = Units(year: string, month: string, day: string, second: string)

  /** The positive year, month and day parts, in that order, each as its number and unit. */
  function TimeParts(years: int, months: int, days: int, u: Units): (r: seq<string>)
    ensures |r| <= 3
    ensures years > 0 ==> |r| > 0 && r[0] == IntToString(years) + u.year
    ensures years <= 0 && months > 0 ==> |r| > 0 && r[0] == IntToString(months) + u.month
    ensures years <= 0 && months <= 0 && days > 0 ==> r == [IntToString(days) + u.day]
    ensures r == [] <==> years <= 0 && months <= 0 && days <= 0
  {
    (if years > 0 then [IntToString(years) + u.year] else [])
    + (if months > 0 then [IntToString(months) + u.month] else [])
    + (if days > 0 then [IntToString(days) + u.day] else [])
  }

  /**
   * `time_since` once the difference is known: short mode shows the first
   * part, long mode the first two (run together for zh languages, else
   * separated by a space). With no positive part, short mode shows the
   * seconds (at least 0) and long mode "0" days.
   */
  function TimeSince(years: int, months: int, days: int, seconds: int, short: bool, zh: bool, u: Units): (r: string)
    ensures short && TimeParts(years, months, days, u) != [] ==> r == TimeParts(years, months, days, u)[0]
    ensures !short && |TimeParts(years, months, days, u)| == 1 ==> r == TimeParts(years, months, days, u)[0]
    ensures !short && TimeParts(years, months, days, u) == [] ==> r == "0" + u.day
  {
    var parts := TimeParts(years, months, days, u);
    if parts == [] then
      if short then IntToString(if seconds > 0 then seconds else 0) + u.second else "0" + u.day
    else if short then parts[0]
    else
      var shown := if |parts| >= 2 then parts[..2] else parts;
      Join(shown, if zh then "" else " ")
  }

  /** The largest positive part always leads, and long mode adds only the next positive part. */
  lemma TimeSinceLeads(years: int, months: int, days: int, seconds: int, zh: bool, u: Units)
    requires years > 0
    ensures TimeSince(years, months, days, seconds, true, zh, u) == IntToString(years) + u.year
    ensures months > 0 ==>
      TimeSince(years, months, days, seconds, false, zh, u)
      == IntToString(years) + u.year + (if zh then "" else " ") + IntToString(months) + u.month
    ensures months <= 0 && days > 0 ==>
      TimeSince(years, months, days, seconds, false, zh, u)
      == IntToString(years) + u.year + (if zh then "" else " ") + IntToString(days) + u.day
    ensures months <= 0 && days <= 0 ==>
      TimeSince(years, months, days, seconds, false, zh, u)
      == IntToString(years) + u.year
  {
    var parts := TimeParts(years, months, days, u);
    var sep := if zh then "" else " ";
    if months > 0 || days > 0 {
      assert |parts| >= 2;
      var shown := parts[..2];
      assert shown[1..] == [parts[1]];
      assert Join(shown, sep) == parts[0] + sep + parts[1];
    }
  }

  /** Under a day: short mode gives the seconds, long mode "0" days. */
  lemma TimeSinceUnderADay(seconds: int, zh: bool, u: Units)
    ensures TimeSince(0, 0, 0, seconds, true, zh, u) == IntToString(if seconds > 0 then seconds else 0) + u.second
    ensures TimeSince(0, 0, 0, seconds, false, zh, u) == "0" + u.day
  {
  }

  // ---------------------------------------------------------------------
  // Play time and tree prefixes

  /** The play time as hours and minutes, or None (N/A) when absent or 0. */
  function Playtime(total: Option<int>): (r: Option<(int, int)>)
    ensures r.None? <==> total.None? || total.value == 0
  {
    match total
    case Some(s) => if s != 0 then Some((s / 3600, (s % 3600) / 60)) else None
    case None => None
  }

  /** The split drops only the leftover seconds: minutes are 0..59 and the parts add up to within a minute. */
  lemma PlaytimeSplit(s: int)
    requires s != 0
    ensures var (h, m) := Playtime(Some(s)).value;
      0 <= m < 60 && h * 3600 + m * 60 <= s < h * 3600 + m * 60 + 60
  {
  }

  const Tree: string := "<:tree:1373314005116125266>"
  const End: string := "<:end:1373314035373707445>"

  /** The prefixes of the lines of a section: END for the last, TREE for the others. */
  function TreePrefixes(n: nat): (r: seq<string>)
    ensures |r| == n
  {
    if n == 0 then [] else seq(n - 1, _ => Tree) + [End]
  }

  /** Exactly one line, the last, carries the END prefix. */
  lemma OnlyLastIsEnd(n: nat, i: nat)
    requires i < n
    ensures TreePrefixes(n)[i] == End <==> i == n - 1
  {
  }

  // ---------------------------------------------------------------------
  // Whom to look up

  datatype Lookup = ById(text: string) | Auto(text: string) | ByName(text: string)

  datatype Target = Found(lookup: Lookup) | BothGiven | NothingBound

  /**
   * `/profile`: both options given (even an empty name) is an error; then the
   * id, the stripped name, and the bound account, if truthy.
   */
  function ProfileTarget(osuId: Option<int>, osuUser: Option<string>, bound: Option<string>): (r: Target)
    ensures osuId.Some? && osuUser.Some? <==> r.BothGiven?
    ensures osuId.Some? && osuUser.None? ==> r == Found(ById(IntToString(osuId.value)))
    ensures osuId.None? && osuUser.Some? && osuUser.value != "" ==> r == Found(ByName(Strip(osuUser.value)))
    ensures osuId.None? && (osuUser.None? || osuUser.value == "") && bound.Some? && bound.value != "" ==>
      r == Found(ById(bound.value))
    ensures r.NothingBound? <==>
      osuId.None? && (osuUser.None? || osuUser.value == "") && (bound.None? || bound.value == "")
  {
    if osuId.Some? && osuUser.Some? then BothGiven
    else if osuId.Some? then Found(ById(IntToString(osuId.value)))
    else if osuUser.Some? && osuUser.value != "" then Found(ByName(Strip(osuUser.value)))
    else if bound.Some? && bound.value != "" then Found(ById(bound.value))
    else NothingBound
  }

  /**
   * `/mapper`: only a non-empty name together with an id is an error; a
   * stripped name made only of digits is looked up as a username, any other
   * identifier by the API's automatic rule.
   */
  function MapperTarget(osuId: Option<int>, osuUser: Option<string>, bound: Option<string>): (r: Target)
    ensures r.BothGiven? <==> osuId.Some? && osuUser.Some? && osuUser.value != ""
    ensures osuId.Some? && !r.BothGiven? ==> r == Found(Auto(IntToString(osuId.value)))
    ensures osuId.None? && osuUser.Some? && osuUser.value != "" ==>
      var name := Strip(osuUser.value);
      r.Found? && r.lookup.text == name && (r.lookup.ByName? || r.lookup.Auto?)
      && (r.lookup.ByName? <==> name != "" && AllDigits(name))
    ensures osuId.None? && (osuUser.None? || osuUser.value == "") && bound.Some? && bound.value != "" ==>
      r == Found(Auto(bound.value))
    ensures r.NothingBound? <==>
      osuId.None? && (osuUser.None? || osuUser.value == "") && (bound.None? || bound.value == "")
  {
    if osuUser.Some? && osuUser.value != "" && osuId.Some? then BothGiven
    else if osuId.Some? then Found(Auto(IntToString(osuId.value)))
    else if osuUser.Some? && osuUser.value != "" then
      var name := Strip(osuUser.value);
      if name != "" && AllDigits(name) then Found(ByName(name)) else Found(Auto(name))
    else if bound.Some? && bound.value != "" then Found(Auto(bound.value))
    else NothingBound
  }

  /** The two commands disagree on an empty name given with an id: the profile refuses, the mapper uses the id. */
  lemma EmptyNameWithId(id: int, bound: Option<string>)
    ensures ProfileTarget(Some(id), Some(""), bound) == BothGiven
    ensures MapperTarget(Some(id), Some(""), bound) == Found(Auto(IntToString(id)))
  {
  }

  /**
   * Both commands fall back to the bound account in the same cases, and they
   * use the same text for the id, the name and the binding; they differ only
   * in how the API is asked to read it and in the both-given rule.
   */
  lemma TargetsAgreeOnSource(osuId: Option<int>, osuUser: Option<string>, bound: Option<string>)
    requires !ProfileTarget(osuId, osuUser, bound).BothGiven? && !MapperTarget(osuId, osuUser, bound).BothGiven?
    ensures ProfileTarget(osuId, osuUser, bound).NothingBound? <==> MapperTarget(osuId, osuUser, bound).NothingBound?
    ensures ProfileTarget(osuId, osuUser, bound).Found? ==>
      ProfileTarget(osuId, osuUser, bound).lookup.text == MapperTarget(osuId, osuUser, bound).lookup.text
  {
  }

  // ---------------------------------------------------------------------
  // The /mapper collection loop

  /** A beatmapset as the totals see it; `id` 0 stands for a missing or zero id. */
  datatype MapSet = MapSet(id: int, status: Option<string>, favourites: int)

  /** The set types fetched, in order. */
  const SetTypes: seq<string> := ["ranked", "loved", "graveyard", "pending", "nominated"]

  const PageLimit: nat := 50
  const MaxPerType: nat := 1000

  /** `all_beatmapsets`: the ids in first-insertion order, and the latest set stored under each. */
  datatype Collected = Collected(ids: seq<int>, sets: map<int, MapSet>)

  predicate NoDup(s: seq<int>) {
    forall i, j :: 0 <= i < j < |s| ==> s[i] != s[j]
  }

  ghost predicate WellFormed(c: Collected) {
    NoDup(c.ids)
    && (forall k :: k in c.sets <==> k in c.ids)
    && (forall k :: k in c.sets ==> c.sets[k].id == k && k != 0)
  }

  /** One page entry: a present set with a truthy id is stored (overwriting) and counted. */
  function AddSet(c: Collected, item: Option<MapSet>): (r: (Collected, nat))
    ensures r.1 == 1 <==> item.Some? && item.value.id != 0
    ensures r.1 == 1 ==> item.value.id in r.0.sets && r.0.sets[item.value.id] == item.value
    ensures r.1 == 0 ==> r.0 == c
  {
    match item
    case Some(s) =>
      if s.id != 0 then
        (Collected(if s.id in c.sets then c.ids else c.ids + [s.id], c.sets[s.id := s]), 1)
      else (c, 0)
    case None => (c, 0)
  }

  /** A whole page, entry by entry; the number is how many entries counted. */
  function AddPage(c: Collected, page: seq<Option<MapSet>>): (r: (Collected, nat))
    ensures r.1 <= |page|
    ensures c.sets.Keys <= r.0.sets.Keys
    ensures |c.ids| <= |r.0.ids| && r.0.ids[..|c.ids|] == c.ids
  {
    if page == [] then (c, 0)
    else
      var (before, n) := AddPage(c, page[..|page| - 1]);
      var (after, k) := AddSet(before, page[|page| - 1]);
      (after, n + k)
  }

  lemma AddSetWellFormed(c: Collected, item: Option<MapSet>)
    requires WellFormed(c)
    ensures WellFormed(AddSet(c, item).0)
    ensures AddSet(c, item).1 <= 1
  {
    if item.Some? && item.value.id != 0 && item.value.id !in c.sets {
      var ids := c.ids + [item.value.id];
      forall i, j | 0 <= i < j < |ids| ensures ids[i] != ids[j] {
        if j == |ids| - 1 {
          assert ids[i] == c.ids[i];
        }
      }
    }
  }

  /** Collecting keeps one entry per id, in first-seen order, each stored under its own id. */
  lemma {:induction false} AddPageWellFormed(c: Collected, page: seq<Option<MapSet>>)
    requires WellFormed(c)
    ensures WellFormed(AddPage(c, page).0)
    ensures AddPage(c, page).1 <= |page|
  {
    if page != [] {
      AddPageWellFormed(c, page[..|page| - 1]);
      AddSetWellFormed(AddPage(c, page[..|page| - 1]).0, page[|page| - 1]);
    }
  }

  /** After a page, each truthy id in it is stored with the page's last entry for that id. */
  lemma {:induction false} AddPageKeepsLast(c: Collected, page: seq<Option<MapSet>>, i: nat)
    requires i < |page| && page[i].Some? && page[i].value.id != 0
    requires forall j :: i < j < |page| && page[j].Some? ==> page[j].value.id != page[i].value.id
    ensures page[i].value.id in AddPage(c, page).0.sets
    ensures AddPage(c, page).0.sets[page[i].value.id] == page[i].value
  {
    if i < |page| - 1 {
      AddPageKeepsLast(c, page[..|page| - 1], i);
    }
  }

  /**
   * The loop for one set type, from an offset and the count so far: stop at
   * the cap, on an error, on an empty page, on a short page, or once the
   * count reaches the cap. `fuel` bounds the number of requests.
   */
  function TypeFrom(fetch: (string, int) -> Option<seq<Option<MapSet>>>, setType: string,
                    offset: int, count: nat, c: Collected, fuel: nat): (r: Collected)
    ensures c.sets.Keys <= r.sets.Keys
    ensures |c.ids| <= |r.ids| && r.ids[..|c.ids|] == c.ids
    decreases fuel
  {
    if count >= MaxPerType || fuel == 0 then c
    else
      match fetch(setType, offset)
      case None => c
      case Some(page) =>
        if page == [] then c
        else
          var (next, added) := AddPage(c, page);
          if |page| < PageLimit || count + added >= MaxPerType then next
          else TypeFrom(fetch, setType, offset + |page|, count + added, next, fuel - 1)
  }

  /** All the types, in order, into one dictionary. */
  function AllTypes(fetch: (string, int) -> Option<seq<Option<MapSet>>>, types: seq<string>, fuel: nat): (r: Collected)
    ensures types != [] ==> AllTypes(fetch, types[..|types| - 1], fuel).sets.Keys <= r.sets.Keys
  {
    if types == [] then Collected([], map[])
    else TypeFrom(fetch, types[|types| - 1], 0, 0, AllTypes(fetch, types[..|types| - 1], fuel), fuel)
  }

  lemma {:induction false} TypeFromWellFormed(fetch: (string, int) -> Option<seq<Option<MapSet>>>, setType: string,
                                              offset: int, count: nat, c: Collected, fuel: nat)
    requires WellFormed(c)
    ensures WellFormed(TypeFrom(fetch, setType, offset, count, c, fuel))
    ensures forall k :: k in c.sets ==> k in TypeFrom(fetch, setType, offset, count, c, fuel).sets
    decreases fuel
  {
    var r := TypeFrom(fetch, setType, offset, count, c, fuel);
    if count < MaxPerType && fuel > 0 {
      var page := fetch(setType, offset);
      if page.Some? && page.value != [] {
        AddPageWellFormed(c, page.value);
        var next := AddPage(c, page.value).0;
        var added := AddPage(c, page.value).1;
        if |page.value| < PageLimit || count + added >= MaxPerType {
          assert r == next;
        } else {
          TypeFromWellFormed(fetch, setType, offset + |page.value|, count + added, next, fuel - 1);
          assert r == TypeFrom(fetch, setType, offset + |page.value|, count + added, next, fuel - 1);
        }
      } else {
        assert r == c;
      }
    } else {
      assert r == c;
    }
  }

  lemma {:induction false} AddPageKeepsIds(c: Collected, page: seq<Option<MapSet>>)
    ensures forall k :: k in c.sets ==> k in AddPage(c, page).0.sets
  {
    if page != [] {
      AddPageKeepsIds(c, page[..|page| - 1]);
    }
  }

  /** The mapper's dictionary holds each beatmapset once, under its own id, and no set is lost between types. */
  lemma {:induction false} AllTypesWellFormed(fetch: (string, int) -> Option<seq<Option<MapSet>>>, types: seq<string>, fuel: nat)
    ensures WellFormed(AllTypes(fetch, types, fuel))
  {
    if types != [] {
      AllTypesWellFormed(fetch, types[..|types| - 1], fuel);
      TypeFromWellFormed(fetch, types[|types| - 1], 0, 0, AllTypes(fetch, types[..|types| - 1], fuel), fuel);
    }
  }

  /** The fetch loops of `/mapper`, type after type. */
  method CollectMapsets(fetch: (string, int) -> Option<seq<Option<MapSet>>>, fuel: nat) returns (c: Collected)
    ensures c == AllTypes(fetch, SetTypes, fuel)
  {
    c := Collected([], map[]);
    var t := 0;
    while t < |SetTypes|
      invariant 0 <= t <= |SetTypes|
      invariant c == AllTypes(fetch, SetTypes[..t], fuel)
    {
      assert SetTypes[..t + 1][..t] == SetTypes[..t];
      c := CollectType(fetch, SetTypes[t], c, fuel);
      t := t + 1;
    }
    assert SetTypes[..t] == SetTypes;
  }

  /** The loop for one type. */
  method CollectType(fetch: (string, int) -> Option<seq<Option<MapSet>>>, setType: string, c0: Collected, fuel: nat)
    returns (c: Collected)
    ensures c == TypeFrom(fetch, setType, 0, 0, c0, fuel)
  {
    c := c0;
    var offset := 0;
    var count: nat := 0;
    var left := fuel;
    while count < MaxPerType && left > 0
      invariant TypeFrom(fetch, setType, offset, count, c, left) == TypeFrom(fetch, setType, 0, 0, c0, fuel)
      decreases left
    {
      var page := fetch(setType, offset);
      if page.None? || page.value == [] {
        return;
      }
      var added;
      c, added := AddPageLoop(c, page.value);
      count := count + added;
      if |page.value| < PageLimit {
        return;
      }
      offset := offset + |page.value|;
      left := left - 1;
    }
  }

  /** The inner `for bm_set in page` loop. */
  method AddPageLoop(c0: Collected, page: seq<Option<MapSet>>) returns (c: Collected, added: nat)
    ensures (c, added) == AddPage(c0, page)
  {
    c, added := c0, 0;
    var i := 0;
    while i < |page|
      invariant 0 <= i <= |page|
      invariant (c, added) == AddPage(c0, page[..i])
    {
      assert page[..i + 1][..i] == page[..i];
      var (next, k) := AddSet(c, page[i]);
      c, added := next, added + k;
      i := i + 1;
    }
    assert page[..i] == page;
  }

  // ---------------------------------------------------------------------
  // Totals

  predicate RankedOrLoved(s: MapSet) {
    s.status == Some("ranked") || s.status == Some("loved") || s.status == Some("qualified") || s.status == Some("approved")
  }

  /** The sets in dictionary order. */
  function Values(c: Collected): (r: seq<MapSet>)
    requires forall i :: 0 <= i < |c.ids| ==> c.ids[i] in c.sets
    ensures |r| == |c.ids| && forall i :: 0 <= i < |r| ==> r[i] == c.sets[c.ids[i]]
  {
    seq(|c.ids|, i requires 0 <= i < |c.ids| => c.sets[c.ids[i]])
  }

  function RankedCount(sets: seq<MapSet>): (r: nat)
    ensures r <= |sets|
  {
    if sets == [] then 0
    else RankedCount(sets[..|sets| - 1]) + (if RankedOrLoved(sets[|sets| - 1]) then 1 else 0)
  }

  function FavouriteTotal(sets: seq<MapSet>): (r: int)
    ensures (forall i :: 0 <= i < |sets| ==> sets[i].favourites >= 0) ==> r >= 0
  {
    if sets == [] then 0 else FavouriteTotal(sets[..|sets| - 1]) + sets[|sets| - 1].favourites
  }

  /** The totals of two runs of sets add up. */
  lemma {:induction false} TotalsAppend(a: seq<MapSet>, b: seq<MapSet>)
    ensures RankedCount(a + b) == RankedCount(a) + RankedCount(b)
    ensures FavouriteTotal(a + b) == FavouriteTotal(a) + FavouriteTotal(b)
    decreases |b|
  {
    if b == [] {
      assert a + b == a;
    } else {
      TotalsAppend(a, b[..|b| - 1]);
      assert (a + b)[..|a + b| - 1] == a + b[..|b| - 1];
    }
  }

  /** The ranked/loved count is exactly the number of sets with one of the four statuses. */
  lemma {:induction false} RankedCountIsSize(sets: seq<MapSet>)
    ensures RankedCount(sets) == |set i | 0 <= i < |sets| && RankedOrLoved(sets[i])|
  {
    if sets != [] {
      var n := |sets| - 1;
      RankedCountIsSize(sets[..n]);
      var before := set i | 0 <= i < n && RankedOrLoved(sets[..n][i]);
      var all := set i | 0 <= i < |sets| && RankedOrLoved(sets[i]);
      assert before == set i | 0 <= i < n && RankedOrLoved(sets[i]);
      if RankedOrLoved(sets[n]) {
        assert all == before + {n};
      } else {
        assert all == before;
      }
    }
  }

  /** The totals loop: the ranked/loved count and the favourite sum. */
  method Totals(sets: seq<MapSet>) returns (ranked: nat, favourites: int)
    ensures ranked == RankedCount(sets) && favourites == FavouriteTotal(sets)
  {
    ranked, favourites := 0, 0;
    var i := 0;
    while i < |sets|
      invariant 0 <= i <= |sets|
      invariant ranked == RankedCount(sets[..i]) && favourites == FavouriteTotal(sets[..i])
    {
      assert sets[..i + 1][..i] == sets[..i];
      if RankedOrLoved(sets[i]) {
        ranked := ranked + 1;
      }
      favourites := favourites + sets[i].favourites;
      i := i + 1;
    }
    assert sets[..i] == sets;
  }
}
