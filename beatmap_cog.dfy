/**
 * The beatmap link listener: a message holding an osu! beatmap URL is
 * answered with the beatmap's card. Modelled here: the length text, which
 * id of the URL is used, which difficulty is shown, where the status comes
 * from, and when the footer mentions the number of difficulties.
 */
module BeatmapCog {
  import opened Wrappers
  import opened Text
  import BeatmapUtils

  // ---------------------------------------------------------------------
  // Length text

  /** `str(datetime.timedelta(seconds=t))`: "[D day[s], ]H:MM:SS", days floored as in Python. */
  function Timedelta(t: int): (r: string)
    ensures |r| >= 7
  {
    var days := t / 86400;
    var secs := t % 86400;
    var clock := Clock(secs / 3600, (secs % 3600) / 60, secs % 60);
    if days == 0 then clock
    else IntToString(days) + (if days == 1 || days == -1 then " day, " else " days, ") + clock
  }

  /** "H:MM:SS". */
  function Clock(h: nat, m: nat, s: nat): string {
    NatToString(h) + ":" + Pad2(m) + ":" + Pad2(s)
  }

  /** `timedelta` refuses more than 999999999 days either way. */
  predicate TimedeltaOverflows(t: int) {
    t / 86400 > 999999999 || t / 86400 < -999999999
  }

  /** `format_length` as written: "0:00" for no length, "N/A" on overflow, else the timedelta text minus its first two characters. */
  function FormatLength(t: Option<int>): (r: string)
    ensures t.None? || t == Some(0) ==> r == "0:00"
    ensures t.Some? && t.value != 0 && TimedeltaOverflows(t.value) ==> r == "N/A"
  {
    match t
    case None => "0:00"
    case Some(s) =>
      if s == 0 then "0:00"
      else if TimedeltaOverflows(s) then "N/A"
      else Timedelta(s)[2..]
  }

  /** The value of a clock text: its ":"-separated parts read as base-60 digits. */
  function ClockValue(parts: seq<string>): Option<int> {
    if parts == [] then Some(0)
    else
      match (ClockValue(parts[..|parts| - 1]), ParseInt(parts[|parts| - 1]))
      case (Some(high), Some(low)) => Some(high * 60 + low)
      case _ => None
  }

  function ReadClock(s: string): Option<int> {
    ClockValue(Split(s, ':'))
  }

  /** A run of ASCII digits parses to its value. */
  lemma ParseDigits(s: string)
    requires |s| >= 1 && AllDigits(s)
    ensures ParseInt(s) == Some(DigitsValue(s))
  {
    assert IsDigit(s[0]);
  }

  lemma ClockTwo(a: string, b: string)
    requires ParseInt(a).Some? && ParseInt(b).Some?
    ensures ClockValue([a, b]) == Some(ParseInt(a).value * 60 + ParseInt(b).value)
  {
    assert [a, b][..1] == [a];
    assert [a][..0] == [];
    assert ClockValue([a]) == Some(ParseInt(a).value);
  }

  lemma ClockThree(a: string, b: string, c: string)
    requires ParseInt(a).Some? && ParseInt(b).Some? && ParseInt(c).Some?
    ensures ClockValue([a, b, c]) == Some((ParseInt(a).value * 60 + ParseInt(b).value) * 60 + ParseInt(c).value)
  {
    assert [a, b, c][..2] == [a, b];
    ClockTwo(a, b);
  }

  lemma PadParses(n: nat)
    ensures ParseInt(Pad2(n)) == Some(n) && Free(Pad2(n), ':')
  {
    ParseDigits(Pad2(n));
    Pad2Value(n);
  }

  /** Reading back "MM:SS". */
  lemma ReadMinutes(m: nat, s: nat)
    ensures ReadClock(Pad2(m) + ":" + Pad2(s)) == Some(m * 60 + s)
  {
    PadParses(m);
    PadParses(s);
    SplitJoin([Pad2(m), Pad2(s)], ':');
    assert Join([Pad2(m), Pad2(s)], ":") == Pad2(m) + ":" + Pad2(s) by {
      assert [Pad2(m), Pad2(s)][1..] == [Pad2(s)];
    }
    ClockTwo(Pad2(m), Pad2(s));
  }

  /** Reading back "H:MM:SS". */
  lemma ReadHours(h: nat, m: nat, s: nat)
    ensures ReadClock(Clock(h, m, s)) == Some((h * 60 + m) * 60 + s)
  {
    var parts := [NatToString(h), Pad2(m), Pad2(s)];
    PadParses(m);
    PadParses(s);
    ParseDigits(NatToString(h));
    DigitsOfNat(h);
    assert Free(NatToString(h), ':') by {
      forall i | 0 <= i < |NatToString(h)| ensures NatToString(h)[i] != ':' {
        assert IsDigit(NatToString(h)[i]);
      }
    }
    SplitJoin(parts, ':');
    assert Join(parts, ":") == Clock(h, m, s) by {
      assert parts[1..] == [Pad2(m), Pad2(s)];
      assert parts[1..][1..] == [Pad2(s)];
      assert Join(parts[1..], ":") == Pad2(m) + ":" + Pad2(s);
    }
    ClockThree(NatToString(h), Pad2(m), Pad2(s));
  }

  /** Hours, minutes and seconds of a length under a day, and how they add back up. */
  lemma SplitSeconds(t: int)
    requires 0 <= t < 86400
    ensures t / 86400 == 0 && t % 86400 == t
    ensures (t % 3600) / 60 * 60 + t % 60 == t % 3600
    ensures ((t / 3600) * 60 + (t % 3600) / 60) * 60 + t % 60 == t
    ensures t < 3600 ==> t / 3600 == 0 && (t % 3600) / 60 == t / 60
    ensures 3600 <= t < 36000 ==> 1 <= t / 3600 < 10
    ensures 36000 <= t ==> 10 <= t / 3600 < 100
  {
    var q := t / 3600;
    var r := t % 3600;
    var a := r / 60;
    var b := r % 60;
    assert t == 60 * (60 * q + a) + b;
    assert t % 60 == b;
  }

  /** Under a day the timedelta text is the bare clock. */
  lemma TimedeltaUnderADay(t: int)
    requires 0 <= t < 86400
    ensures Timedelta(t) == Clock(t / 3600, (t % 3600) / 60, t % 60)
  {
    SplitSeconds(t);
  }

  /** Under a day, the length text is the clock minus its first two characters. */
  lemma FormatLengthUnderADay(t: int)
    requires 0 < t < 86400
    ensures FormatLength(Some(t)) == Clock(t / 3600, (t % 3600) / 60, t % 60)[2..]
  {
    SplitSeconds(t);
    TimedeltaUnderADay(t);
  }

  /** Cutting two characters off a clock with a one-digit hour leaves "MM:SS". */
  lemma ClockDrop(h: nat, m: nat, s: nat)
    requires h < 10
    ensures Clock(h, m, s)[2..] == Pad2(m) + ":" + Pad2(s)
  {
    var hs := NatToString(h);
    assert |hs| == 1;
    assert Clock(h, m, s) == hs + ":" + (Pad2(m) + ":" + Pad2(s));
  }

  /** Under an hour the text is "MM:SS" and reads back as the length. */
  lemma FormatLengthUnderAnHour(t: int)
    requires 0 < t < 3600
    ensures FormatLength(Some(t)) == Pad2(t / 60) + ":" + Pad2(t % 60)
    ensures ReadClock(FormatLength(Some(t))) == Some(t)
  {
    SplitSeconds(t);
    var m, sec := t / 60, t % 60;
    FormatLengthUnderADay(t);
    ClockDrop(0, m, sec);
    ReadMinutes(m, sec);
  }

  /** From one hour to ten, the hour digit is cut off: the text is that of the length modulo an hour. */
  lemma FormatLengthDropsHours(t: int)
    requires 3600 <= t < 36000
    ensures FormatLength(Some(t)) == Pad2((t % 3600) / 60) + ":" + Pad2(t % 60)
    ensures ReadClock(FormatLength(Some(t))) == Some(t % 3600)
  {
    SplitSeconds(t);
    var h, m, sec := t / 3600, (t % 3600) / 60, t % 60;
    FormatLengthUnderADay(t);
    ClockDrop(h, m, sec);
    ReadMinutes(m, sec);
  }

  lemma ShiftByAnHour(t: int)
    requires 0 < t < 3600
    ensures (t + 3600) % 3600 == t && (t + 3600) % 3600 / 60 == t / 60 && (t + 3600) % 60 == t % 60
  {
    assert t + 3600 == 60 * (t / 60 + 60) + t % 60;
  }

  /** A length and the same length plus an hour are shown alike (3661 s and 61 s both as "01:01"). */
  lemma FormatLengthCollision(t: int)
    requires 0 < t < 3600
    ensures FormatLength(Some(t + 3600)) == FormatLength(Some(t))
  {
    var u := t + 3600;
    ShiftByAnHour(t);
    FormatLengthDropsHours(u);
    FormatLengthUnderAnHour(t);
  }

  /** From ten hours to a day, the text starts with the separator. */
  lemma FormatLengthLeadingColon(t: int)
    requires 36000 <= t < 86400
    ensures FormatLength(Some(t))[0] == ':'
  {
    SplitSeconds(t);
    TimedeltaUnderADay(t);
    var h := t / 3600;
    assert |NatToString(h)| == 2 by {
      assert NatToString(h) == NatToString(h / 10) + [DigitChar(h % 10)];
    }
  }

  /** The length text with the "0:" cut only when there are no hours. */
  function FormatLengthFixed(t: Option<int>): (r: string)
    ensures t.None? || t == Some(0) ==> r == "0:00"
    ensures t.Some? && t.value != 0 && TimedeltaOverflows(t.value) ==> r == "N/A"
    ensures t.Some? && 3600 <= t.value && !TimedeltaOverflows(t.value) ==> r == Timedelta(t.value)
  {
    match t
    case None => "0:00"
    case Some(s) =>
      if s == 0 then "0:00"
      else if TimedeltaOverflows(s) then "N/A"
      else if 0 < s < 3600 then Timedelta(s)[2..]
      else Timedelta(s)
  }

  /** From an hour on, the fixed text is the whole clock. */
  lemma FixedFromAnHour(t: int)
    requires 3600 <= t < 86400
    ensures ReadClock(FormatLengthFixed(Some(t))) == Some(t)
  {
    SplitSeconds(t);
    var h, m, sec := t / 3600, (t % 3600) / 60, t % 60;
    TimedeltaUnderADay(t);
    assert FormatLengthFixed(Some(t)) == Clock(h, m, sec);
    ReadHours(h, m, sec);
  }

  /** The fixed text reads back as the length for every length under a day, and agrees under an hour. */
  lemma FormatLengthFixedReadsBack(t: int)
    requires 0 < t < 86400
    ensures ReadClock(FormatLengthFixed(Some(t))) == Some(t)
    ensures t < 3600 ==> FormatLengthFixed(Some(t)) == FormatLength(Some(t))
  {
    if t < 3600 {
      assert !TimedeltaOverflows(t);
      FormatLengthUnderAnHour(t);
    } else {
      FixedFromAnHour(t);
    }
  }

  // ---------------------------------------------------------------------
  // Which id the URL gives

  /** The named groups of the URL pattern (each a run of digits when present). */
  datatype UrlGroups = UrlGroups(
    mapLong: Option<string>, mapShort: Option<string>, mapSingle: Option<string>,
    setLong: Option<string>, setShort: Option<string>)

  /** Python's `a or b` on optional strings: `a` when it is a non-empty string, else `b`. */
  function Or(a: Option<string>, b: Option<string>): Option<string> {
    if a.Some? && a.value != "" then a else b
  }

  /** The difficulty id text: the first present of the long, short and single forms. */
  function MapIdText(g: UrlGroups): (r: Option<string>)
    ensures r.Some? && r.value != "" ==>
      r == g.mapLong || r == g.mapShort || r == g.mapSingle
    ensures g.mapLong.Some? && g.mapLong.value != "" ==> r == g.mapLong
  {
    Or(Or(g.mapLong, g.mapShort), g.mapSingle)
  }

  function SetIdText(g: UrlGroups): (r: Option<string>)
    ensures g.setLong.Some? && g.setLong.value != "" ==> r == g.setLong
  {
    Or(g.setLong, g.setShort)
  }

  // ---------------------------------------------------------------------
  // The beatmap data

  /** A JSON value as the status lookup sees it. */
  datatype Json = Absent | Null | Str(s: string) | Num(n: int) | Other

  /** `d.get(key, default)`: the default only when the key is absent. */
  function Get(v: Json, default: Json): Json {
    if v.Absent? then default else v
  }

  /** The nested beatmapset object of a difficulty. */
  datatype SetData = SetData(status: Json, ranked: Json, approved: Json, total: Option<int>)

  /** A difficulty: its id and ruleset id (None when missing or null), its set, its own status fields and its lengths in seconds (0 when missing). */
  datatype Beatmap = Beatmap(id: Option<int>, rulesetId: Option<int>, beatmapset: Option<SetData>,
                             status: Json, ranked: Json, approved: Json, totalLength: int, hitLength: int)

  /** `str(bm.get("id"))`. */
  function IdText(b: Beatmap): (r: string)
    ensures b.id.Some? ==> ParseInt(r) == b.id
    ensures b.id.None? ==> r == "None"
  {
    match b.id
    case Some(n) => ParseIntOfIntToString(n); IntToString(n)
    case None => "None"
  }

  /** What the set lookup gave: nothing, no `beatmaps` list, or the list. */
  datatype SetReply = NoSet | NoBeatmaps | Beatmaps(maps: seq<Beatmap>)

  /** The difficulties fetched for the URL's ids, and the difficulty fetched directly (if any). */
  function Fetched(mapId: Option<string>, setId: Option<string>,
                   fetchMap: int -> Option<Beatmap>, fetchSet: int -> SetReply): (r: (seq<Beatmap>, Option<Beatmap>))
    ensures r.1.Some? ==> r.0 == [r.1.value]
    ensures mapId.Some? && mapId.value != "" && r.1.None? ==> r.0 == []
  {
    if mapId.Some? && mapId.value != "" then
      match ParseInt(mapId.value)
      case None => ([], None)
      case Some(id) =>
        match fetchMap(id)
        case Some(b) => ([b], Some(b))
        case None => ([], None)
    else if setId.Some? && setId.value != "" then
      match ParseInt(setId.value)
      case None => ([], None)
      case Some(id) =>
        match fetchSet(id)
        case Beatmaps(maps) => (maps, None)
        case _ => ([], None)
    else ([], None)
  }

  /** The first difficulty whose id text is `idText`. */
  function FirstWithId(maps: seq<Beatmap>, idText: string): (r: Option<Beatmap>)
    ensures r.Some? ==> r.value in maps && IdText(r.value) == idText
    ensures r.None? ==> forall i :: 0 <= i < |maps| ==> IdText(maps[i]) != idText
  {
    if maps == [] then None
    else if IdText(maps[0]) == idText then Some(maps[0])
    else FirstWithId(maps[1..], idText)
  }

  /** The index of the first osu!standard difficulty (ruleset id 0), or |maps|. */
  function FirstStandard(maps: seq<Beatmap>): (k: nat)
    ensures k <= |maps|
    ensures k < |maps| ==> maps[k].rulesetId == Some(0)
    ensures forall i :: 0 <= i < k ==> maps[i].rulesetId != Some(0)
  {
    if maps == [] then 0
    else if maps[0].rulesetId == Some(0) then 0
    else 1 + FirstStandard(maps[1..])
  }

  /** The difficulty shown: for a difficulty URL the one whose id matches, for a set the first standard one, else the first. */
  function Target(mapId: Option<string>, direct: Option<Beatmap>, maps: seq<Beatmap>): (r: Option<Beatmap>)
    ensures r.Some? ==> r.value in maps || r == direct
    ensures r.Some? && mapId.Some? && mapId.value != "" ==> IdText(r.value) == mapId.value
    ensures r.None? ==> maps == [] || (mapId.Some? && mapId.value != "")
  {
    if mapId.Some? && mapId.value != "" then
      if direct.Some? && IdText(direct.value) == mapId.value then direct
      else if maps != [] then FirstWithId(maps, mapId.value)
      else None
    else if maps != [] then
      var k := FirstStandard(maps);
      if k < |maps| then Some(maps[k]) else Some(maps[0])
    else None
  }

  /** The selection as the listener performs it, with its two search loops. */
  method SelectTarget(mapId: Option<string>, direct: Option<Beatmap>, maps: seq<Beatmap>) returns (r: Option<Beatmap>)
    ensures r == Target(mapId, direct, maps)
  {
    r := None;
    if mapId.Some? && mapId.value != "" {
      if direct.Some? && IdText(direct.value) == mapId.value {
        return direct;
      }
      var i := 0;
      while i < |maps|
        invariant 0 <= i <= |maps|
        invariant FirstWithId(maps, mapId.value) == FirstWithId(maps[i..], mapId.value)
      {
        if IdText(maps[i]) == mapId.value {
          return Some(maps[i]);
        }
        assert maps[i..][1..] == maps[i + 1..];
        i := i + 1;
      }
    } else if maps != [] {
      var i := 0;
      while i < |maps|
        invariant 0 <= i <= |maps|
        invariant forall j :: 0 <= j < i ==> maps[j].rulesetId != Some(0)
      {
        if maps[i].rulesetId == Some(0) {
          FirstStandardIsFirst(maps, i);
          return Some(maps[i]);
        }
        i := i + 1;
      }
      FirstStandardIsFirst(maps, |maps|);
      r := Some(maps[0]);
    }
  }

  /** `FirstStandard` is the one index before which no difficulty is standard and at which one is (or the end). */
  lemma FirstStandardIsFirst(maps: seq<Beatmap>, k: nat)
    requires k <= |maps|
    requires k < |maps| ==> maps[k].rulesetId == Some(0)
    requires forall j :: 0 <= j < k ==> maps[j].rulesetId != Some(0)
    ensures FirstStandard(maps) == k
  {
  }

  /** For a set link, the shown difficulty is standard exactly when the set has a standard one, and it is the first such. */
  lemma SetLinkShowsFirstStandard(maps: seq<Beatmap>)
    requires maps != []
    ensures Target(None, None, maps).Some?
    ensures Target(None, None, maps).value in maps
    ensures Target(None, None, maps).value.rulesetId == Some(0) <==>
      exists i :: 0 <= i < |maps| && maps[i].rulesetId == Some(0)
    ensures (forall i :: 0 <= i < |maps| ==> maps[i].rulesetId != Some(0)) ==> Target(None, None, maps) == Some(maps[0])
  {
    var k := FirstStandard(maps);
    if k == |maps| {
      if maps[0].rulesetId == Some(0) {
        assert false;
      }
    }
  }

  /** A difficulty link only ever shows a difficulty whose id text is the URL's. */
  lemma DifficultyLinkMatchesId(mapId: string, direct: Option<Beatmap>, maps: seq<Beatmap>)
    requires mapId != ""
    ensures Target(Some(mapId), direct, maps).Some? ==> IdText(Target(Some(mapId), direct, maps).value) == mapId
  {
  }

  /** A difficulty id with a leading zero fetches that difficulty but never matches its id text, so nothing is shown. */
  lemma LeadingZeroIdIsNotFound(n: nat, fetchMap: int -> Option<Beatmap>, fetchSet: int -> SetReply)
    requires fetchMap(n).Some? && fetchMap(n).value.id == Some(n)
    ensures var mapId := Some("0" + NatToString(n));
      var (maps, direct) := Fetched(mapId, None, fetchMap, fetchSet);
      maps == [fetchMap(n).value] && Target(mapId, direct, maps).None?
  {
    var text := "0" + NatToString(n);
    assert text[1..] == NatToString(n);
    assert AllDigits(text);
    DigitsOfNat(n);
    DigitsValueLeadingZero(NatToString(n));
    assert ParseInt(text) == Some(n);
    assert |IntToString(n)| < |text|;
  }

  lemma {:induction false} DigitsValueLeadingZero(s: string)
    requires AllDigits(s)
    ensures AllDigits("0" + s) && DigitsValue("0" + s) == DigitsValue(s)
  {
    if s != [] {
      var t := "0" + s;
      assert t[..|t| - 1] == "0" + s[..|s| - 1];
      DigitsValueLeadingZero(s[..|s| - 1]);
    } else {
      assert ("0" + s)[..0] == [];
    }
  }

  // ---------------------------------------------------------------------
  // The status and the footer

  /** The status value the card passes on, or the undefined name reached in the last fallback. */
  datatype StatusSource = Value(v: Json) | UndefinedName

  /**
   * As written: the set's status when it is a string, else its `ranked`
   * (falling back to `approved`); when that is None the code reads
   * `current_beatmap_data`, a name defined nowhere, and the listener fails.
   */
  function StatusAsWritten(target: Beatmap): (r: StatusSource)
    ensures r.Value? ==> !r.v.Absent? && !r.v.Null?
    ensures target.beatmapset.Some? && target.beatmapset.value.status.Str? ==> r == Value(target.beatmapset.value.status)
  {
    var data := target.beatmapset.GetOr(SetData(Absent, Absent, Absent, None));
    if data.status.Str? then Value(data.status)
    else
      var raw := Get(data.ranked, Get(data.approved, Absent));
      if raw.Absent? || raw.Null? then UndefinedName else Value(raw)
  }

  /** A difficulty without its nested set always reaches the undefined name. */
  lemma MissingSetFails(target: Beatmap)
    requires target.beatmapset.None?
    ensures StatusAsWritten(target) == UndefinedName
  {
  }

  /** As evidently intended: the last fallback reads the shown difficulty's own status fields. */
  function StatusFixed(target: Beatmap): (r: StatusSource)
    ensures r.Value?
    ensures target.beatmapset.None? && target.status.Str? ==> r == Value(target.status)
  {
    match StatusAsWritten(target)
    case Value(v) => Value(v)
    case UndefinedName =>
      if target.status.Str? then Value(target.status)
      else Value(Get(target.ranked, Get(target.approved, Absent)))
  }

  /** The fixed lookup never fails, agrees wherever the written one succeeds, and uses the difficulty's string status. */
  lemma StatusFixedAgrees(target: Beatmap)
    ensures StatusFixed(target).Value?
    ensures StatusAsWritten(target).Value? ==> StatusFixed(target) == StatusAsWritten(target)
    ensures StatusAsWritten(target).UndefinedName? && target.status.Str? ==> StatusFixed(target) == Value(target.status)
  {
  }

  /** The status value as the status display receives it: strings, integers, anything else. */
  function StatusInputOf(v: Json): BeatmapUtils.StatusInput {
    match v
    case Str(s) => BeatmapUtils.Named(s)
    case Num(n) => BeatmapUtils.Numbered(n)
    case _ => BeatmapUtils.NoStatus
  }

  /** The difficulty count for the footer: the set's `total`, else the list length, and only for set links. */
  function FooterCount(mapId: Option<string>, setId: Option<string>, target: Beatmap, maps: seq<Beatmap>): (r: int)
    ensures r != 0 ==> (mapId.None? || mapId.value == "") && setId.Some? && setId.value != ""
    ensures target.beatmapset.None? && (mapId.None? || mapId.value == "") && setId.Some? && setId.value != "" ==> r == |maps|
  {
    if !(mapId.Some? && mapId.value != "") && setId.Some? && setId.value != "" then
      if target.beatmapset.Some? && target.beatmapset.value.total.Some? then target.beatmapset.value.total.value
      else |maps|
    else 0
  }

  /** The footer mentions several difficulties only for a set link whose count is above one. */
  predicate MultipleFooter(mapId: Option<string>, setId: Option<string>, target: Beatmap, maps: seq<Beatmap>) {
    !(mapId.Some? && mapId.value != "") && FooterCount(mapId, setId, target, maps) > 1
  }

  lemma FooterOnlyForSets(mapId: Option<string>, setId: Option<string>, target: Beatmap, maps: seq<Beatmap>)
    ensures MultipleFooter(mapId, setId, target, maps) ==> (mapId.None? || mapId.value == "") && setId.Some? && setId.value != ""
    ensures (mapId.None? || mapId.value == "") && setId.Some? && setId.value != "" && target.beatmapset.None? ==>
      (MultipleFooter(mapId, setId, target, maps) <==> |maps| > 1)
  {
  }

  // ---------------------------------------------------------------------
  // The listener

  /** What the card shows: the difficulty, its status value, its two length texts and the footer count (when shown). */
  datatype Card = Card(target: Beatmap, status: BeatmapUtils.StatusInput, length: string, hitLength: string,
                       footerCount: Option<int>)

  /**
   * `on_message` after the URL search, with the two corrections of this
   * module: the status falls back to the difficulty's own fields and the
   * lengths keep their hours. None is what the listener reports (when the
   * bot is mentioned) as an API error.
   */
  function OnMessage(g: UrlGroups, fetchMap: int -> Option<Beatmap>, fetchSet: int -> SetReply): (r: Option<Card>)
    ensures r.Some? && r.value.footerCount.Some? ==>
      r.value.footerCount.value > 1 && (MapIdText(g).None? || MapIdText(g).value == "")
    ensures r.Some? ==> r.value.status == StatusInputOf(StatusFixed(r.value.target).v)
  {
    var mapId := MapIdText(g);
    var setId := SetIdText(g);
    var (maps, direct) := Fetched(mapId, setId, fetchMap, fetchSet);
    if maps == [] then None
    else
      match Target(mapId, direct, maps)
      case None => None
      case Some(target) =>
        var count := if MultipleFooter(mapId, setId, target, maps) then Some(FooterCount(mapId, setId, target, maps)) else None;
        Some(Card(target, StatusInputOf(StatusFixed(target).v),
                  FormatLengthFixed(Some(target.totalLength)), FormatLengthFixed(Some(target.hitLength)), count))
  }

  /** A difficulty id in the URL wins: the set lookup is never consulted, whatever it would answer. */
  lemma DifficultyIdWins(g: UrlGroups, fetchMap: int -> Option<Beatmap>, fetchSet: int -> SetReply, otherSet: int -> SetReply)
    requires MapIdText(g).Some? && MapIdText(g).value != ""
    ensures OnMessage(g, fetchMap, fetchSet) == OnMessage(g, fetchMap, otherSet)
    ensures OnMessage(g, fetchMap, fetchSet).Some? ==> OnMessage(g, fetchMap, fetchSet).value.footerCount.None?
  {
  }

  /** A shown card always comes from the fetched list, and a difficulty link shows the requested id. */
  lemma CardFromFetched(g: UrlGroups, fetchMap: int -> Option<Beatmap>, fetchSet: int -> SetReply)
    ensures var r := OnMessage(g, fetchMap, fetchSet);
      r.Some? ==> r.value.target in Fetched(MapIdText(g), SetIdText(g), fetchMap, fetchSet).0
    ensures var r := OnMessage(g, fetchMap, fetchSet);
      r.Some? && MapIdText(g).Some? && MapIdText(g).value != "" ==> IdText(r.value.target) == MapIdText(g).value
  {
    var mapId := MapIdText(g);
    var (maps, direct) := Fetched(mapId, SetIdText(g), fetchMap, fetchSet);
    if maps != [] && !(mapId.Some? && mapId.value != "") {
      SetLinkShowsFirstStandard(maps);
    }
  }

  /**
   * The card's lengths read back as the difficulty's lengths under a day,
   * and its status is the set's whenever the listener as written finds one.
   */
  lemma CardShowsTarget(g: UrlGroups, fetchMap: int -> Option<Beatmap>, fetchSet: int -> SetReply)
    ensures var r := OnMessage(g, fetchMap, fetchSet);
      r.Some? && 0 < r.value.target.totalLength < 86400 ==> ReadClock(r.value.length) == Some(r.value.target.totalLength)
    ensures var r := OnMessage(g, fetchMap, fetchSet);
      r.Some? && 0 < r.value.target.hitLength < 86400 ==> ReadClock(r.value.hitLength) == Some(r.value.target.hitLength)
    ensures var r := OnMessage(g, fetchMap, fetchSet);
      r.Some? && StatusAsWritten(r.value.target).Value? ==>
        r.value.status == StatusInputOf(StatusAsWritten(r.value.target).v)
  {
    var r := OnMessage(g, fetchMap, fetchSet);
    if r.Some? {
      var t := r.value.target;
      if 0 < t.totalLength < 86400 {
        FormatLengthFixedReadsBack(t.totalLength);
      }
      if 0 < t.hitLength < 86400 {
        FormatLengthFixedReadsBack(t.hitLength);
      }
      StatusFixedAgrees(t);
    }
  }

  /** `OSU_MODES_DISPLAY.get(mode, "mode_unknown")`. */
  function ModeKey(mode: int): (r: string)
    ensures !(0 <= mode <= 3) <==> r == "mode_unknown"
  {
    if mode == 0 then "mode_std"
    else if mode == 1 then "mode_taiko"
    else if mode == 2 then "mode_ctb"
    else if mode == 3 then "mode_mania"
    else "mode_unknown"
  }
}
