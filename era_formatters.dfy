/**
 * Text formatting for the eraTW game: progress bars, clock and day
 * display, affection summaries, star ratings for ability levels and
 * text truncation.
 */
module EraFormatters {
  import opened Wrappers
  import opened Text
  import opened EraEnums
  import opened EraPlayer
  import opened EraRelationship

  /** `ch * n`: n copies of a character, none when n is not positive. */
  function Repeat(ch: char, n: int): (r: string)
    ensures |r| == (if n > 0 then n else 0)
    ensures forall i :: 0 <= i < |r| ==> r[i] == ch
    decreases if n > 0 then n else 0
  {
    if n <= 0 then [] else [ch] + Repeat(ch, n - 1)
  }

  const FillChar := '█'
  const EmptyChar := '░'

  /**
   * Number of filled cells: the ratio of current to maximum, clamped to
   * [0, 1], times the length, truncated toward zero. Computed exactly on
   * integers.
   */
  function FilledCells(current: int, maximum: int, length: int): int
    requires maximum > 0
  {
    var c := if current < 0 then 0 else if current > maximum then maximum else current;
    if length >= 0 then c * length / maximum else -(c * -length / maximum)
  }

  /** `_create_bar`. */
  function CreateBar(current: int, maximum: int, length: int): (r: string)
    ensures |r| == (if length > 0 then length else 0)
    ensures maximum <= 0 || current <= 0 ==> r == Repeat(EmptyChar, length)
    ensures maximum > 0 && current >= maximum ==> r == Repeat(FillChar, length)
    ensures maximum > 0 && length >= 0 ==>
      0 <= FilledCells(current, maximum, length) <= length &&
      r == Repeat(FillChar, FilledCells(current, maximum, length)) +
           Repeat(EmptyChar, length - FilledCells(current, maximum, length))
  {
    if maximum <= 0 then Repeat(EmptyChar, length)
    else
      var filled := FilledCells(current, maximum, length);
      if length >= 0 then
        FilledBounds(current, maximum, length);
        Repeat(FillChar, filled) + Repeat(EmptyChar, length - filled)
      else
        Repeat(FillChar, filled) + Repeat(EmptyChar, length - filled)
  }

  lemma FilledBounds(current: int, maximum: int, length: int)
    requires maximum > 0 && length >= 0
    ensures 0 <= FilledCells(current, maximum, length) <= length
    ensures current <= 0 ==> FilledCells(current, maximum, length) == 0
    ensures current >= maximum ==> FilledCells(current, maximum, length) == length
  {
    var c := if current < 0 then 0 else if current > maximum then maximum else current;
    MulLeq(0, c, length);
    MulLeq(c, maximum, length);
    DivLeq(c * length, maximum * length, maximum);
    MulDivCancel(maximum, length);
  }

  lemma MulLeq(a: int, b: int, k: nat)
    requires a <= b
    ensures a * k <= b * k
  {
  }

  /** Multiplying by a positive factor keeps a strict order in both directions. */
  lemma MulStrictCancel(x: int, y: int, d: int)
    requires d > 0
    ensures d * x < d * y ==> x < y
  {
    if x >= y {
      MulLeq(y, x, d);
    }
  }

  lemma DivLeq(a: int, b: int, d: int)
    requires 0 <= a <= b && d > 0
    ensures a / d <= b / d
  {
    var q, q2 := a / d, b / d;
    assert d * q <= a;
    assert b < d * q2 + d;
    assert d * (q2 + 1) == d * q2 + d;
    MulStrictCancel(q, q2 + 1, d);
  }

  lemma MulDivCancel(m: int, l: int)
    requires m > 0
    ensures m * l / m == l
  {
    var q := m * l / m;
    var r := m * l % m;
    assert m * l == m * q + r && 0 <= r < m;
    assert m * (l - q) == r;
    if l - q >= 1 {
      MulLeq(1, l - q, m);
    } else if l - q <= -1 {
      MulLeq(l - q, -1, m);
    }
  }

  /** A higher current value never fills fewer cells. */
  lemma FilledMonotone(c1: int, c2: int, maximum: int, length: nat)
    requires c1 <= c2 && maximum > 0
    ensures FilledCells(c1, maximum, length) <= FilledCells(c2, maximum, length)
  {
    var a := if c1 < 0 then 0 else if c1 > maximum then maximum else c1;
    var b := if c2 < 0 then 0 else if c2 > maximum then maximum else c2;
    MulLeq(a, b, length);
    DivLeq(a * length, b * length, maximum);
  }

  /** `format_time`: hours wrap modulo 24 and both parts are two digits. */
  function FormatTime(minutes: int): (s: string)
    ensures |s| == 5 && s[2] == ':' && AllDigits(s[..2]) && AllDigits(s[3..])
    ensures DigitsValue(s[..2]) == (minutes / 60) % 24 && DigitsValue(s[3..]) == minutes % 60
  {
    var h := (minutes / 60) % 24;
    var m := minutes % 60;
    Pad2Value(h);
    Pad2Value(m);
    var s := Format02(h) + ":" + Format02(m);
    assert s[..2] == Pad2(h) && s[3..] == Pad2(m);
    s
  }

  /** Within a day the formatter agrees with the save's own clock display. */
  lemma FormatTimeMatchesClock(minutes: int)
    requires 0 <= minutes < MinutesPerDay
    ensures FormatTime(minutes) == FormattedTime(minutes)
  {
  }

  /** The display repeats every day. */
  lemma FormatTimePeriodic(minutes: int)
    ensures FormatTime(minutes + MinutesPerDay) == FormatTime(minutes)
  {
    var q, r := minutes / 60, minutes % 60;
    assert minutes + MinutesPerDay == 60 * (q + 24) + r && 0 <= r < 60;
    assert (minutes + MinutesPerDay) / 60 == q + 24;
    assert (minutes + MinutesPerDay) % 60 == r;
    assert (q + 24) % 24 == q % 24;
  }

  function PeriodLabel(t: TimeOfDay): string {
    match t
    case Dawn => "🌅 黎明"
    case Morning => "☀️ 早晨"
    case Afternoon => "🌤️ 下午"
    case Evening => "🌆 傍晚"
    case Night => "🌙 夜晚"
  }

  /** The period shown by `format_day_time`, judged on the hour before wrapping. */
  function DayPeriod(minutes: int): (r: string)
    ensures r == PeriodLabel(TimeOfDayOf(minutes))
  {
    var hour := minutes / 60;
    if 4 <= hour < 6 then "🌅 黎明"
    else if 6 <= hour < 12 then "☀️ 早晨"
    else if 12 <= hour < 18 then "🌤️ 下午"
    else if 18 <= hour < 20 then "🌆 傍晚"
    else "🌙 夜晚"
  }

  /** `format_day_time`. */
  function FormatDayTime(day: int, minutes: int): (r: string)
    ensures r == "第 " + IntToString(day) + " 天 " + FormatTime(minutes) + " (" + PeriodLabel(TimeOfDayOf(minutes)) + ")"
  {
    "第 " + IntToString(day) + " 天 " + FormatTime(minutes) + " (" + DayPeriod(minutes) + ")"
  }

  /**
   * Because the period uses the unwrapped hour, a reading past midnight
   * shows a wrapped clock with the night label: 29:00 displays "05:00"
   * labelled night, not dawn.
   */
  lemma DayPeriodIgnoresWrap()
    ensures FormatTime(1740) == FormatTime(300)
    ensures DayPeriod(300) == PeriodLabel(Dawn) && DayPeriod(1740) == PeriodLabel(Night)
  {
    FormatTimePeriodic(300);
  }

  /** Emoji and label of an affection value in `format_affection`, by the shared thresholds. */
  function AffectionTier(affection: int): (r: (string, string))
    ensures r == (LevelEmoji[Level(affection)], LevelLabels[Level(affection)])
  {
    if affection >= 900 then ("💕", "戀人")
    else if affection >= 700 then ("💗", "親密")
    else if affection >= 500 then ("💖", "好友")
    else if affection >= 300 then ("❤️", "朋友")
    else if affection >= 100 then ("🧡", "認識")
    else ("💔", "陌生")
  }

  datatype FormatError = ZeroDivision

  /**
   * `format_affection`: emoji, value over maximum, label and a ten-cell
   * bar. The unused percentage divides by the maximum first, so a zero
   * maximum raises.
   */
  function FormatAffection(affection: int, maxAffection: int): (r: Result<string, FormatError>)
    ensures r.Err? <==> maxAffection == 0
    ensures r.Ok? ==> EndsWith(r.value, CreateBar(affection, maxAffection, 10))
  {
    if maxAffection == 0 then Err(ZeroDivision)
    else
      var tier := AffectionTier(affection);
      var head := tier.0 + " " + IntToString(affection) + "/" + IntToString(maxAffection) + " (" + tier.1 + ") ";
      var bar := CreateBar(affection, maxAffection, 10);
      assert (head + bar)[|head + bar| - |bar|..] == bar;
      Ok(head + bar)
  }

  /** Star rating of an ability level: at least 5, at least 3, at least 1, else none. */
  function Stars(level: int): (r: string)
    ensures |r| == 3
  {
    if level >= 5 then "★★★" else if level >= 3 then "★★☆" else if level >= 1 then "★☆☆" else "☆☆☆"
  }

  /** Number of filled stars in a rating. */
  function FilledStars(r: string): nat {
    if r == [] then 0 else (if r[0] == '★' then 1 else 0) + FilledStars(r[1..])
  }

  /** Filled stars count the tiers 1, 3 and 5 the level has reached. */
  lemma StarsCountTiers(level: int)
    ensures FilledStars(Stars(level)) ==
      (if level >= 1 then 1 else 0) + (if level >= 3 then 1 else 0) + (if level >= 5 then 1 else 0)
  {
    var r := Stars(level);
    assert r[1..][1..][1..] == [];
    assert r[1..][0] == r[1] && r[1..][1..][0] == r[2];
    assert FilledStars(r[1..][1..]) == (if r[2] == '★' then 1 else 0);
  }

  /** `_format_level`. */
  function FormatLevel(level: int): (r: string)
    ensures |r| > 3 && r[3..] == " (" + IntToString(level) + ")"
    ensures FilledStars(r[..3]) ==
      (if level >= 1 then 1 else 0) + (if level >= 3 then 1 else 0) + (if level >= 5 then 1 else 0)
  {
    var stars := Stars(level);
    var tail := " (" + IntToString(level) + ")";
    StarsCountTiers(level);
    assert (stars + tail)[..3] == stars && (stars + tail)[3..] == tail;
    stars + tail
  }

  /** Python's `s[:n]`: a negative bound counts from the end. */
  function SliceTo(s: string, n: int): (r: string)
    ensures StartsWith(s, r)
    ensures |r| == (if n >= 0 then (if n <= |s| then n else |s|) else (if |s| + n >= 0 then |s| + n else 0))
  {
    if n >= 0 then (if n <= |s| then s[..n] else s)
    else if |s| + n >= 0 then s[..|s| + n]
    else []
  }

  /** `truncate_text`. */
  function TruncateText(text: string, maxLength: int, suffix: string): (r: string)
    ensures |text| <= maxLength ==> r == text
    ensures |text| > maxLength ==> EndsWith(r, suffix) && StartsWith(text, r[..|r| - |suffix|])
    ensures |text| > maxLength && maxLength >= |suffix| ==> |r| == maxLength
  {
    if |text| <= maxLength then text
    else
      var head := SliceTo(text, maxLength - |suffix|);
      assert (head + suffix)[..|head|] == head;
      assert (head + suffix)[|head + suffix| - |suffix|..] == suffix;
      head + suffix
  }

  /**
   * When the limit is shorter than the suffix, the negative slice bound
   * counts from the end and the result can be longer than the limit:
   * ten characters truncated to 1 with "..." keep eight and add three.
   */
  lemma TruncateShortLimit()
    ensures |TruncateText("abcdefghij", 1, "...")| == 11
  {
  }
}
