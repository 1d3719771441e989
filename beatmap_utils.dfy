/**
 * Beatmap helpers of the osu! side of the bot: the status label shown
 * next to a beatmap (emoji plus localized text), the `[Metadata]`
 * section of a `.osu` file, and the legacy mod bitmask with the clock
 * rate handed to the performance calculator.
 */
module BeatmapUtils {
  import opened Wrappers
  import opened Text

  // ---------------------------------------------------------------------
  // Beatmap status display

  /** What the API gave as a status: a string, an integer, or anything else (None). */
  datatype StatusInput = Named(name: string) | Numbered(code: int) | NoStatus

  /** The status keys the function can settle on. */
  datatype Status = Graveyard | Wip | Pending | Ranked | Approved | Qualified | Loved | WorkInProgress | Unknown

  /** The status key as a string. */
  function KeyName(k: Status): string {
    match k
    case Graveyard => "graveyard" case Wip => "wip" case Pending => "pending"
    case Ranked => "ranked" case Approved => "approved" case Qualified => "qualified"
    case Loved => "loved" case WorkInProgress => "work-in-progress" case Unknown => "unknown"
  }

  /** The string keys of `BEATMAP_STATUS_API_MAP`; the key itself, not the value, becomes the status. */
  function ApiStatus(name: string): (r: Option<Status>)
    ensures r.Some? ==> KeyName(r.value) == name && r.value != Unknown
  {
    if name == "graveyard" then Some(Graveyard)
    else if name == "wip" then Some(Wip)
    else if name == "pending" then Some(Pending)
    else if name == "ranked" then Some(Ranked)
    else if name == "approved" then Some(Approved)
    else if name == "qualified" then Some(Qualified)
    else if name == "loved" then Some(Loved)
    else if name == "work-in-progress" then Some(WorkInProgress)
    else None
  }

  /** The keys of `BEATMAP_STATUS_EMOJIS`. */
  function EmojiStatus(name: string): (r: Option<Status>)
    ensures r.Some? ==> KeyName(r.value) == name && r.value != WorkInProgress
  {
    if name == "ranked" then Some(Ranked)
    else if name == "qualified" then Some(Qualified)
    else if name == "approved" then Some(Approved)
    else if name == "loved" then Some(Loved)
    else if name == "pending" then Some(Pending)
    else if name == "wip" then Some(Wip)
    else if name == "graveyard" then Some(Graveyard)
    else if name == "unknown" then Some(Unknown)
    else None
  }

  const UnknownEmoji := "<:WorP:1378351617253838938>"

  /** `BEATMAP_STATUS_EMOJIS[key]`: there is no entry for "work-in-progress". */
  function EmojiEntry(k: Status): Option<string> {
    match k
    case Ranked => Some("<:ranked:1378350261323694221>")
    case Qualified => Some("<:AorQ:1378350246647566346>")
    case Approved => Some("<:AorQ:1378350246647566346>")
    case Loved => Some("<:loved:1378350254805483560>")
    case Pending => Some(UnknownEmoji)
    case Wip => Some(UnknownEmoji)
    case Graveyard => Some(UnknownEmoji)
    case Unknown => Some(UnknownEmoji)
    case WorkInProgress => None
  }

  /** `BEATMAP_STATUS_L10N_KEYS[key]`: again no entry for "work-in-progress". */
  function L10nEntry(k: Status): Option<string> {
    if k == WorkInProgress then None else Some("beatmap_status_" + KeyName(k) + "_emoji")
  }

  /** The integer keys of `BEATMAP_STATUS_API_MAP`, -2 to 4. */
  function CodeStatus(code: int): (r: Option<Status>)
    ensures r.Some? <==> -2 <= code <= 4
    ensures r.Some? ==> r.value != WorkInProgress && r.value != Unknown
  {
    if code == -2 then Some(Graveyard)
    else if code == -1 then Some(Wip)
    else if code == 0 then Some(Pending)
    else if code == 1 then Some(Ranked)
    else if code == 2 then Some(Qualified)
    else if code == 3 then Some(Approved)
    else if code == 4 then Some(Loved)
    else None
  }

  /** `status.lower().replace("_", "-").replace(" ", "-")`. */
  function NormalizeStatus(s: string): (r: string)
    ensures |r| == |s|
    ensures forall i :: 0 <= i < |r| ==> r[i] != '_' && r[i] != ' '
  {
    ReplaceChar(ReplaceChar(Lower(s), '_', '-'), ' ', '-')
  }

  /**
   * The status key `get_beatmap_status_display` settles on. The source's
   * two `elif` tests for "approved" and "qualified" test names the map
   * already holds, so they are folded into the map lookup; the later
   * retry with `status.lower()` against the emoji keys is kept.
   */
  function StatusKey(input: StatusInput): (r: Status)
    ensures input.NoStatus? ==> r == Unknown
    ensures input.Numbered? ==> (r != Unknown <==> -2 <= input.code <= 4)
    ensures input.Named? && r != Unknown ==>
      ApiStatus(NormalizeStatus(input.name)) == Some(r) || EmojiStatus(Lower(input.name)) == Some(r)
  {
    var key :=
      match input
      case Named(s) => ApiStatus(NormalizeStatus(s)).GetOr(Unknown)
      case Numbered(code) => CodeStatus(code).GetOr(Unknown)
      case NoStatus => Unknown;
    if key == Unknown && input.Named? && EmojiStatus(Lower(input.name)).Some? then
      EmojiStatus(Lower(input.name)).value
    else key
  }

  /** `BEATMAP_STATUS_EMOJIS.get(key, BEATMAP_STATUS_EMOJIS["unknown"])`. */
  function EmojiFor(k: Status): (r: string)
    ensures k != WorkInProgress ==> r == EmojiEntry(k).value
    ensures k == WorkInProgress ==> r == UnknownEmoji
  {
    EmojiEntry(k).GetOr(EmojiEntry(Unknown).value)
  }

  /** `BEATMAP_STATUS_L10N_KEYS.get(key, BEATMAP_STATUS_L10N_KEYS["unknown"])`. */
  function L10nKeyFor(k: Status): (r: string)
    ensures k != WorkInProgress ==> r == "beatmap_status_" + KeyName(k) + "_emoji"
    ensures k == WorkInProgress ==> r == "beatmap_status_unknown_emoji"
  {
    L10nEntry(k).GetOr(L10nEntry(Unknown).value)
  }

  /** The text used when the translation is missing: dashes to spaces, then capitalized. */
  function FallbackText(k: Status): (r: string)
    ensures |r| == |KeyName(k)| && r[0] == UpperChar(KeyName(k)[0])
    ensures forall i :: 0 < i < |r| ==> r[i] == LowerChar(if KeyName(k)[i] == '-' then ' ' else KeyName(k)[i])
  {
    Capitalize(ReplaceChar(KeyName(k), '-', ' '))
  }

  /**
   * `get_beatmap_status_display`: the emoji, a space and the localized
   * text; `lstr` is the localization lookup of the calling cog.
   */
  function StatusDisplay(input: StatusInput, user: int, lstr: (int, string, string) -> string): (r: string)
    ensures var e := EmojiFor(StatusKey(input)); |e| < |r| && r[..|e| + 1] == e + " "
    ensures var key := StatusKey(input); r[|EmojiFor(key)| + 1..] == lstr(user, L10nKeyFor(key), FallbackText(key))
  {
    var key := StatusKey(input);
    EmojiFor(key) + " " + lstr(user, L10nKeyFor(key), FallbackText(key))
  }

  lemma ReplaceAbsent(s: string, a: char, b: char)
    requires a !in s
    ensures ReplaceChar(s, a, b) == s
  {
    forall i | 0 <= i < |s| ensures ReplaceChar(s, a, b)[i] == s[i] {
      assert s[i] != a;
    }
  }

  /** Each emoji key other than "unknown" is also a string key of the API map, naming the same status. */
  lemma EmojiNamesAreApiNames(k: Status)
    requires k != WorkInProgress && k != Unknown
    ensures ApiStatus(KeyName(k)) == Some(k)
    ensures '_' !in KeyName(k) && ' ' !in KeyName(k)
  {
    match k
    case Graveyard => case Wip => case Pending => case Ranked =>
    case Approved => case Qualified => case Loved =>
  }

  /**
   * A string status is its normalized form when that is a key of the
   * API map, and "unknown" otherwise: the later retry with `lower()`
   * never changes the outcome, because no emoji key holds '_' or ' '.
   */
  lemma NamedStatusKey(s: string)
    ensures StatusKey(Named(s)) == ApiStatus(NormalizeStatus(s)).GetOr(Unknown)
  {
    var n := NormalizeStatus(s);
    var l := Lower(s);
    var retry := EmojiStatus(l);
    if ApiStatus(n).None? && retry.Some? && retry.value != Unknown {
      EmojiNamesAreApiNames(retry.value);
      ReplaceAbsent(l, '_', '-');
      ReplaceAbsent(l, ' ', '-');
      assert false;
    }
  }

  /** Integers -2..4 name the seven statuses; any other integer, and None, give "unknown". */
  lemma NumberedStatusKey(code: int)
    ensures StatusKey(Numbered(code)) == CodeStatus(code).GetOr(Unknown)
    ensures StatusKey(NoStatus) == Unknown
  {
  }

  /** Separators and case do not matter: "Work_In Progress" and "work-in-progress" are the same status. */
  lemma NormalizedNamesAgree(s: string, t: string)
    requires NormalizeStatus(s) == NormalizeStatus(t)
    ensures StatusKey(Named(s)) == StatusKey(Named(t))
  {
    NamedStatusKey(s);
    NamedStatusKey(t);
  }

  /** Every status except "work-in-progress" shows its own emoji and translation key. */
  lemma KnownStatusesHaveEntries(k: Status)
    requires k != WorkInProgress
    ensures EmojiFor(k) == EmojiEntry(k).value
    ensures L10nKeyFor(k) == "beatmap_status_" + KeyName(k) + "_emoji"
  {
  }

  /**
   * "work-in-progress" is accepted as a status key, yet renders with the
   * unknown emoji, the unknown translation key and its own fallback text.
   */
  lemma WorkInProgressRendersAsUnknown(s: string, user: int, lstr: (int, string, string) -> string)
    requires NormalizeStatus(s) == "work-in-progress"
    ensures StatusKey(Named(s)) == WorkInProgress
    ensures StatusDisplay(Named(s), user, lstr) ==
      UnknownEmoji + " " + lstr(user, "beatmap_status_unknown_emoji", FallbackText(WorkInProgress))
  {
    NamedStatusKey(s);
    assert ApiStatus("work-in-progress") == Some(WorkInProgress);
    assert EmojiFor(WorkInProgress) == UnknownEmoji;
    assert L10nKeyFor(WorkInProgress) == "beatmap_status_unknown_emoji";
  }

  // ---------------------------------------------------------------------
  // The [Metadata] section of a .osu file

  datatype Metadata = Metadata(title: Option<string>, artist: Option<string>, version: Option<string>)

  /** The loop state: inside the section, past its end, and the fields read so far. */
  datatype Scan = Scan(inSection: bool, done: bool, meta: Metadata)

  const Start := Scan(false, false, Metadata(None, None, None))

  /** The value after a key: `line[len(prefix):].strip()`. */
  function ValueAfter(line: string, prefix: string): (r: string)
    requires StartsWith(line, prefix)
    ensures |r| <= |line| - |prefix|
  {
    Strip(line[|prefix|..])
  }

  predicate IsHeader(line: string) {
    StartsWith(line, "[") && EndsWith(line, "]")
  }

  /** One pass of the loop on one raw line. */
  function ScanLine(st: Scan, raw: string): (r: Scan)
    ensures st.done ==> r == st
    ensures st.meta.title.Some? ==> r.meta.title == st.meta.title
    ensures st.meta.artist.Some? ==> r.meta.artist == st.meta.artist
    ensures st.meta.version.Some? ==> r.meta.version == st.meta.version
  {
    var line := Strip(raw);
    var m := st.meta;
    if st.done then st
    else if line == "[Metadata]" then st.(inSection := true)
    else if !st.inSection then st
    else if StartsWith(line, "Title:") && m.title.None? then
      st.(meta := m.(title := Some(ValueAfter(line, "Title:"))))
    else if StartsWith(line, "TitleUnicode:") && m.title.None? then
      st.(meta := m.(title := Some(ValueAfter(line, "TitleUnicode:"))))
    else if StartsWith(line, "Artist:") && m.artist.None? then
      st.(meta := m.(artist := Some(ValueAfter(line, "Artist:"))))
    else if StartsWith(line, "ArtistUnicode:") && m.artist.None? then
      st.(meta := m.(artist := Some(ValueAfter(line, "ArtistUnicode:"))))
    else if StartsWith(line, "Version:") && m.version.None? then
      st.(meta := m.(version := Some(ValueAfter(line, "Version:"))))
    else if IsHeader(line) then st.(done := true)
    else st
  }

  /** The loop over a sequence of lines, from a given state. */
  function Run(st: Scan, lines: seq<string>): (r: Scan)
    ensures st.inSection ==> r.inSection
    ensures r.done ==> st.done || r.inSection
  {
    if lines == [] then st else ScanLine(Run(st, lines[..|lines| - 1]), lines[|lines| - 1])
  }

  lemma {:induction false} RunAppend(st: Scan, a: seq<string>, b: seq<string>)
    ensures Run(st, a + b) == Run(Run(st, a), b)
    decreases |b|
  {
    if b == [] {
      assert a + b == a;
    } else {
      var n := |b| - 1;
      assert (a + b)[..|a + b| - 1] == a + b[..n];
      assert (a + b)[|a + b| - 1] == b[n];
      RunAppend(st, a, b[..n]);
      calc {
        Run(st, a + b);
        ScanLine(Run(st, a + b[..n]), b[n]);
        ScanLine(Run(Run(st, a), b[..n]), b[n]);
        Run(Run(st, a), b);
      }
    }
  }

  /** Once the next section header is met, no later line changes anything. */
  lemma {:induction false} RunDone(st: Scan, lines: seq<string>)
    requires st.done
    ensures Run(st, lines) == st
  {
    if lines != [] {
      RunDone(st, lines[..|lines| - 1]);
    }
  }

  /** The first value found for a field is never replaced. */
  lemma {:induction false} FieldsSetOnce(st: Scan, lines: seq<string>)
    ensures st.meta.title.Some? ==> Run(st, lines).meta.title == st.meta.title
    ensures st.meta.artist.Some? ==> Run(st, lines).meta.artist == st.meta.artist
    ensures st.meta.version.Some? ==> Run(st, lines).meta.version == st.meta.version
  {
    if lines != [] {
      FieldsSetOnce(st, lines[..|lines| - 1]);
    }
  }

  /** Without a `[Metadata]` line nothing is read. */
  lemma {:induction false} NoSectionNothingRead(lines: seq<string>)
    requires forall i :: 0 <= i < |lines| ==> Strip(lines[i]) != "[Metadata]"
    ensures Run(Start, lines) == Start
  {
    if lines != [] {
      NoSectionNothingRead(lines[..|lines| - 1]);
    }
  }

  /** The title value a stripped line offers, `Title:` before `TitleUnicode:`. */
  function TitleOffered(line: string): Option<string> {
    if StartsWith(line, "Title:") then Some(ValueAfter(line, "Title:"))
    else if StartsWith(line, "TitleUnicode:") then Some(ValueAfter(line, "TitleUnicode:"))
    else None
  }

  /** A title that was read comes from a `Title:` or `TitleUnicode:` line of the file. */
  lemma {:induction false} TitleFromALine(lines: seq<string>)
    requires Run(Start, lines).meta.title.Some?
    ensures exists i :: 0 <= i < |lines| && TitleOffered(Strip(lines[i])) == Run(Start, lines).meta.title
  {
    var init := lines[..|lines| - 1];
    var prev := Run(Start, init);
    if prev.meta.title.Some? {
      TitleFromALine(init);
      var i :| 0 <= i < |init| && TitleOffered(Strip(init[i])) == prev.meta.title;
      assert lines[i] == init[i];
    } else {
      var k := |lines| - 1;
      assert TitleOffered(Strip(lines[k])) == Run(Start, lines).meta.title;
    }
  }

  /** A line opening with another character than a key's first does not start with that key. */
  lemma OtherFirstChar(line: string, key: string)
    requires line != [] && key != [] && line[0] != key[0]
    ensures !StartsWith(line, key)
  {
    if |key| <= |line| {
      assert line[..|key|][0] == line[0];
    }
  }

  /** Inside the section, a header other than `[Metadata]` ends it and sets no field. */
  lemma HeaderEndsSection(st: Scan, raw: string)
    requires st.inSection && !st.done
    requires IsHeader(Strip(raw)) && Strip(raw) != "[Metadata]"
    ensures ScanLine(st, raw) == st.(done := true)
  {
    var line := Strip(raw);
    assert line[..1] == "[";
    OtherFirstChar(line, "Title:");
    OtherFirstChar(line, "TitleUnicode:");
    OtherFirstChar(line, "Artist:");
    OtherFirstChar(line, "ArtistUnicode:");
    OtherFirstChar(line, "Version:");
  }

  /**
   * The section ends at the next `[...]` header: whatever follows it is
   * not read, even another `Title:` line.
   */
  lemma SectionEndsAtHeader(a: seq<string>, header: string, b: seq<string>)
    requires Run(Start, a).inSection && !Run(Start, a).done
    requires IsHeader(Strip(header)) && Strip(header) != "[Metadata]"
    ensures Run(Start, a + [header] + b).meta == Run(Start, a).meta
  {
    var st := ScanLine(Run(Start, a), header);
    HeaderEndsSection(Run(Start, a), header);
    RunAppend(Start, a, [header]);
    RunAppend(Start, a + [header], b);
    RunDone(st, b);
  }

  /** `parse_osu_file_metadata` once the file is open: missing fields get their "Unknown" defaults. */
  datatype OsuMetadata = OsuMetadata(title: string, artist: string, version: string)

  function WithDefaults(m: Metadata): OsuMetadata {
    OsuMetadata(m.title.GetOr("Unknown Title"), m.artist.GetOr("Unknown Artist"),
                m.version.GetOr("Unknown Version"))
  }

  /** The whole function: an unreadable file gives the "Error Parsing" placeholders. */
  function MetadataOf(file: Option<seq<string>>): (r: OsuMetadata)
    ensures file.None? ==> r == OsuMetadata("Error Parsing Title", "Error Parsing Artist", "Error Parsing Version")
    ensures file.Some? && Run(Start, file.value).meta.title.None? ==> r.title == "Unknown Title"
    ensures file.Some? && Run(Start, file.value).meta.title.Some? ==> r.title == Run(Start, file.value).meta.title.value
  {
    match file
    case None => OsuMetadata("Error Parsing Title", "Error Parsing Artist", "Error Parsing Version")
    case Some(lines) => WithDefaults(Run(Start, lines).meta)
  }

  /** A file with no metadata section reads as all defaults. */
  lemma NoSectionDefaults(lines: seq<string>)
    requires forall i :: 0 <= i < |lines| ==> Strip(lines[i]) != "[Metadata]"
    ensures MetadataOf(Some(lines)) == OsuMetadata("Unknown Title", "Unknown Artist", "Unknown Version")
  {
    NoSectionNothingRead(lines);
  }

  /** The loop of `parse_osu_file_metadata`, with its `continue` and `break`. */
  method ParseOsuFileMetadata(file: Option<seq<string>>) returns (r: OsuMetadata)
    ensures r == MetadataOf(file)
  {
    if file.None? {
      return OsuMetadata("Error Parsing Title", "Error Parsing Artist", "Error Parsing Version");
    }
    var lines := file.value;
    var inSection := false;
    var meta := Metadata(None, None, None);
    var i := 0;
    while i < |lines|
      invariant 0 <= i <= |lines|
      invariant Run(Start, lines[..i]) == Scan(inSection, false, meta)
    {
      assert lines[..i + 1][..i] == lines[..i];
      var line := Strip(lines[i]);
      if line == "[Metadata]" {
        inSection := true;
        i := i + 1;
        continue;
      }
      if inSection {
        if StartsWith(line, "Title:") && meta.title.None? {
          meta := meta.(title := Some(ValueAfter(line, "Title:")));
        } else if StartsWith(line, "TitleUnicode:") && meta.title.None? {
          meta := meta.(title := Some(ValueAfter(line, "TitleUnicode:")));
        } else if StartsWith(line, "Artist:") && meta.artist.None? {
          meta := meta.(artist := Some(ValueAfter(line, "Artist:")));
        } else if StartsWith(line, "ArtistUnicode:") && meta.artist.None? {
          meta := meta.(artist := Some(ValueAfter(line, "ArtistUnicode:")));
        } else if StartsWith(line, "Version:") && meta.version.None? {
          meta := meta.(version := Some(ValueAfter(line, "Version:")));
        } else if IsHeader(line) {
          ghost var stopped := Run(Start, lines[..i + 1]);
          RunAppend(Start, lines[..i + 1], lines[i + 1..]);
          RunDone(stopped, lines[i + 1..]);
          assert lines[..i + 1] + lines[i + 1..] == lines;
          return WithDefaults(meta);
        }
      }
      i := i + 1;
    }
    assert lines[..i] == lines;
    r := WithDefaults(meta);
  }

  // ---------------------------------------------------------------------
  // Mod bitmask and clock rate

  /** The acronyms of `MOD_ACRONYMS_TO_BITMASK`. */
  datatype Mod = NF | EZ | HD | HR | SD | DT | RX | HT | NC | FL | SO | PF

  /**
   * The keys of `MOD_ACRONYMS_TO_BITMASK`. A dictionary lookup does not
   * depend on the order of its keys, and the keys are distinct, so DT and
   * NC, which the Nightcore rule looks up, are listed first.
   */
  const ModTable: seq<(string, Mod)> := [
    ("DT", DT), ("NC", NC), ("NF", NF), ("EZ", EZ), ("HD", HD), ("HR", HR),
    ("SD", SD), ("RX", RX), ("HT", HT), ("FL", FL), ("SO", SO), ("PF", PF)]

  /** An upper-cased acronym's mod, if it is one of the table's. */
  function ModOf(acronym: string): Option<Mod> {
    Lookup(ModTable, acronym)
  }

  function Bit(m: Mod): (b: bv32)
    ensures b != 0
  {
    match m
    case NF => 1 case EZ => 2 case HD => 8 case HR => 16 case SD => 32 case DT => 64
    case RX => 128 case HT => 256 case NC => 512 case FL => 1024 case SO => 4096 case PF => 16384
  }

  /** Each mod has a bit of its own. */
  lemma BitsDisjoint(m: Mod, n: Mod)
    requires m != n
    ensures Bit(m) & Bit(n) == 0
  {
  }

  /** The clock rate handed to the calculator: 1.0, 1.5 or 0.75. */
  datatype ClockRate = Normal | Faster | Slower

  /** The list actually processed: uppercase "NC" without "DT" brings a "DT" at the end. */
  function Processed(mods: seq<string>): (r: seq<string>)
    ensures |r| >= |mods| && r[..|mods|] == mods
  {
    if "NC" in mods && "DT" !in mods then mods + ["DT"] else mods
  }

  /** The bit an acronym contributes once upper-cased; 0 when it is not in the table. */
  function BitOf(acronym: string): (r: bv32)
    ensures r != 0 <==> ModOf(Upper(acronym)).Some?
    ensures ModOf(Upper(acronym)).Some? ==> r == Bit(ModOf(Upper(acronym)).value)
  {
    match ModOf(Upper(acronym))
    case Some(m) => Bit(m)
    case None => 0
  }

  /** The OR of the bits of the known acronyms. */
  function MaskOf(mods: seq<string>): bv32 {
    if mods == [] then 0 else MaskOf(mods[..|mods| - 1]) | BitOf(mods[|mods| - 1])
  }

  /** The rate after one more acronym: DT and NC speed up, HT slows down, the rest keep it. */
  function NextRate(rate: ClockRate, upper: string): ClockRate {
    if upper == "DT" || upper == "NC" then Faster
    else if upper == "HT" then Slower
    else rate
  }

  /** The last DT, NC or HT in the list decides the rate. */
  function RateOf(mods: seq<string>): ClockRate {
    if mods == [] then Normal
    else NextRate(RateOf(mods[..|mods| - 1]), Upper(mods[|mods| - 1]))
  }

  /** `get_mods_bitmask_and_clock_rate`. */
  function ModsBitmaskAndRate(mods: seq<string>): (r: (bv32, ClockRate))
    ensures mods == [] ==> r == (0, Normal)
    ensures "NC" in mods && "DT" !in mods ==> r.1 == Faster
    ensures !("NC" in mods && "DT" !in mods) ==> r.1 == RateOf(mods)
  {
    if mods == [] then (0, Normal)
    else
      UpperedAcronyms();
      assert "NC" in mods && "DT" !in mods ==> Processed(mods)[..|mods|] == mods;
      (MaskOf(Processed(mods)), RateOf(Processed(mods)))
  }

  /** A mod's bit is set exactly when some acronym names it, in any case. */
  lemma {:induction false} MaskBits(mods: seq<string>, m: Mod)
    ensures MaskOf(mods) & Bit(m) != 0 <==> exists i :: 0 <= i < |mods| && ModOf(Upper(mods[i])) == Some(m)
  {
    if mods != [] {
      var init := mods[..|mods| - 1];
      var last := mods[|mods| - 1];
      MaskBits(init, m);
      var found := ModOf(Upper(last));
      if found.Some? && found.value != m {
        BitsDisjoint(found.value, m);
      }
      if exists i :: 0 <= i < |mods| && ModOf(Upper(mods[i])) == Some(m) {
        var i :| 0 <= i < |mods| && ModOf(Upper(mods[i])) == Some(m);
        if i < |init| {
          assert init[i] == mods[i];
        }
      }
      forall i | 0 <= i < |init| && ModOf(Upper(init[i])) == Some(m)
        ensures ModOf(Upper(mods[i])) == Some(m)
      {
        assert init[i] == mods[i];
      }
    }
  }

  /** Only the twelve table bits can be set. */
  lemma {:induction false} MaskWithinTable(mods: seq<string>)
    ensures MaskOf(mods) & !0x57FB == 0
  {
    if mods != [] {
      MaskWithinTable(mods[..|mods| - 1]);
      BitOfWithinTable(mods[|mods| - 1]);
    }
  }

  lemma BitOfWithinTable(acronym: string)
    ensures BitOf(acronym) & !0x57FB == 0
  {
    var m := ModOf(Upper(acronym));
    if m.Some? {
      BitWithinTable(m.value);
    }
  }

  lemma BitWithinTable(m: Mod)
    ensures Bit(m) & !0x57FB == 0
  {
  }

  /** The empty selection gives no bits at rate 1.0. */
  lemma NoModsNoBits()
    ensures ModsBitmaskAndRate([]) == (0, Normal)
  {
  }

  /**
   * Uppercase "NC" without "DT" also sets the DT bit, and the appended
   * "DT" makes the rate 1.5 whatever came before, even a later "HT".
   */
  lemma NightcoreImpliesDoubleTime(mods: seq<string>)
    requires "NC" in mods && "DT" !in mods
    ensures ModsBitmaskAndRate(mods).0 & Bit(DT) != 0
    ensures ModsBitmaskAndRate(mods).0 & Bit(NC) != 0
    ensures ModsBitmaskAndRate(mods).1 == Faster
  {
    var p := mods + ["DT"];
    assert Processed(mods) == p;
    var k :| 0 <= k < |mods| && mods[k] == "NC";
    UpperedAcronyms();
    assert p[k] == "NC";
    assert ModOf(Upper(p[k])) == Some(NC);
    assert ModOf(Upper(p[|mods|])) == Some(DT);
    MaskBits(p, DT);
    MaskBits(p, NC);
    assert p[..|p| - 1] == mods;
  }

  lemma UpperedAcronyms()
    ensures Upper("NC") == "NC" && Upper("DT") == "DT"
    ensures ModOf("NC") == Some(NC) && ModOf("DT") == Some(DT)
  {
    UpperKeepsCapitals("NC");
    UpperKeepsCapitals("DT");
  }

  lemma UpperKeepsCapitals(s: string)
    requires forall i :: 0 <= i < |s| ==> 'A' <= s[i] <= 'Z'
    ensures Upper(s) == s
  {
  }

  /** The `NC` test is case-sensitive: a lone lowercase "nc" sets the NC bit but not the DT bit. */
  lemma LowercaseNightcore()
    ensures ModsBitmaskAndRate(["nc"]) == (Bit(NC), Faster)
  {
    var mods := ["nc"];
    assert mods[0] != "NC";
    assert Processed(mods) == mods;
    assert mods[..0] == [];
    assert Upper("nc") == "NC";
    UpperedAcronyms();
    assert BitOf("nc") == Bit(NC);
    assert MaskOf(mods) == 0 | Bit(NC);
    assert RateOf(mods) == NextRate(Normal, "NC");
  }

  lemma PrefixStep(mods: seq<string>, i: nat)
    requires i < |mods|
    ensures MaskOf(mods[..i + 1]) == MaskOf(mods[..i]) | BitOf(mods[i])
    ensures RateOf(mods[..i + 1]) == NextRate(RateOf(mods[..i]), Upper(mods[i]))
  {
    assert mods[..i + 1][..i] == mods[..i];
  }

  /** The method form of `get_mods_bitmask_and_clock_rate`. */
  method GetModsBitmaskAndClockRate(selected: seq<string>) returns (bitmask: bv32, rate: ClockRate)
    ensures (bitmask, rate) == ModsBitmaskAndRate(selected)
  {
    if selected == [] {
      return 0, Normal;
    }
    var mods := selected;
    if "NC" in mods && "DT" !in mods {
      mods := mods + ["DT"];
    }
    bitmask, rate := AccumulateMods(mods);
  }

  /** The loop of `get_mods_bitmask_and_clock_rate`: OR in each known bit, track the rate. */
  method AccumulateMods(mods: seq<string>) returns (bitmask: bv32, rate: ClockRate)
    ensures bitmask == MaskOf(mods) && rate == RateOf(mods)
  {
    bitmask, rate := 0, Normal;
    var i := 0;
    assert mods[..0] == [];
    while i < |mods|
      invariant 0 <= i <= |mods|
      invariant bitmask == MaskOf(mods[..i]) && rate == RateOf(mods[..i])
    {
      PrefixStep(mods, i);
      bitmask := bitmask | BitOf(mods[i]);
      rate := NextRate(rate, Upper(mods[i]));
      i := i + 1;
    }
    assert mods[..i] == mods;
  }
}
