/**
 * The index arithmetic and the pure display choices of the osu! score
 * commands (`/best`, `/recent`): paging through a list of scores with
 * Previous/Next buttons, the jump-to-rank modal, the initial index of
 * `/best`, the game-mode choice, the hits string, the rank emoji and the
 * footer note about scores that read 0.
 */
module OsuCog {
  import opened Wrappers
  import opened Text

  // ---------------------------------------------------------------------
  // Paging through scores

  /** A position inside a list of `n` scores (index 0 when the list is empty). */
  predicate InRange(i: int, n: nat) {
    0 <= i && (n == 0 ==> i == 0) && (n > 0 ==> i < n)
  }

  /** Previous: moves back one unless at the first score. */
  function PrevIndex(i: int): int {
    if i == 0 then i else i - 1
  }

  /** Next: moves forward one unless at (or past) the last score. */
  function NextIndex(i: int, n: nat): int {
    if i >= n - 1 then i else i + 1
  }

  /** The buttons never leave the list, and each moves exactly when it is not at its end. */
  lemma NavigationInBounds(i: int, n: nat)
    requires InRange(i, n)
    ensures InRange(PrevIndex(i), n) && InRange(NextIndex(i, n), n)
    ensures PrevIndex(i) == i <==> i == 0
    ensures NextIndex(i, n) == i <==> i >= n - 1
    ensures PrevIndex(i) != i ==> NextIndex(PrevIndex(i), n) == i
  {
  }

  datatype JumpError = NotANumber | OutOfRange

  /** The jump modal: `int(value)` and the range `1..len`, then the 0-based index. */
  function JumpIndex(value: string, n: nat): (r: Result<int, JumpError>)
    ensures r.Ok? ==> InRange(r.value, n) && n > 0
  {
    match ParseInt(Strip(value))
    case None => Err(NotANumber)
    case Some(rank) => if 1 <= rank <= n then Ok(rank - 1) else Err(OutOfRange)
  }

  /** Every rank the modal offers lands on that rank's score, and nothing else is accepted. */
  lemma JumpToRank(rank: int, n: nat)
    ensures 1 <= rank <= n ==> JumpIndex(IntToString(rank), n) == Ok(rank - 1)
    ensures !(1 <= rank <= n) ==> JumpIndex(IntToString(rank), n) == Err(OutOfRange)
  {
    ParseIntOfIntToString(rank);
    StripOfNumber(rank);
  }

  lemma StripOfNumber(k: int)
    ensures Strip(IntToString(k)) == IntToString(k)
  {
    var s := IntToString(k);
    if k < 0 {
      assert s[|s| - 1] == NatToString(-k)[|NatToString(-k)| - 1];
    }
    StripKeepsClean(s);
  }

  datatype BestError = NoBestPlays | RankNotFound

  /** `/best`: no scores is an error; a requested rank outside `1..len` too; else its index. */
  function BestInitialIndex(bpRank: Option<int>, n: nat): (r: Result<int, BestError>)
    ensures r.Ok? ==> n > 0 && InRange(r.value, n)
    ensures r.Ok? && bpRank.Some? ==> r.value == bpRank.value - 1
    ensures bpRank.None? ==> (r.Ok? <==> n > 0)
    ensures bpRank.Some? ==> (r.Ok? <==> 1 <= bpRank.value <= n)
  {
    if n == 0 then Err(NoBestPlays)
    else match bpRank
      case None => Ok(0)
      case Some(rank) => if 1 <= rank <= n then Ok(rank - 1) else Err(RankNotFound)
  }

  /**
   * `BestScoreView` and `RecentScoreView`: the index into the score list and
   * the `disabled` flags of the buttons. Only the best view has a Jump
   * button. The list never changes, so only its length is kept.
   */
  class ScoreView {
    const size: nat
    const hasJump: bool
    var index: int
    var prevDisabled: bool
    var nextDisabled: bool
    var jumpDisabled: bool

    /** `_update_button_states` was applied to the current index. */
    predicate ButtonsMatch()
      reads this
    {
      prevDisabled == (index == 0)
      && nextDisabled == (index >= size - 1)
      && (hasJump ==> jumpDisabled == (size == 0))
    }

    predicate Valid()
      reads this
    {
      InRange(index, size)
    }

    constructor (size: nat, hasJump: bool)
      ensures this.size == size && this.hasJump == hasJump
      ensures index == 0 && Valid() && ButtonsMatch()
    {
      this.size := size;
      this.hasJump := hasJump;
      index := 0;
      prevDisabled := true;
      nextDisabled := 0 >= size - 1;
      jumpDisabled := size == 0;
    }

    method UpdateButtonStates()
      modifies this
      ensures index == old(index) && ButtonsMatch()
      ensures !hasJump ==> jumpDisabled == old(jumpDisabled)
    {
      prevDisabled := index == 0;
      nextDisabled := index >= size - 1;
      if hasJump {
        jumpDisabled := size == 0;
      }
    }

    /** The Previous button's callback: defers at index 0, else steps back and redraws. */
    method Previous() returns (moved: bool)
      requires Valid()
      modifies this
      ensures Valid()
      ensures index == PrevIndex(old(index))
      ensures moved <==> old(index) != 0
      ensures moved ==> ButtonsMatch()
      ensures !moved ==>
        prevDisabled == old(prevDisabled) && nextDisabled == old(nextDisabled) && jumpDisabled == old(jumpDisabled)
    {
      NavigationInBounds(index, size);
      if index == 0 {
        return false;
      }
      index := index - 1;
      UpdateButtonStates();
      moved := true;
    }

    /** The Next button's callback: defers at the last score, else steps forward and redraws. */
    method Next() returns (moved: bool)
      requires Valid()
      modifies this
      ensures Valid()
      ensures index == NextIndex(old(index), size)
      ensures moved <==> old(index) < size - 1
      ensures moved ==> ButtonsMatch()
      ensures !moved ==>
        prevDisabled == old(prevDisabled) && nextDisabled == old(nextDisabled) && jumpDisabled == old(jumpDisabled)
    {
      NavigationInBounds(index, size);
      if index >= size - 1 {
        return false;
      }
      index := index + 1;
      UpdateButtonStates();
      moved := true;
    }

    /** `JumpToBPModal.on_submit`: a valid rank moves there and redraws; anything else changes nothing. */
    method Jump(value: string) returns (r: Result<int, JumpError>)
      requires Valid()
      modifies this
      ensures Valid()
      ensures r == JumpIndex(value, size)
      ensures r.Ok? ==> index == r.value && ButtonsMatch()
      ensures r.Err? ==>
        index == old(index) && prevDisabled == old(prevDisabled)
        && nextDisabled == old(nextDisabled) && jumpDisabled == old(jumpDisabled)
    {
      r := JumpIndex(value, size);
      if r.Ok? {
        index := r.value;
        UpdateButtonStates();
      }
    }

    /** `on_timeout`: every button is disabled. */
    method Timeout()
      modifies this
      ensures index == old(index)
      ensures prevDisabled && nextDisabled && jumpDisabled
    {
      prevDisabled := true;
      nextDisabled := true;
      jumpDisabled := true;
    }
  }

  /** Buttons that match the index are disabled exactly where their callback would only defer. */
  lemma DisabledIffNoMove(i: int, n: nat)
    requires InRange(i, n)
    ensures (i == 0) <==> PrevIndex(i) == i
    ensures (i >= n - 1) <==> NextIndex(i, n) == i
  {
  }

  /**
   * `/best` as written: the view is built (button states computed for index
   * 0), and only then is `current_index` set to the requested rank, so the
   * buttons still describe index 0.
   */
  method OpenBestAsWritten(n: nat, bpRank: Option<int>) returns (r: Result<ScoreView, BestError>)
    ensures r.Err? <==> BestInitialIndex(bpRank, n).Err?
    ensures r.Ok? ==>
      fresh(r.value) && r.value.size == n && r.value.Valid()
      && r.value.index == BestInitialIndex(bpRank, n).value
    ensures r.Ok? ==> r.value.prevDisabled
    ensures r.Ok? && r.value.index > 0 ==> !r.value.ButtonsMatch()
  {
    var start := BestInitialIndex(bpRank, n);
    if start.Err? {
      return Err(start.error);
    }
    var view := new ScoreView(n, true);
    view.index := start.value;
    return Ok(view);
  }

  /** `/best` with the buttons brought up to date for the requested rank. */
  method OpenBest(n: nat, bpRank: Option<int>) returns (r: Result<ScoreView, BestError>)
    ensures r.Err? <==> BestInitialIndex(bpRank, n).Err?
    ensures r.Ok? ==>
      fresh(r.value) && r.value.size == n && r.value.Valid()
      && r.value.index == BestInitialIndex(bpRank, n).value && r.value.ButtonsMatch()
  {
    var start := BestInitialIndex(bpRank, n);
    if start.Err? {
      return Err(start.error);
    }
    var view := new ScoreView(n, true);
    view.index := start.value;
    view.UpdateButtonStates();
    return Ok(view);
  }

  /** `/recent`: an empty list is an error; otherwise the view starts at the newest play. */
  method OpenRecent(n: nat) returns (r: Option<ScoreView>)
    ensures r.None? <==> n == 0
    ensures r.Some? ==>
      fresh(r.value) && r.value.size == n && r.value.index == 0
      && r.value.Valid() && r.value.ButtonsMatch() && !r.value.hasJump
  {
    if n == 0 {
      return None;
    }
    var view := new ScoreView(n, false);
    return Some(view);
  }

  // ---------------------------------------------------------------------
  // Game mode

  /** `OSU_MODES_INT_TO_STRING`. */
  const ModeNames: seq<(string, int)> := [("osu", 0), ("taiko", 1), ("fruits", 2), ("mania", 3)]

  /** `_determine_game_mode`: the explicit mode, else the player's recognised API mode, else the default. */
  function DetermineGameMode(requested: Option<int>, playmode: Option<string>, default: int): (r: int)
    ensures requested.Some? ==> r == requested.value
    ensures requested.None? && (playmode.None? || Lookup(ModeNames, playmode.value).None?) ==> r == default
  {
    match requested
    case Some(m) => m
    case None =>
      match playmode
      case Some(name) =>
        if name != "" then
          match Lookup(ModeNames, name)
          case Some(m) => m
          case None => default
        else default
      case None => default
  }

  /** Each API mode name selects its own number when no mode is requested. */
  lemma PlaymodeSelectsItsNumber(default: int)
    ensures DetermineGameMode(None, Some("osu"), default) == 0
    ensures DetermineGameMode(None, Some("taiko"), default) == 1
    ensures DetermineGameMode(None, Some("fruits"), default) == 2
    ensures DetermineGameMode(None, Some("mania"), default) == 3
  {
  }

  /** Whatever is chosen is the request, a mode number 0..3, or the default. */
  lemma GameModeChoices(requested: Option<int>, playmode: Option<string>, default: int)
    ensures var r := DetermineGameMode(requested, playmode, default);
      (requested.Some? && r == requested.value) || 0 <= r <= 3 || r == default
  {
    if requested.None? && playmode.Some? && playmode.value != "" {
      var m := Lookup(ModeNames, playmode.value);
      if m.Some? {
        LookupFound(ModeNames, playmode.value);
      }
    }
  }

  // ---------------------------------------------------------------------
  // Hits

  /** `stats.get(key, 0)`. */
  function Stat(stats: map<string, int>, key: string): int {
    if key in stats then stats[key] else 0
  }

  /** The statistics shown for each mode, in display order. */
  function HitKeys(mode: int): (r: seq<string>)
    ensures mode == 0 || mode == 2 ==> |r| == 4
    ensures mode == 1 ==> |r| == 3
    ensures mode == 3 ==> |r| == 6
    ensures !(0 <= mode <= 3) ==> r == []
  {
    if mode == 0 || mode == 2 then ["count_300", "count_100", "count_50", "count_miss"]
    else if mode == 1 then ["count_300", "count_100", "count_miss"]
    else if mode == 3 then ["count_geki", "count_300", "count_katu", "count_100", "count_50", "count_miss"]
    else []
  }

  function Counts(stats: map<string, int>, keys: seq<string>): (r: seq<int>)
    ensures |r| == |keys| && forall k :: 0 <= k < |keys| ==> r[k] == Stat(stats, keys[k])
  {
    if keys == [] then [] else [Stat(stats, keys[0])] + Counts(stats, keys[1..])
  }

  function Decimals(ns: seq<int>): (r: seq<string>)
    ensures |r| == |ns| && forall k :: 0 <= k < |ns| ==> r[k] == IntToString(ns[k])
  {
    if ns == [] then [] else [IntToString(ns[0])] + Decimals(ns[1..])
  }

  /** The hits field: the mode's counts joined by "/", or "" (no field) for an unknown mode. */
  function HitsString(mode: int, stats: map<string, int>): (r: string)
    ensures r == "" <==> !(0 <= mode <= 3)
  {
    var keys := HitKeys(mode);
    if keys == [] then ""
    else
      var parts := Decimals(Counts(stats, keys));
      assert |parts[0]| >= 1;
      Join(parts, "/")
  }

  lemma NoSlashInNumber(k: int)
    ensures Free(IntToString(k), '/')
  {
    var s := IntToString(k);
    forall i | 0 <= i < |s| ensures s[i] != '/' {
      if k < 0 {
        assert i == 0 || s[i] == NatToString(-k)[i - 1];
      }
    }
  }

  /** The hits string splits back, at "/", into the mode's counts in order, missing ones as 0. */
  lemma HitsSplitBack(mode: int, stats: map<string, int>)
    requires 0 <= mode <= 3
    ensures var parts := Split(HitsString(mode, stats), '/');
      |parts| == |HitKeys(mode)|
      && forall k :: 0 <= k < |parts| ==> ParseInt(parts[k]) == Some(Stat(stats, HitKeys(mode)[k]))
  {
    var parts := Decimals(Counts(stats, HitKeys(mode)));
    forall k | 0 <= k < |parts| ensures Free(parts[k], '/') {
      NoSlashInNumber(Counts(stats, HitKeys(mode))[k]);
    }
    SplitJoin(parts, '/');
    forall k | 0 <= k < |parts| ensures ParseInt(parts[k]) == Some(Stat(stats, HitKeys(mode)[k])) {
      ParseIntOfIntToString(Counts(stats, HitKeys(mode))[k]);
    }
  }

  // ---------------------------------------------------------------------
  // Rank emoji

  const EmojiXH := "<:rkhdfl:1373246417350561844>"
  const EmojiSilverS := "<:rkshdfl:1373964175671427143>"
  const EmojiSilverSS := "<:rkhdflss:1373246464522653727>"

  /** `RANK_EMOJI_MAP`. */
  const RankEmojiMap: seq<(string, string)> := [
    ("XH", "<:rkhdfl:1373246417350561844>"),
    ("X", "<:rkss:1373246926379679836>"),
    ("SH", "<:rkhdfl:1373246417350561844>"),
    ("S", "<:rks:1373246734079230072>"),
    ("A", "<:rka:1373246979211132988>"),
    ("B", "<:rkb:1373247010169159721>"),
    ("C", "<:rkc:1373247035268006010>"),
    ("D", "<:rkd:1373247061360644187>")
  ]

  /** The mods text: the acronyms run together, or the "No Mod" text. */
  function ModsText(mods: seq<string>, noMod: string): string {
    if mods == [] then noMod else Concat(mods)
  }

  /** "HD" or "FL" occurs anywhere in the mods text (a substring test). */
  predicate HiddenOrFlashlight(modsText: string) {
    Contains(modsText, "HD") || Contains(modsText, "FL")
  }

  /** The rank emoji for an upper-cased rank: XH and SH have their own; X and S with HD/FL turn silver. */
  function RankEmoji(rank: string, modsText: string): (r: string)
    ensures rank == "X" && HiddenOrFlashlight(modsText) ==> r == EmojiSilverSS
    ensures rank == "S" && HiddenOrFlashlight(modsText) ==> r == EmojiSilverS
    ensures rank == "XH" ==> r == EmojiXH
    ensures rank == "SH" ==> r == EmojiSilverS
    ensures (rank == "X" || rank == "S") && !HiddenOrFlashlight(modsText) ==> r == Lookup(RankEmojiMap, rank).value
  {
    var base :=
      if rank == "XH" then EmojiXH
      else if rank == "SH" then EmojiSilverS
      else Lookup(RankEmojiMap, rank).GetOr(rank);
    if rank == "X" && HiddenOrFlashlight(modsText) then EmojiSilverSS
    else if rank == "S" && HiddenOrFlashlight(modsText) then EmojiSilverS
    else base
  }

  /** A rank outside the map is shown as its own text. */
  lemma UnknownRankShownAsText(rank: string, modsText: string)
    requires forall k :: 0 <= k < |RankEmojiMap| ==> RankEmojiMap[k].0 != rank
    ensures RankEmoji(rank, modsText) == rank
  {
    if Lookup(RankEmojiMap, rank).Some? {
      LookupFound(RankEmojiMap, rank);
    }
  }

  lemma {:induction false} ConcatAround(mods: seq<string>, k: nat)
    requires k < |mods|
    ensures Concat(mods) == Concat(mods[..k]) + mods[k] + Concat(mods[k + 1..])
  {
    if k > 0 {
      ConcatAround(mods[1..], k - 1);
      assert mods[1..][..k - 1] == mods[1..k];
      assert mods[1..][k..] == mods[k + 1..];
      assert Concat(mods[..k]) == mods[0] + Concat(mods[1..k]) by {
        assert mods[..k][1..] == mods[1..k];
      }
    } else {
      assert mods[1..] == mods[k + 1..];
    }
  }

  /** A score played with HD or FL among its mods gets the silver emoji for X and S. */
  lemma HiddenScoresAreSilver(mods: seq<string>, noMod: string, rank: string)
    requires "HD" in mods || "FL" in mods
    requires rank == "X" || rank == "S"
    ensures RankEmoji(rank, ModsText(mods, noMod)) == (if rank == "X" then EmojiSilverSS else EmojiSilverS)
  {
    var k :| 0 <= k < |mods| && (mods[k] == "HD" || mods[k] == "FL");
    ConcatAround(mods, k);
    var i := |Concat(mods[..k])|;
    assert Concat(mods)[i..i + |mods[k]|] == mods[k];
    ContainsAt(Concat(mods), mods[k], i);
  }

  // ---------------------------------------------------------------------
  // Score fallback and footer

  /** What the API v1 lookup gave: no call made (ids missing), an error, a non-dict, or the `score` field. */
  datatype V1Reply = NotCalled | Raised | NotADict | Fields(score: Option<string>)

  /**
   * The API v1 fallback, tried only when the score reads 0 with positive pp:
   * a non-empty score text that parses replaces the score; an unparsable one
   * keeps it without marking a failure; every other outcome marks a failure.
   */
  function ScoreFallback(score: int, pp: Option<real>, v1: V1Reply): (r: (int, bool))
    ensures !(score == 0 && pp.Some? && pp.value > 0.0) ==> r == (score, false)
    ensures r.1 ==> r.0 == score
    ensures r.0 != score ==> v1.Fields? && v1.score.Some? && ParseInt(Strip(v1.score.value)) == Some(r.0)
  {
    if score == 0 && pp.Some? && pp.value > 0.0 then
      match v1
      case Fields(Some(text)) =>
        if text != "" then
          match ParseInt(Strip(text))
          case Some(v) => (v, false)
          case None => (score, false)
        else (score, true)
      case _ => (score, true)
    else (score, false)
  }

  /** The footer: the date and the lazer note, each only when non-empty, joined by " | " (None when neither is). */
  function Footer(date: Option<string>, score: int, pp: Option<real>, v1: V1Reply, note: string): (r: Option<string>)
    ensures date.Some? && date.value != "" ==> r.Some? && |date.value| <= |r.value| && r.value[..|date.value|] == date.value
    ensures (date.None? || date.value == "") && r.Some? ==> r.value == note
  {
    var (shown, failed) := ScoreFallback(score, pp, v1);
    var parts := (if date.Some? && date.value != "" then [date.value] else [])
      + (if shown == 0 && pp.Some? && pp.value > 0.0 && failed && note != "" then [note] else []);
    if parts == [] then None else Some(Join(parts, " | "))
  }

  /** The lazer note appears only for a play that reads 0 with positive pp after a failed fallback. */
  lemma LazerNoteOnlyAfterFailedFallback(score: int, pp: Option<real>, v1: V1Reply, note: string)
    ensures Footer(None, score, pp, v1, note).Some? <==>
      score == 0 && pp.Some? && pp.value > 0.0 && ScoreFallback(score, pp, v1).1 && note != ""
    ensures Footer(None, score, pp, v1, note).Some? ==> Footer(None, score, pp, v1, note).value == note
    ensures score == 0 && pp.Some? && pp.value > 0.0 && !v1.Fields? && note != "" ==> Footer(None, score, pp, v1, note) == Some(note)
  {
  }
}
