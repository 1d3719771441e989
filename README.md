# CialloBot core in Dafny

This project models the core of CialloBot, a Discord bot for osu! players that
also hosts an eraTW-style character mini-game, and proves properties of that
model. Each Dafny module follows one source file of the bot:

- **Mini-game (`Era*` modules)** — the game progress (clock, day rollover,
  time of day), the player's inventory and money, characters with their
  schedules, races and affection/relationship levels, the character manager
  (per-save character state, affection, lovers, the affection ranking), the
  game manager (saves, location moves, interaction targets, money), the command
  manager (the level-gated command list and the talk, touch, hug, kiss, confess
  and other handlers with their affection and time effects), the stand-alone
  exploration game of `era_game.py` (moves, talk, headpat, gift), the CSV loader
  for character and command definitions, and the text formatters. Game progress,
  inventory and manager state are classes whose methods update fields in place
  and are proved against specification functions.
- **Message tracker** — the bounded, insertion-ordered map from bot message ids
  to the user who triggered them, with its "drop the oldest tenth" cleanup.
- **osu! support** — the API client's mod decoding, mode and status mapping,
  URL and beatmap-id parsing, `.osu` metadata parsing, the score/PP paging views
  (`/best`, `/recent`) with their Previous/Next/Jump buttons, the `/pp` and
  `/mapper` commands, and the beatmap-link listener that builds beatmap cards.
- **Localization** — the per-user language preferences, the language-file cache,
  key lookup with its fallback chain (user language, default language, the key
  itself) and placeholder formatting.
- **Utility cogs** — keyword replies, copypasta storage, the help listing, the
  delete button's ownership check, user binding data and message batching.
- **Upload scripts** — the sprite and image upload scripts' URL maps, file-name
  parsing and record counting.

Randomness is a `roll` parameter, the clock an explicit `now`, the network an
oracle function passed in (`send`, `fetch`, `sheets`), and files on disk are
datatypes (`LangFile`, `PrefsFile`, `BindingsFile`, `KeywordFile`, `PastaFile`)
or sequences of lines. Python dictionaries keep insertion order; where the
order matters the model keeps an explicit key sequence beside the map.
Python's `int()` on text is modelled as parsing the ASCII-stripped text.

## Model

| member | source | states |
|---|---|---|
| MessageTracker.CleanupCount | utils/message_tracker.py:69 | the cleanup size `max(1, max_size // 10)` is at least 1, at most `max_size` when that is positive, and is the floor of a tenth for `max_size >= 10` |
| MessageTracker.Cleanup | utils/message_tracker.py:67-75 | the remaining key order is the old one without its first `min(count, size)` ids, and every remaining entry keeps its user |
| MessageTracker.Track | utils/message_tracker.py:32-43 | the id maps to the new user; a new id goes last in insertion order; below capacity every other entry is kept |
| MessageTracker.Lookup | utils/message_tracker.py:46-55 | a user exactly for a tracked id, and then the stored one |
| MessageTracker.Remove | utils/message_tracker.py:57-65 | the id is absent afterwards and exactly the other ids remain |
| MessageTracker.CleanupRemovesOldest | utils/message_tracker.py:67-75 | cleanup deletes exactly the earliest-inserted `min(count, size)` ids and keeps every later id with its user, in order |
| MessageTracker.CleanupWellFormed | utils/message_tracker.py:67-75 | cleanup keeps the key order duplicate-free and in step with the map |
| MessageTracker.TrackWellFormed | utils/message_tracker.py:32-43 | tracking keeps the key order duplicate-free and in step with the map |
| MessageTracker.TrackThenLookup | utils/message_tracker.py:32-55 | after `track_message(m, u)`, `get_trigger_user(m)` is `u` |
| MessageTracker.TrackKeepsOthers | utils/message_tracker.py:40-43 | tracking into a table below capacity leaves every other id's user as it was |
| MessageTracker.TrackWhenFullCleansFirst | utils/message_tracker.py:40-43 | a table holding `max_size` entries is cleaned up before the new id is inserted |
| MessageTracker.TrackStaysWithinCapacity | utils/message_tracker.py:40-43 | with `max_size >= 1`, tracking never takes the number of entries above `max_size` |
| MessageTracker.RetrackKeepsPosition | utils/message_tracker.py:43 | re-tracking a present id overwrites its user but keeps its place in eviction order |
| MessageTracker.RetrackEvictedMovesToEnd | utils/message_tracker.py:40-75 | when the table is full and the re-tracked id is among the oldest, cleanup deletes it first and it returns as the newest key |
| MessageTracker.RemoveSpec | utils/message_tracker.py:57-65 | `remove_message` makes the id absent and leaves every other entry unchanged |
| MessageTracker.RemoveAbsentNoop | utils/message_tracker.py:63 | removing an untracked id changes nothing |
| MessageTracker.Tracker.constructor | utils/message_tracker.py:23-30 | a new tracker is empty with the given `max_size` |
| MessageTracker.Tracker.TrackMessage | utils/message_tracker.py:32-44 | the object's new table is `Track` of the old one (cleanup when full, then assignment) |
| MessageTracker.Tracker.GetTriggerUser | utils/message_tracker.py:46-55 | the stored user for a tracked id, None exactly for an untracked one |
| MessageTracker.Tracker.RemoveMessage | utils/message_tracker.py:57-65 | the object's new table is `Remove` of the old one |
| MessageTracker.Tracker.CleanupOldMessages | utils/message_tracker.py:67-79 | the key-by-key deletion loop leaves exactly `Cleanup` of the old table |
| MessageTracker.Tracker.Clear | utils/message_tracker.py:93-97 | `clear` empties the map |
| MessageTracker.Tracker.GetStats | utils/message_tracker.py:81-91 | `total_tracked` is the number of entries and `max_size` the capacity |
| MessageTracker.Registry.GetMessageTracker | utils/message_tracker.py:101-114 | the first call creates an empty tracker of size 10000; later calls return that same object |
| EraEnums.WeatherOf | cogs/era/models/enums.py:120-128 | `Weather(v)` is defined exactly on 0..5 and inverts the enumeration's value |
| EraEnums.LocationOf | cogs/era/models/enums.py:92-107 | `Location(v)` is defined exactly on 0..9 and inverts the enumeration's value |
| EraEnums.GameStateOf | cogs/era/models/enums.py:131-140 | `GameState(v)` is defined exactly on 0..5 and inverts the enumeration's value |
| EraEnums.WeatherValue | cogs/era/models/enums.py:120-128 | a weather's integer value lies in 0..5 |
| EraEnums.LocationValue | cogs/era/models/enums.py:92-107 | a location's integer value lies in 0..9 |
| EraEnums.GameStateValue | cogs/era/models/enums.py:131-140 | a game state's integer value lies in 0..5 |
| EraEnums.ValuesRoundTrip | cogs/era/models/enums.py:92-140 | every weather, location and game state survives conversion to its integer and back |
| EraPlayer.TimeOfDayOf | cogs/era/models/player.py:36-49 | the bucket of hour `time // 60`: 4-5 dawn, 6-11 morning, 12-17 afternoon, 18-19 evening, otherwise night, each stated as a minute range in both directions |
| EraPlayer.FormattedTime | cogs/era/models/player.py:51-56 | for a reading within a day, five characters "HH:MM" whose digits read back as hours and minutes giving the reading |
| EraPlayer.AdvanceClock | cogs/era/models/player.py:58-65 | a new day is reported exactly when the day goes up by one; otherwise the minutes are simply added; only day and time change |
| EraPlayer.AdvanceClockFrame | cogs/era/models/player.py:58-65 | `advance_time` reports a new day iff `time + minutes >= 1440`, then adds exactly one day, and changes no other field |
| EraPlayer.AdvanceClockStaysInDay | cogs/era/models/player.py:58-65 | from `0 <= time < 1440` and `minutes >= 0` the clock stays in `[0, 1440)` |
| EraPlayer.AdvanceClockConservesMinutes | cogs/era/models/player.py:58-65 | day and time together advance by exactly the span while it crosses at most one midnight |
| EraPlayer.AdvanceClockAtMostOneDay | cogs/era/models/player.py:58-65 | one call adds at most one day, so a span crossing two midnights loses whole days |
| EraPlayer.AdvanceClockTwoDaysExample | cogs/era/models/player.py:58-65 | from day 1 06:00, 2880 minutes later reads as day 2 06:00 |
| EraPlayer.GameProgress.constructor | cogs/era/models/player.py:15-34 | defaults: day 1, time 360, sunny, Hakurei shrine, money 1000, idle, no target |
| EraPlayer.GameProgress.AdvanceTime | cogs/era/models/player.py:58-65 | the fields after the in-place update and the returned flag are `AdvanceClock` of the old record |
| EraPlayer.GameProgress.TimeOfDay | cogs/era/models/player.py:37-50 | dawn exactly from 04:00 to 05:59, morning exactly from 06:00 to 11:59, night exactly before 04:00 or from 20:00 |
| EraPlayer.GameProgress.Formatted | cogs/era/models/player.py:52-56 | within a day, "HH:MM" whose hours and minutes give back the clock |
| EraPlayer.WithItemAdded | cogs/era/models/player.py:74-76 | the item's count (default 0) goes up by the quantity and no other entry changes |
| EraPlayer.WithItemRemoved | cogs/era/models/player.py:78-86 | fails with the items unchanged iff fewer than the quantity are held; otherwise subtracts, drops the entry once not positive, and touches no other entry |
| EraPlayer.RemoveSucceedsIffHas | cogs/era/models/player.py:78-90 | `remove_item` succeeds exactly when `has_item` holds for the same quantity |
| EraPlayer.InventoryKeepsPositiveCounts | cogs/era/models/player.py:74-86 | adding a positive quantity and any removal keep every stored count positive |
| EraPlayer.AddThenRemove | cogs/era/models/player.py:74-86 | removing what was just added restores an inventory of positive counts |
| EraPlayer.Inventory.AddItem | cogs/era/models/player.py:74-76 | the in-place dictionary becomes `WithItemAdded` of the old one |
| EraPlayer.Inventory.constructor | cogs/era/models/player.py:69-72 | a new inventory holds no items |
| EraPlayer.Inventory.RemoveItem | cogs/era/models/player.py:78-86 | the in-place dictionary and the result are `WithItemRemoved` of the old one |
| EraPlayer.Inventory.Has | cogs/era/models/player.py:88-90 | holds exactly when removing that quantity would succeed; an item never held is had only in a non-positive quantity |
| EraPlayer.NewSave | cogs/era/models/player.py:94-125 | a fresh save carries the id, the default progress and the creation time, and survives writing and reading back unchanged |
| EraPlayer.ToDict | cogs/era/models/player.py:127-149 | the id and creation time are written, `updated_at` is stamped with the write time, and what is written always loads |
| EraPlayer.FromDict | cogs/era/models/player.py:151-179 | loading succeeds iff `discord_id` is present and the weather, location and state values are in their enumerations' ranges |
| EraPlayer.FromDictToDict | cogs/era/models/player.py:127-179 | `from_dict(to_dict(s))` restores every field except `updated_at`, which holds the write time |
| EraPlayer.FromDictDefaults | cogs/era/models/player.py:151-179 | a dictionary holding only the Discord id loads as a fresh default save stamped with the read time |
| EraCharacter.WrappedWindowIsComplement | cogs/era/models/character.py:185-190 | a window whose visiting time is later than its leaving time is exactly the complement of the ordinary window over the gap between them |
| EraCharacter.DefaultScheduleWindow | cogs/era/models/character.py:170-190 | with the default schedule (visit 540, leave 1140) a character is available exactly from 540 to 1140 inclusive |
| EraCharacter.NewCharacterDefaults | cogs/era/models/character.py:94-180 | a character built from its id and names is at location 0 (also its home), has no race ("不明"), is female, has never kissed and is nobody's lover |
| EraCharacter.PrimaryRace | cogs/era/models/character.py:192-217 | the result is "不明" exactly when no human, youkai, fairy, spirit or ghost talent is positive |
| EraCharacter.PrimaryRacePrecedence | cogs/era/models/character.py:192-217 | human before youkai before fairy before spirit; each category answers from its own table and an unlisted positive sub-code gives 人類/妖怪/神靈 |
| EraCharacter.BustDescription | cogs/era/models/character.py:219-222 | one of the five fixed names, and "普通" exactly for size 0 or any size outside -2..2 |
| EraCharacter.Values | cogs/era/models/character.py:147-183 | the loaded characters in load order, one per id |
| EraFormatters.Repeat | cogs/era/utils/formatters.py:157 | `ch * n` has `max(n, 0)` characters, all equal to `ch` |
| EraFormatters.CreateBar | cogs/era/utils/formatters.py:141-163 | exactly `length` characters; all empty when `maximum <= 0` or `current <= 0`, all filled when `current >= maximum`, otherwise filled cells then empty cells |
| EraFormatters.FilledBounds | cogs/era/utils/formatters.py:159-161 | the filled count is clamped to `[0, length]`, 0 for `current <= 0` and `length` for `current >= maximum` |
| EraFormatters.FilledMonotone | cogs/era/utils/formatters.py:159-161 | a higher current value never fills fewer cells |
| EraFormatters.FormatTime | cogs/era/utils/formatters.py:87-98 | five characters "HH:MM" whose digits read back as `(minutes // 60) % 24` and `minutes % 60` |
| EraFormatters.FormatTimeMatchesClock | cogs/era/utils/formatters.py:87-98 | within a day the formatter agrees with the save's own clock display |
| EraFormatters.FormatTimePeriodic | cogs/era/utils/formatters.py:96-98 | the display repeats every 1440 minutes |
| EraFormatters.DayPeriod | cogs/era/utils/formatters.py:113-124 | the period label is the save's time-of-day bucket of the unwrapped hour |
| EraFormatters.DayPeriodIgnoresWrap | cogs/era/utils/formatters.py:101-126 | 29:00 shows the clock "05:00" but the night label, because the period uses the unwrapped hour |
| EraFormatters.FormatDayTime | cogs/era/utils/formatters.py:101-126 | the day, the wrapped clock, and the label of the save's own time-of-day bucket for the unwrapped hour |
| EraFormatters.AffectionTier | cogs/era/utils/formatters.py:65-82 | emoji and label follow the shared 900/700/500/300/100 relationship thresholds |
| EraFormatters.FormatAffection | cogs/era/utils/formatters.py:52-84 | raises exactly when the maximum is 0 (the percentage divides by it); otherwise ends with the ten-cell bar |
| EraFormatters.StarsCountTiers | cogs/era/utils/formatters.py:175-182 | the number of filled stars counts the tiers 1, 3 and 5 the level has reached |
| EraFormatters.FormatLevel | cogs/era/utils/formatters.py:166-182 | three star characters whose filled count is the number of tiers 1, 3 and 5 reached, then the level in parentheses |
| EraFormatters.SliceTo | cogs/era/utils/formatters.py:198 | Python's `s[:n]` is a prefix, with a negative bound counting from the end |
| EraFormatters.TruncateText | cogs/era/utils/formatters.py:185-198 | unchanged when short enough; otherwise a prefix of the text followed by the suffix, of length `max_length` when `max_length >= len(suffix)` |
| EraFormatters.TruncateShortLimit | cogs/era/utils/formatters.py:198 | a limit shorter than the suffix can give a result longer than the limit |
| EraRelationship.Level | cogs/era/managers/character_manager.py:119-142 | the relationship level of an affection value lies in 0..5 |
| EraRelationship.LevelThreshold | cogs/era/managers/character_manager.py:131-142 | level k (1..5) is reached exactly from affection `200k - 100` upward: thresholds 100/300/500/700/900 |
| EraRelationship.LevelMonotone | cogs/era/managers/character_manager.py:131-142 | the level is monotone in affection |
| EraRelationship.LevelName | cogs/era/managers/character_manager.py:144-148 | the level's name, and "未知" exactly for a level outside 0..5 |
| EraRelationship.EveryAffectionIsNamed | cogs/era/managers/character_manager.py:144-148 | every affection value maps to one of the six known names |
| EraCharacterManager.Clamp | cogs/era/managers/character_manager.py:102 | `max(-1000, min(1000, v))`: the result lies within the bounds and is the value itself when already inside |
| EraCharacterManager.StateOf | cogs/era/managers/character_manager.py:42-47 | a state is found exactly when the player has a save holding an entry for the character, and it is that entry |
| EraCharacterManager.AffectionIn | cogs/era/managers/character_manager.py:74-79 | 0 for a missing or empty state, else the stored integer affection |
| EraCharacterManager.MergeState | cogs/era/managers/character_manager.py:62-70 | the character's state exists afterwards, holds every update, keeps every other key as it was, and no other character or save field changes |
| EraCharacterManager.AddAffection | cogs/era/managers/character_manager.py:95-97 | a missing or empty state (the test is `if not state`) leaves the save unchanged and reports 0 |
| EraCharacterManager.AddAffectionStoresClamped | cogs/era/managers/character_manager.py:99-102 | the stored and reported affection is `clamp(old + amount, -1000, 1000)` and reads back |
| EraCharacterManager.AddAffectionIsLocal | cogs/era/managers/character_manager.py:99-102 | adding affection to one character leaves every other character's state alone |
| EraCharacterManager.AddAffectionLevelMonotone | cogs/era/managers/character_manager.py:99-142 | a non-negative amount never lowers the relationship level |
| EraCharacterManager.SetLoverReadsBack | cogs/era/managers/character_manager.py:183-192 | after `set_lover`, `is_lover` reads the flag back, whether or not a state existed |
| EraCharacterManager.LoverFlagKeepsAffection | cogs/era/managers/character_manager.py:183-192 | setting the lover flag leaves a non-empty state and the affection as it was |
| EraCharacterManager.AddAffectionKeepsLover | cogs/era/managers/character_manager.py:99-102 | adding affection keeps a lover a lover |
| EraCharacterManager.IsLoverIn | cogs/era/managers/character_manager.py:183-188 | true only when the state holds `is_lover` set to true |
| EraCharacterManager.TimesMetIn | cogs/era/managers/character_manager.py:194-199 | 0 for a missing or empty state, else the stored integer count |
| EraCharacterManager.Insert | cogs/era/managers/character_manager.py:178 | one insertion step of the sort keeps the same multiset of entries |
| EraCharacterManager.SortDesc | cogs/era/managers/character_manager.py:178 | `sort(key=affection, reverse=True)` yields a descending permutation of its input |
| EraCharacterManager.SortDescIsStable | cogs/era/managers/character_manager.py:178 | entries of equal affection keep their original order |
| EraCharacterManager.Qualifying | cogs/era/managers/character_manager.py:170-176 | the filter keeps at most one entry per character |
| EraCharacterManager.QualifyingSpec | cogs/era/managers/character_manager.py:170-176 | the filter keeps exactly the characters with affection at least the minimum, each with its affection |
| EraCharacterManager.ByAffection | cogs/era/managers/character_manager.py:158-179 | the list is sorted by affection, highest first, and is a permutation of the qualifying entries |
| EraCharacterManager.ByAffectionSpec | cogs/era/managers/character_manager.py:158-179 | the list is sorted descending, holds exactly the qualifying characters, and is stable |
| EraCharacterManager.CharacterManager.GetCharacter | cogs/era/managers/character_manager.py:36-40 | a character is found exactly when data is loaded and holds its id, and it is the loaded one |
| EraCharacterManager.CharacterManager.constructor | cogs/era/managers/character_manager.py:25-31 | the manager keeps the game manager it is given |
| EraCharacterManager.CharacterManager.GetCharacterState | cogs/era/managers/character_manager.py:42-47 | a state is found exactly when the player has a save with an entry for the character, and it is that entry |
| EraCharacterManager.CharacterManager.GetAffection | cogs/era/managers/character_manager.py:74-79 | 0 without a save or without a state for the character |
| EraCharacterManager.CharacterManager.GetRelationshipLevel | cogs/era/managers/character_manager.py:119-142 | the level is at most 5, and 0 for a player without a save |
| EraCharacterManager.CharacterManager.GetRelationshipName | cogs/era/managers/character_manager.py:144-148 | the name is always one of the six known names, never "未知" |
| EraCharacterManager.CharacterManager.IsLover | cogs/era/managers/character_manager.py:183-188 | only a character with a state in the player's save can be a lover |
| EraCharacterManager.CharacterManager.GetTimesMet | cogs/era/managers/character_manager.py:194-199 | 0 without a save or without a state for the character |
| EraCharacterManager.CharacterManager.UpdateCharacterState | cogs/era/managers/character_manager.py:49-70 | fails with nothing changed without a save; otherwise the save becomes `MergeState` of it |
| EraCharacterManager.CharacterManager.AddAffectionOf | cogs/era/managers/character_manager.py:81-115 | without a save nothing changes and 0 is returned; otherwise the save and result are `AddAffection` of it |
| EraCharacterManager.CharacterManager.SetLover | cogs/era/managers/character_manager.py:190-192 | merges `is_lover` into the character's state when the player has a save |
| EraCharacterManager.CharacterManager.IncrementTimesMet | cogs/era/managers/character_manager.py:201-205 | returns the previous count plus one and stores it when the player has a save |
| EraCharacterManager.CharacterManager.GetCharactersByAffection | cogs/era/managers/character_manager.py:158-179 | the filtering loop and the sort produce exactly `ByAffection` of the loaded characters, and nothing without loaded data |
| EraGameManager.NewGame | cogs/era/managers/game_manager.py:90-122 | a fresh save for the player, exploring with no target, at the start day, time, money and location, with exactly one zeroed state per loaded character |
| EraGameManager.AdvanceSave | cogs/era/managers/game_manager.py:137-159 | only the save's clock changes, by the game progress clock rule, and the flag reports a new day |
| EraGameManager.MoveSaveSpec | cogs/era/managers/game_manager.py:180-193 | moving to the current location fails with nothing changed; otherwise the travel time passes, the location is the destination and nothing else changes |
| EraGameManager.MoveSave | cogs/era/managers/game_manager.py:180-193 | the outcome is already-here or moved, and either way the save ends at the asked location |
| EraGameManager.SetTarget | cogs/era/managers/game_manager.py:226-236 | succeeds exactly when data is loaded and holds the target; then records it and enters INTERACTING, otherwise the save is unchanged |
| EraGameManager.StartThenEnd | cogs/era/managers/game_manager.py:222-247 | starting then ending an interaction leaves the player exploring with no target and every other field as before |
| EraGameManager.EndInteraction | cogs/era/managers/game_manager.py:244-246 | afterwards there is no current target and the player is exploring; nothing outside the progress changes |
| EraGameManager.CurrentTarget | cogs/era/managers/game_manager.py:249-258 | the loaded character the save points at; none when there is no save, no target, a target id of 0, no data, or an unknown id |
| EraGameManager.SetTargetThenCurrent | cogs/era/managers/game_manager.py:222-258 | a started interaction makes its character current, except that target id 0 reads as no target |
| EraGameManager.SpendMoney | cogs/era/managers/game_manager.py:271-281 | refused with the save unchanged iff money < amount; otherwise deducts exactly the amount |
| EraGameManager.SpendKeepsMoneyNonNegative | cogs/era/managers/game_manager.py:277-280 | spending a non-negative amount never takes money below zero |
| EraGameManager.AddThenSpend | cogs/era/managers/game_manager.py:262-281 | spending what was just added succeeds and restores a save whose money was not negative |
| EraGameManager.AddMoney | cogs/era/managers/game_manager.py:268-269 | the new money, returned and stored, is the old money plus the amount, negative amounts included; nothing else changes |
| EraGameManager.GameManager.constructor | cogs/era/managers/game_manager.py:30-46 | the manager starts with no saves |
| EraGameManager.GameManager.GetPlayerSave | cogs/era/managers/game_manager.py:86-88 | a save exactly when the player has one, and then the stored one |
| EraGameManager.GameManager.HasSave | cogs/era/managers/game_manager.py:124-126 | true exactly when a save is stored for the player |
| EraGameManager.GameManager.CreateNewGame | cogs/era/managers/game_manager.py:90-118 | installs `NewGame` under the player's id, replacing any earlier save, and changes no other entry |
| EraGameManager.GameManager.DeleteSave | cogs/era/managers/game_manager.py:124-133 | returns true iff a save was present, and afterwards `has_save` is false and no other entry changed |
| EraGameManager.GameManager.AdvanceTime | cogs/era/managers/game_manager.py:137-159 | without a save nothing changes and no new day is reported; otherwise the save becomes `AdvanceSave` of it |
| EraGameManager.GameManager.CurrentTimePeriod | cogs/era/managers/game_manager.py:161-166 | morning without a save; otherwise night exactly before 04:00 or from 20:00 on the save's clock |
| EraGameManager.GameManager.MoveToLocation | cogs/era/managers/game_manager.py:170-193 | without a save nothing changes; otherwise the save and outcome are `MoveSave` with the travel cost |
| EraGameManager.GameManager.AvailableCharacters | cogs/era/managers/game_manager.py:197-210 | exactly the loaded characters whose visiting window contains the save's clock, none without a save or data |
| EraGameManager.GameManager.SetInteractionTarget | cogs/era/managers/game_manager.py:212-236 | fails without a save; otherwise the save and outcome are `SetTarget` of it |
| EraGameManager.GameManager.EndInteractionOf | cogs/era/managers/game_manager.py:238-247 | clears the target and sets EXPLORING when a save exists, otherwise fails with nothing changed |
| EraGameManager.GameManager.GetCurrentTarget | cogs/era/managers/game_manager.py:249-258 | a character only when the player has a save with a target and data is loaded, and then the loaded character with that id |
| EraGameManager.GameManager.AddMoneyTo | cogs/era/managers/game_manager.py:262-269 | adds any amount to a present save and returns the new balance; `(False, 0)` without a save |
| EraGameManager.GameManager.SpendMoneyOf | cogs/era/managers/game_manager.py:271-281 | applies `SpendMoney` to a present save; fails with nothing changed without one |
| EraGameManager.GameManager.IncrementCommandCount | cogs/era/managers/game_manager.py:285-289 | adds exactly 1 to the command count of a present save and nothing else changes |
| EraGameManager.GameManager.AddPlayTime | cogs/era/managers/game_manager.py:291-295 | adds the minutes to the play time of a present save and nothing else changes |
| EraCommandManager.Roll | cogs/era/managers/command_manager.py:181 | a `random.randint(lo, hi)` draw lies in `[lo, hi]` |
| EraCommandManager.RollCoversRange | cogs/era/managers/command_manager.py:181 | every value of the range is drawn by some roll |
| EraCommandManager.IsCommandAvailable | cogs/era/managers/command_manager.py:109-127 | from level 3 every command is available, and the four basic commands (300, 301, 302, 309) at every level |
| EraCommandManager.LockedCommands | cogs/era/managers/command_manager.py:109-127 | a command is locked exactly when it is 311/312/20 below level 2 or 22/352 below level 3; 300/301/302/309 and every other id are always available |
| EraCommandManager.Handle | cogs/era/managers/command_manager.py:175-367 | the `_cmd_*` handler (or `_cmd_generic`) of a command: every command but conversation takes time, conversation always succeeds in its own time, only a confession sets the lover flag and only on success, and only touch, hug, the two kisses, temptation and confession can fail |
| EraCommandManager.ContactGating | cogs/era/managers/command_manager.py:210-296 | touch, hug and kiss fail exactly below levels 1, 2 and 3, with the fixed penalties -2, -3 and -10 |
| EraCommandManager.KissOfferedButRefusedAtLevelTwo | cogs/era/managers/command_manager.py:117-119 | at level 2 both kiss commands are offered but the handler always refuses |
| EraCommandManager.ConfessOutcomes | cogs/era/managers/command_manager.py:321-351 | confession succeeds and makes a lover exactly at affection >= 800 (+100); from 500 it fails with +10, below with -20; always 30 minutes |
| EraCommandManager.DeltaRanges | cogs/era/managers/command_manager.py:175-367 | random changes lie in their ranges: conversation 1..5, tea 2..6, headpat 3..8, hug 5..12, kiss 10..20, unregistered commands -2..5 over 10 minutes |
| EraCommandManager.OnlyConfessionMakesLovers | cogs/era/managers/command_manager.py:329-337 | only a confession at affection >= 800 reports `became_lover` |
| EraCommandManager.CommandName | cogs/era/managers/command_manager.py:104 | `COMMANDS.get(id, f"指令{id}")`: the catalogue name, or "指令" followed by the id, which reads back as the id |
| EraCommandManager.CandidateIds | cogs/era/managers/command_manager.py:96-99 | no category (or an empty one) offers every catalogue id in order; an unknown category offers none |
| EraCommandManager.Unlocked | cogs/era/managers/command_manager.py:101-105 | exactly the unlocked ids of the candidate list, each with its catalogue name or "指令{id}" |
| EraCommandManager.CollectUnlocked | cogs/era/managers/command_manager.py:93-105 | the loop over the candidate ids returns exactly `Unlocked`: the unlocked ids with their names, in candidate order |
| EraCommandManager.UnlockedGrows | cogs/era/managers/command_manager.py:109-127 | a higher level never offers fewer commands |
| EraCommandManager.UnlockedDistinct | cogs/era/managers/command_manager.py:101-105 | a candidate list without repeats offers each command at most once |
| EraCommandManager.ListingOfWellFormed | cogs/era/managers/command_manager.py:96-105 | with no category and a catalogue whose order lists each named id once, an id is offered exactly when it is named and unlocked, under its declared name, and never twice |
| EraCommandManager.Apply | cogs/era/managers/command_manager.py:160-171 | a dispatch changes only the character states, the command count and the clock of the save |
| EraCommandManager.ApplyCountsOnce | cogs/era/managers/command_manager.py:160-165 | a dispatch counts exactly one command and moves the clock only when time passed |
| EraCommandManager.ApplyIsLocal | cogs/era/managers/command_manager.py:160-169 | a dispatch changes no other character's state |
| EraCommandManager.ConfessionMakesLover | cogs/era/managers/command_manager.py:329-337 | after a successful confession the target is a lover with affection `clamp(a + 100)` |
| EraCommandManager.CommandManager.GetAvailableCommands | cogs/era/managers/command_manager.py:72-107 | empty without a save or target; otherwise the loop yields exactly the unlocked candidates for the target's level, in category order |
| EraCommandManager.CommandManager.constructor | cogs/era/managers/command_manager.py:39-53 | the manager keeps the game manager, the character manager, the command catalogue and the conversation time it is given, with the character manager bound to the same game manager and a catalogue whose order lists exactly the named ids, each once (as `list(COMMANDS.keys())` does) |
| EraCommandManager.CommandManager.ApplyResult | cogs/era/managers/command_manager.py:160-171 | the count, clock and affection updates leave the save equal to `Apply` of it |
| EraCommandManager.CommandManager.ExecuteCommand | cogs/era/managers/command_manager.py:129-171 | each refusal (no save, no non-zero target, the target not among the loaded characters) happens exactly in its case, in that order, and changes nothing; otherwise the character is loaded and the handler's result is returned and applied once |
| EraExplore.RoutesStayReachable | cogs/era_game.py:61-79 | every route through the move menu that starts at the Hakurei shrine stays within shrine, village, forest, manor and Moriya shrine |
| EraExplore.Connections | cogs/era_game.py:61-79 | every location offers at least one destination and never itself; from a reachable location it offers only reachable ones |
| EraExplore.EveryReachableHasRoute | cogs/era_game.py:61-79 | each of those five locations is the end of some route from the shrine |
| EraExplore.UnreachableLocations | cogs/era_game.py:61-79 | Eientei, the underground and the netherworld never appear on a route from the shrine |
| EraExplore.CharactersAt | cogs/era_game.py:81-93 | the characters listed at a location are exactly those whose location list contains it |
| EraExplore.CharacterLocations | cogs/era_game.py:81-93 | a character has meeting places exactly when it is one of the ten listed characters |
| EraExplore.PickCharacter | cogs/era_game.py:324-331 | nobody exactly when no character is listed at the location; otherwise one of those listed there |
| EraExplore.SomeCharactersNeverMet | cogs/era_game.py:81-93 | Youmu (23) and Koishi (38) are listed only at unreachable locations, so no route meets them |
| EraExplore.TimePeriod | cogs/era_game.py:180-190 | morning 06:00-11:59, afternoon 12:00-17:59, evening 18:00-20:59, night otherwise; no dawn bucket |
| EraExplore.RelationshipName | cogs/era_game.py:379-391 | the emoji and label of the shared 900/700/500/300/100 thresholds |
| EraExplore.WithAffection | cogs/era_game.py:168-172 | stores and returns `clamp(current + amount, -100, 1000)` and changes no other character or field |
| EraExplore.NewPlayer | cogs/era_game.py:154-163 | a new record is at the Hakurei Shrine on day 1 with 1000 money, its clock reads 06:00 in the morning period, and every affection reads 0 |
| EraExplore.Talk | cogs/era_game.py:250-258 | nobody present changes nothing; otherwise a gain of 2..8, the new affection read back, ten minutes more, money and location kept |
| EraExplore.Headpat | cogs/era_game.py:273-289 | nobody present changes nothing; the change is -5 exactly below 100 affection, otherwise 5..15; five minutes more, money and location kept |
| EraExplore.Gift | cogs/era_game.py:294-307 | refused for lack of money exactly when someone is present and money is below 100; a gift costs 100, gains 10..25 and takes five minutes |
| EraExplore.Move | cogs/era_game.py:232-234 | the new location is the chosen one and thirty minutes pass; nothing else changes |
| EraExplore.GiftKeepsMoneyNonNegative | cogs/era_game.py:294-307 | a gift is refused with nothing changed iff money < 100; otherwise it costs 100, so money never goes negative |
| EraExplore.HeadpatPenalty | cogs/era_game.py:279-283 | below 100 affection a headpat applies exactly -5, floored at -100 |
| EraExplore.ClockNeverWraps | cogs/era_game.py:233-235 | moves add 30 minutes with no wrap: from 23:50 a move leaves day 1 at "24:20" |
| EraExplore.PlayerData.constructor | cogs/era_game.py:154-163 | a new player is at the shrine on day 1 at 360 minutes with 1000 money and no affection |
| EraExplore.PlayerData.GetAffection | cogs/era_game.py:165-166 | the stored affection for a character, 0 for one never met |
| EraExplore.PlayerData.FormattedTime | cogs/era_game.py:174-178 | within a day, two digits, a colon and two digits whose hours and minutes give back the clock |
| EraExplore.PlayerData.TimePeriodNow | cogs/era_game.py:180-190 | the morning label exactly from 06:00 to 11:59 and the night label exactly before 06:00 or from 21:00 |
| EraExplore.PlayerData.AddAffection | cogs/era_game.py:168-172 | the in-place update is `WithAffection` of the old record |
| EraExplore.PlayerData.SelectLocation | cogs/era_game.py:227-235 | moves to the chosen location, unchecked against the current one (a menu from an older message may offer an unconnected place), adds 30 minutes and keeps the player within the reachable set, from which every menu draws its options |
| EraExplore.PlayerData.TalkButton | cogs/era_game.py:250-258 | nobody present changes nothing; otherwise a 2..8 gain and ten minutes |
| EraExplore.PlayerData.HeadpatButton | cogs/era_game.py:273-289 | -5 below 100 affection, otherwise a 5..15 gain; five minutes either way |
| EraExplore.PlayerData.GiftButton | cogs/era_game.py:294-307 | the in-place update is `Gift` of the old record and money stays non-negative |
| EraExplore.Players.GetPlayer | cogs/era_game.py:193-200 | creates a default player on first access and returns that same object afterwards |
| EraExplore.Players.constructor | cogs/era_game.py:194 | the in-memory player table starts empty |
| EraCsvLoader.Kept | cogs/era/data/csv_loader.py:82-86 | keeps exactly the rows that are non-empty and whose first cell does not start with ";" or "#", in file order |
| EraCsvLoader.ReadCsv | cogs/era/data/csv_loader.py:68-92 | the filtering loop yields `Kept` of the file's rows, and no rows for a file that cannot be read |
| EraCsvLoader.DefName | cogs/era/data/csv_loader.py:103 | a definition name is the text before the first ";", stripped, so it holds no ";" |
| EraCsvLoader.RowId | cogs/era/data/csv_loader.py:100-102 | a row has an id only when it has at least two cells |
| EraCsvLoader.Definitions | cogs/era/data/csv_loader.py:99-106 | no name in a definition table holds a ";" |
| EraCsvLoader.DefinitionsKeys | cogs/era/data/csv_loader.py:99-106 | an id is defined exactly when some row has at least two cells and that integer id |
| EraCsvLoader.DefinitionsLastWins | cogs/era/data/csv_loader.py:99-106 | the name kept for an id is the one on the last row carrying it |
| EraCsvLoader.AddDefinitions | cogs/era/data/csv_loader.py:94-156 | a definition loader's loop leaves the cache holding its old entries overwritten by the file's definitions |
| EraCsvLoader.CommandNameAfterLoad | cogs/era/data/csv_loader.py:126-140 | after loading a command file, an id has a name iff some row carries it, and the name is the last such row's |
| EraCsvLoader.SetAll | cogs/era/data/csv_loader.py:325-327 | every named attribute gets the value and every other attribute is kept |
| EraCsvLoader.ParseStat | cogs/era/data/csv_loader.py:305-327 | a non-integer value changes nothing; otherwise exactly the table's targets of the stat get the value |
| EraCsvLoader.PairedStatsAgree | cogs/era/data/csv_loader.py:325-327 | a stat row naming two attributes sets both to the row's integer value |
| EraCsvLoader.StatPairs | cogs/era/data/csv_loader.py:311-322 | stamina and reason each name the current value and its maximum |
| EraCsvLoader.ParseNamed | cogs/era/data/csv_loader.py:329-387 | an ability or talent row sets its one mapped attribute when the name is known and the value an integer, and changes nothing otherwise |
| EraCsvLoader.StepFlag | cogs/era/data/csv_loader.py:252-267 | a flag row raises exactly when it names a schedule field and its value is not an integer |
| EraCsvLoader.StepCompatibility | cogs/era/data/csv_loader.py:270-275 | only the compatibility table changes; an integer target and value set that entry, anything else changes nothing |
| EraCsvLoader.StepString | cogs/era/data/csv_loader.py:279-283 | only the occupation and description change: "工作情报" sets the occupation and "10" the description |
| EraCsvLoader.Step | cogs/era/data/csv_loader.py:223-283 | one row raises exactly on a schedule flag with a non-integer value |
| EraCsvLoader.StepAllRaisesIff | cogs/era/data/csv_loader.py:223-283 | a file raises exactly when one of its rows is such a schedule flag |
| EraCsvLoader.OneRowFile | cogs/era/data/csv_loader.py:205-303 | a one-row file is that row applied to the blank record, then the current location set to home, or a raise |
| EraCsvLoader.ParseCharacter | cogs/era/data/csv_loader.py:191-303 | no character exactly for a file without rows; a parsed character carries the file's id and starts at its home |
| EraCsvLoader.ParseFile | cogs/era/data/csv_loader.py:191-303 | an unreadable file gives no character; a parsed character carries the file's id |
| EraCsvLoader.FlagRowStep | cogs/era/data/csv_loader.py:252-267 | a "フラグ" row is handled by the flag rules with its second and third cells |
| EraCsvLoader.NameOnlyFile | cogs/era/data/csv_loader.py:205-303 | a file with only a name row yields the defaults: schedule 540/1140/1380/360, home 0 and current location equal to home |
| EraCsvLoader.BadScheduleFlagRaises | cogs/era/data/csv_loader.py:252-262 | a schedule flag with the value "soon" makes the whole character fail to load |
| EraCsvLoader.OtherBadFlagIgnored | cogs/era/data/csv_loader.py:263-267 | any other flag with a non-integer value is ignored |
| EraCsvLoader.ParseCharacterCsv | cogs/era/data/csv_loader.py:191-303 | the row loop yields `ParseFile`: None for a file with no rows, a raise for a bad schedule flag, otherwise the built character with current location equal to home |
| EraCsvLoader.StepAllAbsorbs | cogs/era/data/csv_loader.py:223-262 | once a prefix of the rows has raised, the whole file has |
| EraCsvLoader.LeadingDigits | cogs/era/data/csv_loader.py:172 | the longest run of digits at the head of a string |
| EraCsvLoader.CharaId | cogs/era/data/csv_loader.py:172-176 | an id exactly for a stem of "Chara" followed by a digit, and then a non-negative number |
| EraCsvLoader.CharaIdOfNumber | cogs/era/data/csv_loader.py:172-176 | a stem of "Chara", the decimal digits of any n and then a non-digit or nothing yields exactly n |
| EraCsvLoader.LeadingDigitsOfRun | cogs/era/data/csv_loader.py:172-176 | the `\d+` run of a digit string followed by a non-digit is that digit string |
| EraCsvLoader.CharaIdExample | cogs/era/data/csv_loader.py:172-176 | "Chara26" gives 26, "Chara1_old" gives 1, "CharaX" gives none |
| EraCsvLoader.Put | cogs/era/data/csv_loader.py:184 | storing a character sets exactly that id; a new id goes last in the load order and a known one keeps its place |
| EraCsvLoader.PutWellFormed | cogs/era/data/csv_loader.py:184 | storing a character keeps the table an insertion-ordered dictionary: every listed id is stored, every stored id listed, none twice |
| EraCsvLoader.LoadOne | cogs/era/data/csv_loader.py:169-187 | one file never removes a character, and a character it adds carries the id its file name gives |
| EraCsvLoader.LoadAll | cogs/era/data/csv_loader.py:158-189 | loading files never removes a character already in the table |
| EraCsvLoader.LoadAllWellFormed | cogs/era/data/csv_loader.py:158-189 | loading any sequence of files keeps the table an insertion-ordered dictionary |
| EraCsvLoader.LoadAllSources | cogs/era/data/csv_loader.py:158-189 | every newly loaded character comes from a file named after its id, carries that id, and in MVP mode is an MVP id |
| EraCsvLoader.CsvLoader.constructor | cogs/era/data/csv_loader.py:42-47 | all caches start empty |
| EraCsvLoader.CsvLoader.LoadDefinitions | cogs/era/data/csv_loader.py:94-156 | each of the four caches receives its file's definitions on top of its old entries, and the characters are untouched |
| EraCsvLoader.CsvLoader.LoadCharacters | cogs/era/data/csv_loader.py:158-189 | a missing folder loads nothing; otherwise the file loop leaves `LoadAll` of the old table |
| EraCsvLoader.CsvLoader.LoadFile | cogs/era/data/csv_loader.py:169-187 | one file is skipped without a `Chara<digits>` stem, outside the MVP list in MVP mode, or when it does not parse; otherwise it is stored |
| EraCsvLoader.CsvLoader.GetCommandName | cogs/era/data/csv_loader.py:419-421 | the loaded name, else "指令" followed by the id |
| EraCsvLoader.CsvLoader.GetCharacter | cogs/era/data/csv_loader.py:415-417 | a character exactly for a loaded id, and then the loaded one |
| BeatmapUtils.CodeStatus | utils/beatmap_utils.py:82-88 | integer statuses exist exactly for -2..4, and never name "work-in-progress" or "unknown" |
| BeatmapUtils.ApiStatus | utils/beatmap_utils.py:65-91 | a string key of the API map names the status whose key it is, and never "unknown" |
| BeatmapUtils.EmojiStatus | utils/beatmap_utils.py:52-61 | a key of the emoji map names the status whose key it is, and never "work-in-progress" |
| BeatmapUtils.EmojiNamesAreApiNames | utils/beatmap_utils.py:52-91 | every emoji key but "unknown" is also a string key of the API map naming the same status, and holds no "_" and no space |
| BeatmapUtils.NormalizeStatus | utils/beatmap_utils.py:116 | normalizing keeps the length and leaves no "_" and no space |
| BeatmapUtils.NamedStatusKey | utils/beatmap_utils.py:113-139 | a string status is its normalized form when the API map holds it and "unknown" otherwise; the later lower-case retry never changes the outcome |
| BeatmapUtils.NumberedStatusKey | utils/beatmap_utils.py:130-131 | an integer status is looked up among -2..4, defaulting to "unknown"; any other input is "unknown" |
| BeatmapUtils.StatusKey | utils/beatmap_utils.py:113-139 | the key settled on: "unknown" without a status; an integer status is known exactly within -2..4; a known key for a string status comes from the API map by its normalized form or from the emoji map by its lower-case form |
| BeatmapUtils.NormalizedNamesAgree | utils/beatmap_utils.py:116-120 | two strings with the same normalized form get the same status |
| BeatmapUtils.KnownStatusesHaveEntries | utils/beatmap_utils.py:54-63 | every status but "work-in-progress" shows its own emoji and its own translation key |
| BeatmapUtils.WorkInProgressRendersAsUnknown | utils/beatmap_utils.py:90 | "work-in-progress" is accepted as a status yet shows the unknown emoji and the unknown translation key |
| BeatmapUtils.EmojiFor | utils/beatmap_utils.py:141 | the emoji is the status's own entry, and the unknown emoji for "work-in-progress", which has none |
| BeatmapUtils.L10nKeyFor | utils/beatmap_utils.py:142-144 | the translation key is "beatmap_status_<key>_emoji", and the unknown key for "work-in-progress" |
| BeatmapUtils.FallbackText | utils/beatmap_utils.py:148-150 | the fallback text has the key's length, dashes become spaces, the first letter is upper-cased and the rest lower-cased |
| BeatmapUtils.StatusDisplay | utils/beatmap_utils.py:106-152 | the display is the emoji, one space, then exactly what the localization lookup answers for the translation key with the fallback text |
| BeatmapUtils.ValueAfter | utils/beatmap_utils.py:221 | a field value is no longer than what follows its key |
| BeatmapUtils.ScanLine | utils/beatmap_utils.py:212-237 | after the section ends a line changes nothing, and a field already read is never overwritten |
| BeatmapUtils.Run | utils/beatmap_utils.py:212-237 | the loop over the lines never leaves the section once inside, and stops only after entering it |
| BeatmapUtils.RunAppend | utils/beatmap_utils.py:212 | scanning a file in two parts is scanning it whole |
| BeatmapUtils.RunDone | utils/beatmap_utils.py:234-237 | once the next section header is met, no later line changes anything |
| BeatmapUtils.FieldsSetOnce | utils/beatmap_utils.py:218-233 | the first value read for a field is kept to the end |
| BeatmapUtils.NoSectionNothingRead | utils/beatmap_utils.py:214-217 | without a "[Metadata]" line no field is read |
| BeatmapUtils.TitleFromALine | utils/beatmap_utils.py:218-225 | a title read comes from a "Title:" or "TitleUnicode:" line of the file |
| BeatmapUtils.SectionEndsAtHeader | utils/beatmap_utils.py:234-237 | lines after the next section header, even another "Title:", are not read |
| BeatmapUtils.HeaderEndsSection | utils/beatmap_utils.py:217-237 | inside the section, a header other than "[Metadata]" ends it and sets no field |
| BeatmapUtils.NoSectionDefaults | utils/beatmap_utils.py:239-244 | a file with no metadata section reads as "Unknown Title", "Unknown Artist", "Unknown Version" |
| BeatmapUtils.MetadataOf | utils/beatmap_utils.py:206-256 | an unreadable file gives the three "Error Parsing" placeholders; otherwise the title is the one read, or "Unknown Title" when none was |
| BeatmapUtils.ParseOsuFileMetadata | utils/beatmap_utils.py:206-256 | the loop with its continue and break computes `MetadataOf`: the scanned fields with their defaults, or the "Error Parsing" placeholders for an unreadable file |
| BeatmapUtils.Bit | utils/beatmap_utils.py:36-49 | every mod of the table has a non-zero bit |
| BeatmapUtils.BitsDisjoint | utils/beatmap_utils.py:36-49 | two different mods never share a bit |
| BeatmapUtils.Processed | utils/beatmap_utils.py:270-273 | the processed list starts with the selection and only ever adds at the end |
| BeatmapUtils.BitOf | utils/beatmap_utils.py:279-281 | an acronym contributes a non-zero bit exactly when its upper-case form is in the table, and then its mod's bit |
| BeatmapUtils.MaskBits | utils/beatmap_utils.py:275-278 | a mod's bit is set exactly when some acronym names it, in any case |
| BeatmapUtils.MaskWithinTable | utils/beatmap_utils.py:36-49 | only the twelve table bits (together 0x57FB) can be set |
| BeatmapUtils.NoModsNoBits | utils/beatmap_utils.py:266-267 | no mods give mask 0 at rate 1.0 |
| BeatmapUtils.NightcoreImpliesDoubleTime | utils/beatmap_utils.py:272-283 | an uppercase "NC" without "DT" sets both bits and the rate 1.5, even after an "HT" |
| BeatmapUtils.LowercaseNightcore | utils/beatmap_utils.py:272-283 | the NC test is case-sensitive: a lone "nc" sets only the NC bit, at rate 1.5 |
| BeatmapUtils.GetModsBitmaskAndClockRate | utils/beatmap_utils.py:259-291 | the method returns `ModsBitmaskAndRate` of the selection |
| BeatmapUtils.ModsBitmaskAndRate | utils/beatmap_utils.py:259-291 | no mods give mask 0 at rate 1.0; an uppercase "NC" without "DT" always ends at rate 1.5 (the appended "DT" is last); otherwise the rate is set by the last DT, NC or HT of the selection |
| BeatmapUtils.AccumulateMods | utils/beatmap_utils.py:275-283 | the loop ORs in each known bit and leaves the rate set by the last DT, NC or HT |
| OsuApi.ValidTokenKept | utils/osu_api.py:69-81 | a cached token that has not reached its expiry is used as it is, whatever the token endpoint would say |
| OsuApi.EnsureOutcome | utils/osu_api.py:34-81 | success leaves a token; failure happens exactly when a token was needed and the grant failed, and leaves no token and expiry 0; a grant sets expiry to now + expires_in - 60 |
| OsuApi.FreshTokenLifetime | utils/osu_api.py:51-75 | a fresh token is reused exactly until 60 seconds before the server's expiry |
| OsuApi.Fetch | utils/osu_api.py:34-67 | a grant installs its token with an expiry 60 seconds early and reports success; a failed grant clears the cache and reports failure |
| OsuApi.Ensure | utils/osu_api.py:69-81 | a cached token not yet at its expiry is kept without asking the server; success always leaves a token |
| OsuApi.OsuClient.constructor | utils/osu_api.py:16-22 | the client keeps its credentials and starts with no token and expiry 0 |
| OsuApi.OsuClient.GrantPayload | utils/osu_api.py:39-44 | the form body is client_id, client_secret, grant_type=client_credentials and scope=public, the grant of section 4.4 of RFC 6749 |
| OsuApi.OsuClient.GetAccessToken | utils/osu_api.py:34-67 | the cache and the result become `Fetch` of the grant at the given time |
| OsuApi.OsuClient.EnsureToken | utils/osu_api.py:69-81 | the cache and the result become `Ensure` of the old cache |
| OsuApi.OsuClient.Request | utils/osu_api.py:83-164 | no request goes out and None comes back when no token can be had; otherwise the request carries the verb, the URL, the parameters, the payload and the bearer token, and the result is `ReadReply` of the reply |
| OsuApi.UrlShape | utils/osu_api.py:108-111 | the URL is the base, exactly one "/", and the endpoint without its leading "/" |
| OsuApi.UrlSlashOptional | utils/osu_api.py:108-111 | an endpoint names the same URL with or without its leading "/" |
| OsuApi.Url | utils/osu_api.py:108-111 | every request URL is the API base followed by "/" |
| OsuApi.ReadReply | utils/osu_api.py:119-164 | a value only for an HTTP status below 400; any non-empty value is the parsed body; a 204 gives the empty object |
| OsuApi.ReadReplyNone | utils/osu_api.py:119-164 | a reply yields nothing exactly on a transport error, a status of 400 or more, or a body that does not parse, where 204 and an empty 200 are exempt |
| OsuApi.EmptySuccessIsEmptyObject | utils/osu_api.py:119-137 | a 204, or a 200 with an empty body, reads as an empty object |
| OsuApi.UserRequestShape | utils/osu_api.py:169-190 | the endpoint starts "/users/" + identifier, gets "/mode" only for a non-empty mode, and `key=username` is sent exactly for username lookups |
| OsuApi.UserRequest | utils/osu_api.py:169-190 | at most one query parameter, and a given mode ends the endpoint as "/" + mode |
| OsuApi.RecentParams | utils/osu_api.py:207-212 | limit and include_fails ("1"/"0") always come first, then mode when non-empty and offset when given |
| OsuApi.BestParams | utils/osu_api.py:254-256 | one page asks for limit and offset, plus mode when non-empty |
| OsuApi.BeatmapsetsOf | utils/osu_api.py:301-359 | a list result is returned as it is; anything returned came from a result |
| OsuApi.BeatmapsetsShapes | utils/osu_api.py:333-359 | beatmapsets come back exactly for a list or a dict holding a "beatmapsets" list |
| OsuApi.BestCallSizes | utils/osu_api.py:246-256 | every page request asks for between 1 and 100 scores |
| OsuApi.BestOffsetsAdvance | utils/osu_api.py:238-286 | the first request is at the given offset and each next one is the previous offset plus the length of the page it returned |
| OsuApi.BestWithinLimit | utils/osu_api.py:246-299 | when the server never returns more than asked, the total never exceeds the limit |
| OsuApi.BestKeepsCollected | utils/osu_api.py:262-299 | what is returned extends what was collected, and None only when nothing was |
| OsuApi.BestNoneIffFirstFails | utils/osu_api.py:262-274 | None comes back exactly when the limit is positive and the first page is not a list |
| OsuApi.BestFrom | utils/osu_api.py:262-299 | None only when nothing was collected; otherwise the result extends what was collected |
| OsuApi.BestCalls | utils/osu_api.py:246-286 | a request is made exactly while the total is short of the limit, and the first one is at the current offset |
| OsuApi.GetUserBest | utils/osu_api.py:216-299 | the pagination loop returns `BestFrom` from the start offset (0 when none is given) |
| OsuApi.Chunks | utils/osu_api.py:394 | an even-length string splits into its consecutive two-character pieces |
| OsuApi.ChunksJoin | utils/osu_api.py:394 | joining the pieces gives the string back |
| OsuApi.AttributesMods | utils/osu_api.py:387-398 | absent mods are not sent; a non-empty even-length string is sent as its two-letter chunks; any other value as it is |
| OsuApi.RulesetPrecedence | utils/osu_api.py:407-413 | an explicit ruleset id, even 0, wins; the name is consulted only without one, and only when non-empty |
| OsuApi.RulesetNames | utils/osu_api.py:409-410 | names are matched case-insensitively ("Mania" is 3) and an unknown name gives no ruleset |
| OsuApi.RulesetOfName | utils/osu_api.py:409-410 | a known ruleset name gives an id from 0 to 3 |
| OsuApi.AttributesBody | utils/osu_api.py:392-413 | mods are sent exactly when given; an explicit ruleset id is sent as it is; one looked up by name is from 0 to 3 |
| OsuApi.Value | utils/osu_api.py:432-448 | every table value is a single bit below 0x8000 |
| OsuApi.Acronym | utils/osu_api.py:432-448 | every table acronym is two capital letters |
| OsuApi.AcronymsDistinct | utils/osu_api.py:430-446 | distinct mods have distinct acronyms |
| OsuApi.Flags | utils/osu_api.py:447-461 | a mod is in the decoded set exactly when its bit is set in the integer, as Python's `&` sees it |
| OsuApi.LoopModsMembers | utils/osu_api.py:453-460 | the table loop writes a mod exactly when its bit is set and it is not skipped |
| OsuApi.DecodeNeverShowsHalfTime | utils/osu_api.py:447-460 | HT is never written, whatever the bits |
| OsuApi.DecodeNightcoreFirst | utils/osu_api.py:447-452 | with NC set, NC comes first and DT is not written; otherwise DT, when set, comes first and only once; NC is written exactly when set |
| OsuApi.DecodeOtherMods | utils/osu_api.py:453-460 | every other mod is written exactly when its bit is set |
| OsuApi.DecodeModsValue | utils/osu_api.py:419-462 | a list is joined ("None" when empty), an integer decoded, anything else "Invalid" |
| OsuApi.DecodeMods | utils/osu_api.py:419-462 | "Invalid" for any other value; "None" for an empty list or 0; a decoded integer has two letters per written mod |
| OsuApi.DecodeBitmask | utils/osu_api.py:424-462 | the integer branch with its loop yields the leading NC or DT and then the table loop, "None" when nothing is written |
| OsuApi.AppendLoopMods | utils/osu_api.py:453-460 | the loop over `MODS_ENUM` appends, in table order, exactly the entries that are set and not skipped |
| OsuCog.NavigationInBounds | cogs/osu_cog.py:79-112 | Previous and Next never leave the list; each moves exactly when not at its end, and Next undoes a Previous that moved |
| OsuCog.JumpIndex | cogs/osu_cog.py:143-160 | an accepted rank gives an index inside a non-empty list |
| OsuCog.JumpToRank | cogs/osu_cog.py:143-160 | every rank 1..len typed into the modal lands on index rank-1, and any other number is refused as out of range |
| OsuCog.BestInitialIndex | cogs/osu_cog.py:784-817 | an empty list is refused; without a rank the view opens at 0; a rank is accepted exactly when it is within 1..len, and opens at rank-1 |
| OsuCog.ScoreView.constructor | cogs/osu_cog.py:215-242 | a view starts at index 0 with its buttons matching that index |
| OsuCog.ScoreView.UpdateButtonStates | cogs/osu_cog.py:239-242 | Previous is disabled iff the index is 0, Next iff the index is at least len-1, Jump iff the list is empty; the index is untouched (the recent-score view repeats it at lines 356-358) |
| OsuCog.ScoreView.Previous | cogs/osu_cog.py:79-86 | at index 0 nothing changes; otherwise the index steps back and the buttons are redrawn (the recent-score button repeats it at lines 295-300) |
| OsuCog.ScoreView.Next | cogs/osu_cog.py:104-111 | at the last score nothing changes; otherwise the index steps forward and the buttons are redrawn (the recent-score button repeats it at lines 319-324) |
| OsuCog.ScoreView.Jump | cogs/osu_cog.py:143-172 | a valid rank moves there and redraws the buttons; a non-number or out-of-range rank changes nothing |
| OsuCog.ScoreView.Timeout | cogs/osu_cog.py:266-270 | on timeout every button is disabled and the index kept (the recent-score view repeats it at lines 374-377) |
| OsuCog.DisabledIffNoMove | cogs/osu_cog.py:239-241 | a button is disabled exactly where its callback would only defer |
| OsuCog.OpenBestAsWritten | cogs/osu_cog.py:784-838 | as written, the view opens at the requested rank but Previous stays disabled, so the buttons disagree with any index past 0 |
| OsuCog.OpenBest | cogs/osu_cog.py:784-838 | the corrected `/best` opens at the requested rank with buttons matching it |
| OsuCog.OpenRecent | cogs/osu_cog.py:651-690 | `/recent` refuses an empty list and otherwise opens at the newest play, with no Jump button |
| OsuCog.DetermineGameMode | cogs/osu_cog.py:489-521 | an explicit mode wins; without one, an absent or unrecognised API mode gives the configured default |
| OsuCog.PlaymodeSelectsItsNumber | cogs/osu_cog.py:500-508 | "osu", "taiko", "fruits" and "mania" select 0, 1, 2 and 3 (the mode table is at line 24) |
| OsuCog.GameModeChoices | cogs/osu_cog.py:489-521 | the mode is the request, one of 0..3, or the default |
| OsuCog.HitKeys | cogs/osu_cog.py:1108-1146 | osu and fruits show four counts, taiko three, mania six, any other mode none |
| OsuCog.HitsSplitBack | cogs/osu_cog.py:1108-1146 | the hits string splits at "/" back into the mode's counts in order, a missing count as 0 |
| OsuCog.HitsString | cogs/osu_cog.py:1108-1146 | the hits field is empty exactly for a mode other than 0..3 |
| OsuCog.RankEmoji | cogs/osu_cog.py:1024-1038 | XH and SH have their own emoji; X and S turn silver when HD or FL occurs in the mods text; otherwise the map's emoji |
| OsuCog.UnknownRankShownAsText | cogs/osu_cog.py:1031 | a rank missing from the map is shown as its own text |
| OsuCog.HiddenScoresAreSilver | cogs/osu_cog.py:1016-1038 | a score with HD or FL among its mods gets the silver emoji for X and S |
| OsuCog.ScoreFallback | cogs/osu_cog.py:968-1012 | the v1 fallback runs only for a score of 0 with positive pp; a failure keeps the score, and a changed score is the parsed v1 value |
| OsuCog.LazerNoteOnlyAfterFailedFallback | cogs/osu_cog.py:1174-1189 | a footer without a date exists exactly for a score of 0 with positive pp whose fallback failed and a non-empty note, and is then the note; any failed or missing v1 reply brings it |
| OsuCog.Footer | cogs/osu_cog.py:1174-1189 | a non-empty date always gives a footer that starts with it; without a date the only possible footer is the lazer note |
| PpCog.FormatModsForDisplay | cogs/pp_cog.py:23-26 | the label is empty exactly for no mods, and otherwise "+" followed by the acronyms run together |
| PpCog.DisplayChunksBack | cogs/pp_cog.py:23-26 | for upper-case two-letter acronyms, the label after "+" cut into two-letter chunks is the selected list again |
| PpCog.UrlIds | cogs/pp_cog.py:537-559 | the patterns are tried in order (set link, then /b/, then /s/); a set link gives the set and its optional difficulty; no match is an invalid URL |
| PpCog.RouteOf | cogs/pp_cog.py:573-676 | a non-zero difficulty id opens that difficulty, else a non-zero set id opens the whole set, else the URL is invalid |
| PpCog.SetLinkPrecedence | cogs/pp_cog.py:543-546 | a set link with a difficulty opens that difficulty whatever the other patterns found |
| PpCog.ZeroDifficultyOpensSet | cogs/pp_cog.py:573-640 | a difficulty id of 0 is falsy, so the link opens its whole set |
| PpCog.ModePriority | cogs/pp_cog.py:568-571 | the mode priority is between 0 and 4, with 4 for any other mode |
| PpCog.Insert | cogs/pp_cog.py:568-612 | inserting adds exactly the one difficulty |
| PpCog.SortMaps | cogs/pp_cog.py:612 | sorting keeps exactly the difficulties of the set |
| PpCog.SortMapsSorted | cogs/pp_cog.py:568-612 | the difficulties come out ordered by mode priority, then by star rating, and none is lost or added |
| PpCog.InsertFirstAmongEqual | cogs/pp_cog.py:567-571 | an inserted difficulty comes first among those with the same mode priority and star rating; the others with that key keep their order |
| PpCog.SortMapsStable | cogs/pp_cog.py:612 | `sorted` is stable: for every key, the difficulties with that mode priority and star rating appear in the same order as in the set, so a set link opens on the first of equals |
| PpCog.InitialDifficulty | cogs/pp_cog.py:613-629 | the index is within the list, is the first difficulty with the requested id when there is one, and is 0 otherwise |
| PpCog.StartIndex | cogs/pp_cog.py:613-672 | a set link starts at 0, and every start index is within the list |
| PpCog.StartsOnRequestedDifficulty | cogs/pp_cog.py:612-632 | a requested difficulty that is in the set is the one the view opens on |
| PpCog.ViewBeatmapId | cogs/pp_cog.py:613-675 | a difficulty link gives the view the requested id; a set link gives it the id of one of the set's difficulties |
| PpCog.RulesetOf | cogs/pp_cog.py:162-168 | the ruleset id is between 0 and 3 |
| PpCog.RulesetIsPriority | cogs/pp_cog.py:162-168 | the ruleset id is the mode priority for the four modes and 0 for any other (the priority table is at lines 568-571) |
| PpCog.LengthText | cogs/pp_cog.py:416-423 | the length text ends in ":" and two seconds digits, after at least one minutes digit |
| PpCog.LengthTextReadsBack | cogs/pp_cog.py:416-423 | the length text splits at ":" into minutes and zero-padded seconds below 60 that add back up to the length |
| PpCog.ModSelectView.constructor | cogs/pp_cog.py:60-108 | the view keeps the beatmap id it is given (not its target's), starts with no mods, the given target and ruleset, paging exactly when a list and an index were given, and matching buttons |
| PpCog.ModSelectView.UpdatePaginationButtons | cogs/pp_cog.py:110-126 | Previous is disabled exactly at the first difficulty and Next at the last, and both without paging; nothing else changes |
| PpCog.ModSelectView.UpdateDifficulty | cogs/pp_cog.py:146-196 | the target becomes the indexed difficulty with its id and ruleset and no mods; the buttons are redrawn only when attributes were found |
| PpCog.ModSelectView.PrevDifficulty | cogs/pp_cog.py:128-135 | moves back exactly when paging is active and not at the first difficulty; after a move with attributes, each paging button is disabled exactly when pressing it next would not move; otherwise nothing changes |
| PpCog.ModSelectView.NextDifficulty | cogs/pp_cog.py:137-144 | moves forward exactly when paging is active and not at the last difficulty; after a move with attributes, each paging button is disabled exactly when pressing it next would not move; otherwise nothing changes |
| PpCog.ModSelectView.SelectMods | cogs/pp_cog.py:214-225 | the mods become `SelectedAfter` the selection and nothing else changes |
| PpCog.SelectedAfter | cogs/pp_cog.py:220-225 | "_no_mods_" anywhere clears the mods; otherwise the selection replaces them; the result never holds "_no_mods_" |
| PpCog.PagingButtonsTellMoves | cogs/pp_cog.py:110-144 | on a paging view whose buttons were brought up to date, Previous is disabled exactly when its callback would not move back and Next exactly when its callback would not move forward |
| PpCog.ViewIdIsTargetIdIff | cogs/pp_cog.py:613-630 | for a difficulty link the view's beatmap id is its opening difficulty's id exactly when the set holds the requested id; otherwise the view opens on the first sorted difficulty but keeps the requested id |
| PpCog.SetViewIdIsTargetId | cogs/pp_cog.py:669-675 | for a set link the view's beatmap id is the id of the difficulty it opens on |
| UserCog.Indicator | cogs/user_cog.py:60 | a regional indicator is the character's code point plus 127397, when that is a code point |
| UserCog.FlagEmoji | cogs/user_cog.py:51-63 | a code whose length is not 2 gives the globe; any other result is two indicators of the upper-cased characters |
| UserCog.FlagRoundTrip | cogs/user_cog.py:51-63 | two ASCII letters always give a flag, and the flag reads back as the upper-cased code |
| UserCog.TimeParts | cogs/user_cog.py:210-224 | the positive year, month and day parts are kept in that order, and none exactly when all three are not positive |
| UserCog.TimeSinceLeads | cogs/user_cog.py:236-246 | the largest positive part leads; short mode shows it alone, and long mode adds only the next positive part, run together for zh languages and separated by a space otherwise |
| UserCog.TimeSinceUnderADay | cogs/user_cog.py:226-235 | with no positive part, short mode shows the seconds (at least 0) and long mode "0" days |
| UserCog.TimeSince | cogs/user_cog.py:226-246 | short mode shows the leading part; long mode with one part shows it; long mode with no part shows "0" days |
| UserCog.Playtime | cogs/user_cog.py:385-391 | an absent or zero play time shows N/A |
| UserCog.PlaytimeSplit | cogs/user_cog.py:387-388 | the split gives minutes 0..59, and hours and minutes add up to the play time within a minute |
| UserCog.TreePrefixes | cogs/user_cog.py:353-355 | a section gets one prefix per line |
| UserCog.OnlyLastIsEnd | cogs/user_cog.py:353-355 | exactly the last line carries the END prefix |
| UserCog.ProfileTarget | cogs/user_cog.py:485-514 | giving both an id and a name (even an empty one) is exactly the error case; otherwise the id is preferred, then the stripped non-empty name, then a non-empty bound account read as an id; the refusal happens exactly when none of the three is given |
| UserCog.MapperTarget | cogs/user_cog.py:890-912 | only a non-empty name together with an id is the error case; otherwise the id is preferred (automatic rule), then the stripped non-empty name (as a username exactly when it is all digits, otherwise the automatic rule), then a non-empty bound account (automatic rule); the refusal happens exactly when none of the three is given |
| UserCog.TargetsAgreeOnSource | cogs/user_cog.py:485-912 | where neither command reports both options given, they refuse in the same cases and read the same text |
| UserCog.EmptyNameWithId | cogs/user_cog.py:887-891 | an empty name with an id is refused by the profile command but looked up by id in the mapper command (the profile command tests both for None at line 485) |
| UserCog.AddSetWellFormed | cogs/user_cog.py:979-982 | storing one entry keeps one entry per id under its own id, and counts at most one |
| UserCog.AddSet | cogs/user_cog.py:979-982 | an entry counts exactly when it is present with a truthy id, and is then stored under that id; otherwise nothing changes |
| UserCog.AddPage | cogs/user_cog.py:979-982 | no more entries count than the page holds; no id is lost and the id order only grows at its end |
| UserCog.TypeFrom | cogs/user_cog.py:953-998 | the loop for one type loses no id and only appends to the id order |
| UserCog.AddPageWellFormed | cogs/user_cog.py:979-982 | a page keeps the dictionary well formed and counts at most its length |
| UserCog.AddPageKeepsLast | cogs/user_cog.py:979-982 | each truthy id of a page ends up holding the page's last entry for it |
| UserCog.TypeFromWellFormed | cogs/user_cog.py:953-998 | the loop for one type keeps the dictionary well formed and loses no set collected before |
| UserCog.AddPageKeepsIds | cogs/user_cog.py:979-982 | a page never removes an id |
| UserCog.AllTypesWellFormed | cogs/user_cog.py:937-1000 | after all five types the dictionary holds each set once, under its own id |
| UserCog.AllTypes | cogs/user_cog.py:937-1000 | each later type keeps every id collected by the earlier ones |
| UserCog.CollectMapsets | cogs/user_cog.py:937-1000 | the loop over the five types computes `AllTypes` in their order |
| UserCog.CollectType | cogs/user_cog.py:947-998 | the per-type loop stops on an error, an empty page, a short page or 1000 counted entries, computing `TypeFrom` |
| UserCog.AddPageLoop | cogs/user_cog.py:979-982 | the inner loop computes `AddPage` |
| UserCog.Values | cogs/user_cog.py:1004 | the sets come in dictionary order, one per id |
| UserCog.RankedCount | cogs/user_cog.py:1023-1029 | the count never exceeds the number of sets |
| UserCog.TotalsAppend | cogs/user_cog.py:1023-1031 | the ranked/loved count and the favourite sum of two runs of sets add up |
| UserCog.FavouriteTotal | cogs/user_cog.py:1023-1031 | the favourite sum is non-negative when every set's count is |
| UserCog.RankedCountIsSize | cogs/user_cog.py:1028-1029 | the count is exactly the number of sets whose status is ranked, loved, qualified or approved |
| UserCog.Totals | cogs/user_cog.py:1023-1031 | the totals loop yields `RankedCount` and `FavouriteTotal` |
| BeatmapCog.Timedelta | cogs/beatmap_cog.py:43 | the timedelta text is never shorter than "H:MM:SS" |
| BeatmapCog.FormatLength | cogs/beatmap_cog.py:38-45 | `format_length` as written: no length or a zero length shows "0:00", a length beyond the range of `timedelta` shows "N/A"; the clock text in between is stated by the lemmas below |
| BeatmapCog.FormatLengthUnderAnHour | cogs/beatmap_cog.py:38-45 | under an hour the text is "MM:SS" and reads back as the length |
| BeatmapCog.FormatLengthDropsHours | cogs/beatmap_cog.py:43 | from one hour up to ten hours the hour digit is cut off, so the text reads back as the length modulo an hour |
| BeatmapCog.FormatLengthCollision | cogs/beatmap_cog.py:43 | a length and the same length plus an hour show the same text (61 s and 3661 s both "01:01") |
| BeatmapCog.FormatLengthLeadingColon | cogs/beatmap_cog.py:43 | from ten hours up to a day the text starts with ":" |
| BeatmapCog.FixedFromAnHour | cogs/beatmap_cog.py:38-45 | from an hour on, the corrected text is the whole clock and reads back as the length |
| BeatmapCog.FormatLengthFixed | cogs/beatmap_cog.py:38-45 | the corrected length text: the same "0:00" and "N/A" cases, and from an hour on the whole clock text with its hours |
| BeatmapCog.FormatLengthFixedReadsBack | cogs/beatmap_cog.py:38-45 | the corrected text reads back as the length for every length under a day, and equals the text as written under an hour |
| BeatmapCog.MapIdText | cogs/beatmap_cog.py:66-70 | the difficulty id is the first present of the long, short and single forms, the long one first |
| BeatmapCog.SetIdText | cogs/beatmap_cog.py:71 | the set id prefers the long form |
| BeatmapCog.Fetched | cogs/beatmap_cog.py:77-104 | a difficulty id fetches at most that one difficulty, and the set is consulted only without one |
| BeatmapCog.IdText | cogs/beatmap_cog.py:130 | `str(bm.get("id"))`: a present id reads back as itself, a missing one is the text "None" |
| BeatmapCog.FirstWithId | cogs/beatmap_cog.py:129-132 | the result is a difficulty of the list with the requested id text, and None only when no difficulty has it |
| BeatmapCog.FirstStandard | cogs/beatmap_cog.py:141-144 | the index of the first difficulty with ruleset id 0, or the end of the list |
| BeatmapCog.Target | cogs/beatmap_cog.py:114-155 | the difficulty shown comes from the fetched list (or is the directly fetched one); for a difficulty link its id text is the URL's; nothing is shown only when the list is empty or no difficulty matches the requested id |
| BeatmapCog.SelectTarget | cogs/beatmap_cog.py:114-155 | the two search loops select `Target`: the matching difficulty for a difficulty link, the first standard or else the first for a set |
| BeatmapCog.FirstStandardIsFirst | cogs/beatmap_cog.py:141-146 | the first standard difficulty is the one index with no standard difficulty before it |
| BeatmapCog.SetLinkShowsFirstStandard | cogs/beatmap_cog.py:139-146 | a set link shows a difficulty of the set, a standard one exactly when the set has one, and the first difficulty otherwise |
| BeatmapCog.DifficultyLinkMatchesId | cogs/beatmap_cog.py:120-132 | a difficulty link only ever shows a difficulty whose id text is the URL's |
| BeatmapCog.LeadingZeroIdIsNotFound | cogs/beatmap_cog.py:79-132 | an id written with a leading zero fetches its difficulty, but the id text never matches it, so nothing is shown |
| BeatmapCog.MissingSetFails | cogs/beatmap_cog.py:164-189 | a difficulty without its nested set always reaches the undefined name |
| BeatmapCog.StatusAsWritten | cogs/beatmap_cog.py:164-193 | the status lookup as written: the set's string status wins; a value passed on is never missing or null, because a missing one reaches the undefined `current_beatmap_data` |
| BeatmapCog.StatusFixed | cogs/beatmap_cog.py:178-193 | the corrected lookup always yields a value, and for a difficulty without its set uses the difficulty's own string status |
| BeatmapCog.StatusFixedAgrees | cogs/beatmap_cog.py:178-193 | the corrected lookup never fails, agrees wherever the written one succeeds, and otherwise uses the difficulty's own string status |
| BeatmapCog.FooterOnlyForSets | cogs/beatmap_cog.py:234-296 | the several-difficulties footer appears only for a set link; without the set's `total` it appears exactly when more than one difficulty was fetched |
| BeatmapCog.FooterCount | cogs/beatmap_cog.py:234-241 | the footer count is zero except for a set link; without the set's `total` it is the number of fetched difficulties |
| BeatmapCog.DifficultyIdWins | cogs/beatmap_cog.py:66-104 | with a difficulty id in the URL the set lookup is never consulted and the footer never counts difficulties (the footer test is at line 295) |
| BeatmapCog.OnMessage | cogs/beatmap_cog.py:48-300 | the listener with the two corrections: a shown footer count is above one and only for a set link, and the status shown is the corrected lookup's |
| BeatmapCog.CardFromFetched | cogs/beatmap_cog.py:106-155 | a card always shows a fetched difficulty, and for a difficulty link the requested id |
| BeatmapCog.CardShowsTarget | cogs/beatmap_cog.py:164-275 | the card's lengths read back as the difficulty's lengths under a day, and its status is the set's whenever the code as written finds one |
| BeatmapCog.ModeKey | cogs/beatmap_cog.py:19-36 | the mode key is "mode_unknown" exactly outside 0..3 |
| Localization.LoadPrefs | utils/localization.py:15-47 | a missing, empty or invalid preferences file gives an empty table; a valid one gives its table |
| Localization.Loaded | utils/localization.py:70-89 | a code already cached keeps the cache as it is; otherwise it is added with the file's table, or an empty table when the file is missing or invalid |
| Localization.LanguageFor | utils/localization.py:157-170 | the language chosen is always the default or a loaded code |
| Localization.Finish | utils/localization.py:211-229 | without arguments the text is returned unformatted |
| Localization.Entry | utils/localization.py:189-209 | an entry is found exactly when the chosen or the default language has the key, and the chosen language's own entry wins |
| Localization.Localize | utils/localization.py:189-229 | without arguments a found entry is returned as it is; a missing one gives the placeholder when there is no fallback, and the fallback otherwise |
| Localization.LookupOrder | utils/localization.py:189-209 | the chosen language's entry wins, then the default language's, then the non-empty fallback, then "<translation_missing: key>" |
| Localization.EmptyTranslationKept | utils/localization.py:191-201 | an empty translation is returned as it is, even when a fallback is given |
| Localization.FormattingOnlyWithArgs | utils/localization.py:218-229 | formatting happens only with arguments, and a failing format gives "<formatting_error: key (Err)>" |
| Localization.L10n.constructor | utils/localization.py:232-239 | after start-up the preferences are the file's and the default and every supported language are cached |
| Localization.L10n.LoadLanguage | utils/localization.py:70-89 | the cache becomes `Loaded` of the old cache; nothing else changes |
| Localization.L10n.UserLanguage | utils/localization.py:100-127 | the preference stored under the key, else the default language |
| Localization.L10n.SetUserLanguage | utils/localization.py:130-143 | True exactly for a supported code; a rejected code changes nothing; an accepted one is stored under the decimal id, loaded and saved once |
| Localization.L10n.GetLocalizedString | utils/localization.py:146-229 | the result is `Localize` in the language `LanguageFor` chooses; only an empty cache is reloaded; preferences are untouched |
| Localization.LoadOnce | utils/localization.py:72-89 | loading the same code twice is loading it once, even if the file has changed since |
| Localization.BadFileCachesEmpty | utils/localization.py:80-85 | a missing or invalid file is cached as an empty table |
| Localization.SetThenLookup | utils/localization.py:138-162 | after a user's language is set, that user's lookups use it |
| Localization.UnsetUserUsesDefault | utils/localization.py:123-167 | a user without a stored preference reads in the loaded default language |
| Localization.CodeUsedDirectly | utils/localization.py:163-166 | a language code passed directly is used when it is loaded and nothing earlier applies |
| Localization.CodeShadowedByDefault | utils/localization.py:158-166 | once the default language is loaded, a directly passed code with no preference under it is ignored in favour of the default |
| UtilityCog.DisplayName | cogs/utility_cog.py:17-36 | the fixed table's name for the pair, else the code itself |
| UtilityCog.DisplayNameOfOthers | cogs/utility_cog.py:27-36 | every code other than "en" and "zh_TW" is shown as itself |
| UtilityCog.DisplayNamesInEnglish | cogs/utility_cog.py:27-30 | the English names of the two languages are "English" and "Traditional Chinese" |
| UtilityCog.NormalizeCode | cogs/utility_cog.py:100-117 | the input is stripped and lower-cased, and "zh-tw", "zh_tw" and "zhtw" become "zh_TW" |
| UtilityCog.NormalizeIdempotent | cogs/utility_cog.py:100-117 | normalising a normalised code leaves it unchanged |
| UtilityCog.TaiwanSpellingsSelectZhTw | cogs/utility_cog.py:109-114 | any case and padding of a Traditional Chinese spelling selects "zh_TW" |
| UtilityCog.SetLanguage | cogs/utility_cog.py:100-180 | the code is accepted exactly when its normalised form is supported; then it is the user's stored language; a rejection changes nothing |
| UtilityCog.Reply | cogs/utility_cog.py:128-160 | a non-empty template in the new language wins, filled in; otherwise a non-empty template in the default language, filled in; a formatting error gives the error text; with no non-empty template in either language the reply is the built-in text |
| UtilityCog.SetSuccessReply | cogs/utility_cog.py:123-160 | with no template in the new or the default language the reply is "Language set to: " and the new language's name in itself; a template whose formatting fails gives the bold "Your language has been set to" reply |
| UtilityCog.EmptyTemplateSkipped | cogs/utility_cog.py:132-150 | an empty confirmation template is skipped for the default language's, although the general lookup would return it empty |
| UtilityCog.Matching | cogs/utility_cog.py:191-204 | every choice is a supported code whose code or display name contains the typed text, ignoring case, labelled "name (code)" |
| UtilityCog.MatchingComplete | cogs/utility_cog.py:191-204 | every supported code that matches the typed text is offered |
| UtilityCog.MatchingByComplete | cogs/utility_cog.py:191-204 | whatever names are shown, every code the typed text matches is among the choices |
| UtilityCog.Autocomplete | cogs/utility_cog.py:183-205 | the choices are the first 25 matching ones |
| UtilityCog.EmptyInputOffersAll | cogs/utility_cog.py:195-204 | an empty input offers every supported code in the configured order |
| UtilityCog.EmptyInputOffersAllBy | cogs/utility_cog.py:195-204 | whatever names are shown, an empty input offers every code in order |
| KeywordCog.Find | cogs/keyword_cog.py:385-388 | no answer exactly when no pair has the keyword; an answer is the response of a pair with that keyword (the add modal makes the same test at line 154) |
| KeywordCog.AppendNew | cogs/keyword_cog.py:154-164 | adding a new keyword keeps the keywords distinct, answers it with its response and leaves every other keyword's answer unchanged |
| KeywordCog.LoadEntries | cogs/keyword_cog.py:213-221 | the loaded tables are exactly the file's server entries whose key does not start with "_" |
| KeywordCog.SaveEntries | cogs/keyword_cog.py:230-241 | the file holds "_comment", "_format" and every server's table, and nothing else |
| KeywordCog.LoadAfterSave | cogs/keyword_cog.py:220-238 | loading what was saved gives back the keyword tables |
| KeywordCog.IdKeyVisible | cogs/keyword_cog.py:282 | a server key is a decimal id and so never starts with "_" |
| KeywordCog.Shorten | cogs/keyword_cog.py:454 | a response of up to 100 characters is shown whole; a longer one as its first 97 and "..." |
| KeywordCog.ListFields | cogs/keyword_cog.py:452-455 | the list shows the first 25 keywords in insertion order with shortened responses |
| KeywordCog.KeywordStore.Save | cogs/keyword_cog.py:230-244 | the file becomes the saved form of the tables, which are unchanged |
| KeywordCog.KeywordStore.constructor | cogs/keyword_cog.py:213-228 | a readable file loads its visible servers; a missing one starts empty and is written; an unreadable one starts empty |
| KeywordCog.KeywordStore.GuildKeywords | cogs/keyword_cog.py:273-285 | an unknown server gets an empty table; the stored table is returned and nothing else changes |
| KeywordCog.GuildEnsured | cogs/keyword_cog.py:282-285 | a known server's tables stay as they are; an unknown one gains an empty table and every other table is kept |
| KeywordCog.KeywordStore.Add | cogs/keyword_cog.py:137-169 | both inputs are stripped; an existing keyword is refused and nothing is saved; a new one is appended to that server's table and saved |
| KeywordCog.KeywordStore.OnMessage | cogs/keyword_cog.py:367-396 | bots and direct messages get no reply and change nothing; otherwise the reply is the response of the stripped content, if it is a keyword, and the server gains an empty table if it had none |
| KeywordCog.KeywordStore.List | cogs/keyword_cog.py:423-460 | outside a server nothing is listed and nothing changes; an empty table says so; otherwise the fields, the total and a footer exactly when there are more than 25; in a server without a table an empty one is added |
| KeywordCog.ReplyIffKeyword | cogs/keyword_cog.py:386-388 | a message gets a reply exactly when its stripped content is a keyword, and then that keyword's response |
| KeywordCog.PaddedKeywordTriggers | cogs/keyword_cog.py:386 | surrounding spaces do not stop a keyword from triggering |
| KeywordCog.IsAdmin | cogs/keyword_cog.py:246-271 | admin exactly for a member of the server who is its owner or has the administrator permission |
| KeywordCog.DeleteDecision | cogs/keyword_cog.py:287-346 | deletion is offered exactly for a bot message with a known trigger user, to that user or an admin |
| KeywordCog.AdminsMayDelete | cogs/keyword_cog.py:338-346 | an admin may delete any bot message whose trigger is known; another user may not delete one replying to someone else |
| CopypastaCog.Validate | cogs/copypasta_cog.py:25-57 | a non-empty collection comes only from an object of objects, and such a file loads whole |
| CopypastaCog.OneBadValueRejectsAll | cogs/copypasta_cog.py:31-44 | a single value that is not an object makes the whole collection empty |
| CopypastaCog.Pool | cogs/copypasta_cog.py:83-102 | the preferred language's texts if it has any, else the "EN" texts for another language; empty exactly when neither has texts |
| CopypastaCog.PoolFromPreferredOrDefault | cogs/copypasta_cog.py:86-95 | every text in the pool belongs to the preferred language or to "EN" |
| CopypastaCog.Reply | cogs/copypasta_cog.py:63-129 | a sent text is in the pool and is not blank |
| CopypastaCog.PreferredApologyUnreachable | cogs/copypasta_cog.py:105-119 | an empty pool always means "EN" has no texts, so the second apology is never given |
| CopypastaCog.SentIff | cogs/copypasta_cog.py:105-129 | a text is sent exactly when the user's language or "EN" has texts and the pick is not blank |
| CopypastaCog.CopypastaStore.constructor | cogs/copypasta_cog.py:20-23 | the collection is the validated file |
| CopypastaCog.CopypastaStore.Effective | cogs/copypasta_cog.py:62-64 | the collection the command uses: the loaded one when it is non-empty, otherwise the current file validated again |
| CopypastaCog.CopypastaStore.Send | cogs/copypasta_cog.py:62-142 | an empty collection is reloaded from the file as it is when the command runs, so a file fixed since startup is picked up, and a non-empty one is kept; the outcome is `Reply` for the user's language; a sent text is tracked against the user and otherwise the tracker is unchanged |
| UserDataManager.Load | utils/user_data_manager.py:14-32 | a missing, empty or invalid file loads as an empty dictionary |
| UserDataManager.KeysDistinct | utils/user_data_manager.py:48-62 | two users never share a key, since the key is the decimal id |
| UserDataManager.BindingStore.SetBinding | utils/user_data_manager.py:45-50 | returns True; the file becomes the loaded dictionary with the user's value; one write |
| UserDataManager.BindingStore.GetBinding | utils/user_data_manager.py:53-56 | the value stored under the user's key, or None |
| UserDataManager.BindingStore.RemoveBinding | utils/user_data_manager.py:59-66 | True exactly when the user was bound; only then is the key removed and the file written |
| UserDataManager.BindingOf | utils/user_data_manager.py:56 | a value exactly when the user's key is present, and then the stored value |
| UserDataManager.SetThenGet | utils/user_data_manager.py:45-56 | after a set the user reads the value back, and every other user reads what they read before |
| UserDataManager.RemoveThenGet | utils/user_data_manager.py:53-66 | after a removal the user is unbound, and every other user reads what they read before |
| UserDataManager.UnreadableBindsNobody | utils/user_data_manager.py:17-56 | a file that cannot be read binds nobody |
| HelpCog.IndexOf | cogs/help_cog.py:69-75 | the first position of the name in the order, or the order's length when it is absent |
| HelpCog.Key | cogs/help_cog.py:69-75 | a command's key is below the order's length exactly when it is in the order |
| HelpCog.WithKey | cogs/help_cog.py:77 | the commands of one key, each having that key |
| HelpCog.Buckets | cogs/help_cog.py:77 | the groups from a key on hold only commands of that key or higher |
| HelpCog.SortByKey | cogs/help_cog.py:69-77 | the sorted commands are ordered by their key |
| HelpCog.SortByKeyIsSortedPermutation | cogs/help_cog.py:69-77 | the sorted commands are ordered by key and are a permutation of the registered ones |
| HelpCog.SortByKeyStable | cogs/help_cog.py:77 | commands of equal key keep their registration order, so unlisted commands follow in the order they were registered |
| HelpCog.BucketsSorted | cogs/help_cog.py:77 | the groups of consecutive keys, placed one after the other, are ordered by key |
| HelpCog.BucketsPermute | cogs/help_cog.py:77 | the groups from a key on hold exactly the commands of that key or higher |
| HelpCog.BucketsOutside | cogs/help_cog.py:77 | the groups from a key on hold no command of a lower key |
| HelpCog.BucketsStable | cogs/help_cog.py:77 | the groups from a key on hold the commands of each higher key in their original order |
| HelpCog.Shown | cogs/help_cog.py:97-108 | the description shown is the translation or the fallback description |
| HelpCog.OriginalFixed | cogs/help_cog.py:90-95 | an empty or "..." description is replaced by the no-description text; any other is kept |
| HelpCog.OriginalAsWritten | cogs/help_cog.py:90-95 | as written, a non-empty description is kept as it is and only an empty one is replaced by the no-description text |
| HelpCog.UntranslatedShowsOriginal | cogs/help_cog.py:98-108 | without a translation in the user's or the default language the fallback description is shown |
| HelpCog.TranslationShown | cogs/help_cog.py:101-108 | a translation in the user's language that is neither a placeholder nor the key is shown |
| HelpCog.DotsListedAsWritten | cogs/help_cog.py:90-100 | as written, an untranslated command described as "..." is listed as "..." |
| HelpCog.DotsReplacedFixed | cogs/help_cog.py:90-95 | corrected, the same command is listed with the no-description text |
| HelpCog.LinesPerSlash | cogs/help_cog.py:83-110 | one line per plain slash command, each starting with "`/" |
| HelpCog.NoLinesIff | cogs/help_cog.py:87-120 | there are no lines exactly when no command is a plain slash command |
| HelpCog.ListLines | cogs/help_cog.py:82-113 | the loop builds exactly the lines of the sorted commands, with the corrected description rule of the help-listing finding (a "..." description is listed as the no-description text, where the code as written lists "...") |
| HelpCog.LineDiffersOnlyOnDots | cogs/help_cog.py:90-100 | a listed line agrees with the code as written for every description except "...", which the corrected rule lists as the no-description text |
| HelpCog.Line | cogs/help_cog.py:97-110 | a listed line starts with the command's name as "`/name`: " |
| HelpCog.Lines | cogs/help_cog.py:83-110 | no more lines than commands |
| HelpCog.SlashCount | cogs/help_cog.py:83-110 | no more slash commands than commands |
| HelpCog.Help | cogs/help_cog.py:40-120 | the title is the translated title; the description is the joined lines (built with the corrected description rule, see `ListLines`), or the no-commands text when there are none |
| DeleteView.IsAdmin | utils/delete_view.py:43-64 | nobody outside a server; the owner; otherwise exactly the administrator permission |
| DeleteView.MayDelete | utils/delete_view.py:76-83 | the trigger user may always delete; a presser who is not a member only if they are the trigger user |
| DeleteView.Press | utils/delete_view.py:66-121 | the press is refused exactly when the presser may not delete |
| DeleteView.DeletedIff | utils/delete_view.py:83-106 | the message is deleted exactly when a permitted user presses and the deletion succeeds |
| DeleteView.NonMemberNeverAdmin | utils/delete_view.py:78-91 | a presser who is not a member is refused unless they triggered the command, even if they own the server |
| DeleteView.NoGuildOnlyTrigger | utils/delete_view.py:56-91 | in a direct message only the trigger user may delete |
| DeleteView.Disable | utils/delete_view.py:125-127 | a button becomes disabled; any other component is unchanged |
| DeleteView.DisableButtons | utils/delete_view.py:123-127 | the timed-out view has as many components as before |
| DeleteView.DeleteMessageView.constructor | utils/delete_view.py:29-41 | the view records the trigger user and the server it was created for |
| DeleteView.DisableButtonsAt | utils/delete_view.py:125-127 | each position of the timed-out view is its component disabled |
| DeleteView.TimeoutDisablesEveryButton | utils/delete_view.py:123-127 | after the timeout every button is disabled, other components are unchanged, and captions are kept |
| DeleteView.DisableButtonsIdempotent | utils/delete_view.py:123-127 | a second timeout changes nothing |
| DeleteView.DeleteMessageView.OnTimeout | utils/delete_view.py:123-127 | the view's components become, in place, the timed-out components |
| Batching.Batches | scripts/upload_era_sprites.py:277-278 | every batch holds between one and the batch size of items |
| Batching.BatchesConcat | scripts/upload_era_sprites.py:277-278 | the batches, one after the other, are the whole list |
| Batching.BatchBounds | scripts/upload_era_images.py:183-186 | there are no batches exactly for an empty list, and every batch but the last is full |
| Batching.BatchCount | scripts/upload_era_sprites.py:280 | the number of batches is `(n + size - 1) // size` for both scripts' batch sizes |
| Batching.BatchAt | scripts/upload_era_sprites.py:277-279 | batch `b` is the slice the loop takes at offset `b * size` |
| Batching.OffsetHasBatch | scripts/upload_era_images.py:183 | every offset `b * size` inside the list starts batch `b` |
| Batching.NextBatch | scripts/upload_era_images.py:183-184 | at offset `b * size` inside the list the loop takes batch `b`, and its next offset is `(b + 1) * size` unless the list ends first |
| UploadEraSprites.ParseLine | scripts/upload_era_sprites.py:120-156 | an accepted line is non-blank, not a ";" comment, has at least six comma fields and no placeholder file name, and takes the given category |
| UploadEraSprites.ParseLineFields | scripts/upload_era_sprites.py:120-153 | a non-blank, non-comment line with at least six fields whose four numbers read and whose file name is no placeholder becomes the definition those fields spell, stripped |
| UploadEraSprites.ParseFormatLine | scripts/upload_era_sprites.py:120-153 | a definition written as a line with clean fields parses back to itself |
| UploadEraSprites.SkippedLines | scripts/upload_era_sprites.py:124-129 | comment lines and lines with fewer than six fields are skipped |
| UploadEraSprites.FormatLineSplits | scripts/upload_era_sprites.py:127 | a written line splits back into its six fields |
| UploadEraSprites.NumbersReadBack | scripts/upload_era_sprites.py:134-137 | the four numeric fields read back as the rectangle |
| UploadEraSprites.Put | scripts/upload_era_sprites.py:152 | storing a sprite replaces its definition; a new name goes last and a known one keeps its place |
| UploadEraSprites.PutOrdered | scripts/upload_era_sprites.py:152 | storing keeps the names distinct and in step with the definitions |
| UploadEraSprites.ParsedLinesStep | scripts/upload_era_sprites.py:119-121 | the lines are read one after another, each adding what it reads as |
| UploadEraSprites.ParsedLines | scripts/upload_era_sprites.py:119-121 | every line of the file is read, one reading per line |
| UploadEraSprites.CollectStep | scripts/upload_era_sprites.py:150-153 | one more line puts and counts its definition, and a skipped line changes nothing |
| UploadEraSprites.Collect | scripts/upload_era_sprites.py:150-153 | no stored name is lost, and every accepted definition's name ends up stored |
| UploadEraSprites.Accepted | scripts/upload_era_sprites.py:150-153 | no more definitions are counted than lines were read |
| UploadEraSprites.ParseLines | scripts/upload_era_sprites.py:119-158 | parsing a file never drops a name already stored |
| UploadEraSprites.CollectOrdered | scripts/upload_era_sprites.py:119-158 | parsing a file keeps the names distinct and in step with the definitions |
| UploadEraSprites.CountCoversNewNames | scripts/upload_era_sprites.py:152-153 | the count covers every accepted line, so it is at least the number of new names and at most the number of lines read |
| UploadEraSprites.LastDefinitionWins | scripts/upload_era_sprites.py:152 | the definition stored under a name is the one read last with that name |
| UploadEraSprites.GetUrl | scripts/upload_era_sprites.py:233-238 | a URL exactly for a sprite whose record has status success, and then that record's URL |
| UploadEraSprites.Pending | scripts/upload_era_sprites.py:225-231 | the pending list is no longer than the sprite dictionary |
| UploadEraSprites.PendingSound | scripts/upload_era_sprites.py:225-231 | every pending sprite is the stored definition of a sprite that is not uploaded |
| UploadEraSprites.PendingComplete | scripts/upload_era_sprites.py:225-231 | every sprite that is not uploaded is pending |
| UploadEraSprites.PendingInOrder | scripts/upload_era_sprites.py:228 | pending sprites keep the dictionary's insertion order |
| UploadEraSprites.CropBox | scripts/upload_era_sprites.py:184-207 | a crop box is given only with a sheet, is the sprite's rectangle, and its right and bottom edges do not pass the sheet's width and height (a negative x or y is not checked, as in the source) |
| UploadEraSprites.CropRefusedIff | scripts/upload_era_sprites.py:186-204 | a crop is refused exactly when the sheet is missing or the rectangle passes its right or bottom edge |
| UploadEraSprites.ByCharacterExactly | scripts/upload_era_sprites.py:366-374 | a name is kept exactly when it ends in "_id" or contains "_id_" for one of the ids, and at most once |
| UploadEraSprites.ByCharacter | scripts/upload_era_sprites.py:366-374 | the filter keeps no more names than it was given |
| UploadEraSprites.MatchesAny | scripts/upload_era_sprites.py:370-373 | the inner loop finds a match exactly when some id matches the name |
| UploadEraSprites.FilterByCharacter | scripts/upload_era_sprites.py:366-374 | the loop keeps exactly the names `ByCharacter` keeps, in order |
| UploadEraSprites.Limit | scripts/upload_era_sprites.py:248-249 | without a limit or with 0 the list is whole; a positive limit keeps that many from the front; the result is always a prefix |
| UploadEraSprites.RecordFor | scripts/upload_era_sprites.py:284-330 | the record succeeds exactly when the crop and the send succeed, and then holds the URL and the rectangle; otherwise it failed with no URL |
| UploadEraSprites.UploadedHas | scripts/upload_era_sprites.py:292-328 | with distinct names, each attempted sprite's record is the one its own attempt wrote |
| UploadEraSprites.UploadedKeeps | scripts/upload_era_sprites.py:277-333 | a record whose name no attempted sprite has is left as it was |
| UploadEraSprites.UploadedRecords | scripts/upload_era_sprites.py:277-333 | after a run every attempted sprite has its own record and every other record is untouched |
| UploadEraSprites.Uploaded | scripts/upload_era_sprites.py:277-333 | an upload run keeps every earlier record's key |
| UploadEraSprites.UploadedRecordsEvery | scripts/upload_era_sprites.py:277-333 | an upload run leaves a record for every attempted sprite |
| UploadEraSprites.SuccessCount | scripts/upload_era_sprites.py:277-333 | no more sprites succeed than were attempted |
| UploadEraSprites.SpriteManager.constructor | scripts/upload_era_sprites.py:69-90 | a manager starts with no definitions and the loaded records |
| UploadEraSprites.SpriteManager.ParseCsv | scripts/upload_era_sprites.py:107-158 | the dictionary becomes the lines' definitions put in order and the count the number of lines that read as one; the records are untouched |
| UploadEraSprites.SpriteManager.GetPendingSprites | scripts/upload_era_sprites.py:225-231 | the loop returns exactly `Pending` of the dictionary |
| UploadEraSprites.SpriteManager.UploadOne | scripts/upload_era_sprites.py:284-330 | the sprite's record replaces any earlier one, and exactly one of the uploaded and failed counts goes up, by whether the crop and the send succeeded |
| UploadEraSprites.SpriteManager.UploadBatch | scripts/upload_era_sprites.py:284-330 | a batch extends the records and the counts by its sprites, in order |
| UploadEraSprites.SpriteManager.UploadAll | scripts/upload_era_sprites.py:276-337 | each pass uploads the next batch of `Batches` (its loop invariant); the records after all batches are those of uploading the list in order, saved; successes and failures add up to the list's length |
| UploadEraSprites.SpriteManager.UploadSprites | scripts/upload_era_sprites.py:241-348 | an empty limited pending list or a missing channel changes nothing; otherwise the limited pending list is uploaded and saved |
| UploadEraSprites.SpriteManager.ResetFailed | scripts/upload_era_sprites.py:450-455 | exactly the failed records are deleted, their number is returned, and the records are saved only when there were some |
| UploadEraSprites.ResetKeepsSuccesses | scripts/upload_era_sprites.py:450-454 | the reset keeps every successful upload and leaves no failed record |
| UploadEraImages.StrLessTotal | scripts/upload_era_images.py:142 | string comparison is total and asymmetric |
| UploadEraImages.PathLessTotal | scripts/upload_era_images.py:142 | any two distinct paths are ordered one way or the other |
| UploadEraImages.Insert | scripts/upload_era_images.py:142 | inserting adds one image, placed first or after the first |
| UploadEraImages.InsertSorted | scripts/upload_era_images.py:142 | inserting into a sorted list keeps it sorted and adds exactly that image |
| UploadEraImages.SortByPath | scripts/upload_era_images.py:142 | sorting keeps the number of images |
| UploadEraImages.SortByPathCorrect | scripts/upload_era_images.py:142 | the sorted list is ordered by path and is a permutation of the input |
| UploadEraImages.WithinLimitExactly | scripts/upload_era_images.py:132-140 | an image is kept exactly when it is at most 8 MiB, as often as it was found |
| UploadEraImages.WithinLimit | scripts/upload_era_images.py:132-140 | no more images are kept than were found, and every kept one is at most 8 MiB |
| UploadEraImages.ToUpload | scripts/upload_era_images.py:151-158 | the queued images are no more than the images found |
| UploadEraImages.SkippedCount | scripts/upload_era_images.py:151-158 | no more images are skipped than were listed |
| UploadEraImages.SkipOrQueue | scripts/upload_era_images.py:151-158 | every image is skipped as uploaded or queued, never both, and the skipped count plus the queue is the whole list |
| UploadEraImages.RecordFor | scripts/upload_era_images.py:190-222 | the record is keyed by the relative path and succeeds exactly when the send does, then with its URL and size; otherwise failed with no URL |
| UploadEraImages.Uploaded | scripts/upload_era_images.py:190-222 | an upload run keeps every earlier record's key and leaves a record for every attempted image |
| UploadEraImages.SuccessCount | scripts/upload_era_images.py:190-222 | no more uploads succeed than were attempted |
| UploadEraImages.UploadedStep | scripts/upload_era_images.py:190-222 | the records and success count after one more image are those before it with that image's record stored and its success counted |
| UploadEraImages.UploadedKeyed | scripts/upload_era_images.py:190-222 | an upload run keeps every record under its own file name and drops none (records are keyed by `add_record` at lines 87-89) |
| UploadEraImages.CountStatusStep | scripts/upload_era_images.py:101-103 | counting one more record adds one exactly when it has the status |
| UploadEraImages.ImageUploadRecord.constructor | scripts/upload_era_images.py:59-72 | the record starts with the loaded records, as saved |
| UploadEraImages.ImageUploadRecord.IsUploadedFile | scripts/upload_era_images.py:82-85 | uploaded exactly when a record exists with status success |
| UploadEraImages.ImageUploadRecord.GetUrl | scripts/upload_era_images.py:91-96 | a URL exactly for a successful record, and then its URL |
| UploadEraImages.ImageUploadRecord.AddRecord | scripts/upload_era_images.py:87-89 | the record is stored under its file name, replacing any earlier one |
| UploadEraImages.ImageUploadRecord.Save | scripts/upload_era_images.py:74-80 | the saved records become the records |
| UploadEraImages.ImageUploadRecord.GetStats | scripts/upload_era_images.py:98-104 | the total is the number of records, each status count is exact, and the three add up to the total |
| UploadEraImages.ImageUploader.constructor | scripts/upload_era_images.py:110-119 | every counter starts at zero |
| UploadEraImages.ImageUploader.GetAllImages | scripts/upload_era_images.py:121-142 | the images the recursive or top-level search finds, as the flag says, within the size limit, sorted by path |
| UploadEraImages.ImageUploader.SplitUploaded | scripts/upload_era_images.py:151-158 | the queue is `ToUpload` and the skipped counter grows by the number of uploaded images |
| UploadEraImages.ImageUploader.UploadOne | scripts/upload_era_images.py:192-220 | the image's record replaces any earlier one under its path, and exactly one of the uploaded and failed counters goes up, by whether the send succeeded |
| UploadEraImages.ImageUploader.UploadBatch | scripts/upload_era_images.py:190-222 | a batch extends the records and the counters by its images, in order |
| UploadEraImages.ImageUploader.UploadQueued | scripts/upload_era_images.py:182-229 | each pass uploads the next batch of `Batches` (its loop invariant); the records after all batches are those of uploading the queue in order, saved; successes and failures add up to the queue |
| UploadEraImages.ImageUploader.UploadAll | scripts/upload_era_images.py:144-242 | the images are those of the search the `recursive` flag selects; the total is their number; an empty queue or a missing channel changes no record; otherwise the queue is uploaded and saved |
| UploadEraImages.ImageUploader.ResetFailed | scripts/upload_era_images.py:246-258 | exactly the failed records are deleted, and the record is saved only when there were some |
| UploadEraImages.ImageUploader.RetryFailed | scripts/upload_era_images.py:244-261 | without failures nothing changes; otherwise the failures are forgotten, saved and the upload runs again with the top-level search only (`upload_all()` with its default `recursive=False`), with the total, skipped, uploaded and failed counters as that run sets them |
| UploadEraImages.UploadedOnlyAttempted | scripts/upload_era_images.py:184-219 | an upload run adds a record only for an image it attempts |
| UploadEraImages.RetryForgetsNestedFailures | scripts/upload_era_images.py:244-261 | a failed record whose image the top-level search does not find (one only the recursive search finds) is deleted by the retry and not re-created, whether or not the new run uploads |
| UploadEraImages.ResetRemovesExactlyFailed | scripts/upload_era_images.py:246-256 | after the reset no failed record is left and every other record, successes included, is kept |

## Left out

- Discord transport and UI: embeds, colours, views' layout, `defer`, `send`, `edit_message` and followups are not modelled; only the values and button states they carry are.
- The osu! HTTP API, `download_osu_file` and `get_score_v1` are network calls; they are parameters (oracles) of the operations that use them.
- Floating point is not modelled: `calculate_accuracy`, `calculate_pp_with_rosu` (the rosu-pp library), averages, `usage_percent`, the float `difficulty_rating` key; clock-rate mods are an enumeration instead of a float rate.
- Third-party libraries are not modelled: matplotlib charts, pycountry country names, PIL image cropping (sprite sheet sizes are inputs), `relativedelta`, `strftime` and `fromisoformat`; the `/mapper` date handling is therefore left out.
- File persistence is modelled as datatypes or line lists; the UTF-8 byte-order mark (`utf-8-sig`) and JSON syntax errors other than "unreadable" are not modelled.
- `parse_osu_file_metadata` treats a file as readable or not; the partial fields kept when an exception is raised mid-file are not modelled.
- Unicode: `isdigit`, `lower` and `strip` are modelled on ASCII only.
- The jump modal's `max_length=3` is a Discord client-side limit and is not modelled.
- `format_stats`, `format_abilities` and `format_money` produce display text only and are not modelled.
- The wording of messages (affection messages, handler replies, `random.choice` greetings) and logging are not modelled; only which message kind is chosen is.
- The character's `relationship` display field is not modelled beyond the relationship level it is derived from.
- `load_all`: exceptions other than the one raised by an unparsable schedule integer are not modelled.
- EraGameManager.GameManager.AvailableCharacters: returns a set, so the order of the source's list is not captured.
- `/setuser`: the choice between a user id and a user name as identifier is made by the API oracle and is not modelled.
- KeywordCog.LoadEntries: a top-level entry other than "_" whose value is not a table is dropped; the source keeps it in memory.
- `keyword_add`: the administrator check before the modal opens is modelled separately (`IsAdmin`) and not tied to `Add`.
- UserCog.TypeFrom: the `/mapper` paging loop is bounded by a fuel parameter; runs longer than the fuel are not modelled.
- Locks, threads and `asyncio.sleep` delays (the preference lock, `DATA_LOCK`) are not modelled; every operation is atomic.
- Upload scripts: the interactive menu and `input()`, `export_url_map`, the statistics printed by `load_all_definitions` and `main()` are not modelled.
- The delete view's confirmation text (the first 50 or 100 characters of the message) is not modelled.
- HelpCog.ListLines, HelpCog.Help: list a command described as "..." with the no-description text, the corrected rule of the help-listing finding below; the code as written lists "..." (`OriginalAsWritten`, `DotsListedAsWritten`).
- Upload scripts: one timestamp `now` is used for a whole run, while the scripts read `datetime.now()` again for each record; the per-record upload times are therefore not distinguished.
- `upload_era_images.py`: the directory search (`glob` at the top level, `rglob` recursively) is file-system I/O and is a parameter `search` indexed by the recursive flag; each image found carries its own size.
- UploadEraImages.ImageUploadRecord.constructor: requires the loaded records to be keyed by their own file names, which `_load` does not check; a record file whose keys and `filename` fields disagree is not modelled.
- The character manager's registration of itself with the game manager (`set_character_manager`) is not modelled: the model's game manager never calls back into it. The command manager's handler table (`_register_default_commands`) is modelled as a fixed dispatch on the command id over the catalogue passed to its constructor.
- UploadEraSprites.CropRefusedIff: a rectangle with a negative width or height counts as accepted; recent Pillow versions refuse such a box inside `img.crop`, which `crop_sprite` catches and turns into a failure. Pillow's behaviour is not modelled.
- Localization.L10n.SetUserLanguage, UserDataManager.BindingStore.SetBinding, UserDataManager.BindingStore.RemoveBinding: every save is modelled as succeeding. The source catches a failed write and only logs it, which leaves the old file in place.
- Localization: `get_user_language`'s conversion of keys to strings is not modelled, since keys are strings throughout.

## Findings

| source | as written | input that shows it | evidently intended | confidence | as-written member | corrected member |
|---|---|---|---|---|---|---|
| cogs/beatmap_cog.py:43 | `format_length` slices off the first digit of the hours for lengths from one to ten hours | a length of 3661 s shows "01:01", the same as 61 s | "1:01:01" | not executed | BeatmapCog.FormatLengthCollision | BeatmapCog.FormatLengthFixedReadsBack |
| cogs/beatmap_cog.py:186-193 | the last status fallback reads `current_beatmap_data`, a name that is never defined | a difficulty whose response carries no nested `beatmapset` | read the difficulty's own status fields | not executed | BeatmapCog.MissingSetFails | BeatmapCog.StatusFixedAgrees |
| cogs/osu_cog.py:829-838 | `/best` sets `current_index` after the view computed its button states for index 0 | `bp_rank` = 2 opens at the second score with Previous disabled | buttons computed for the requested rank | not executed | OsuCog.OpenBestAsWritten | OsuCog.OpenBest |
| cogs/help_cog.py:90-100 | the "no description" replacement for "..." is stored in a variable that is never used | an untranslated command whose description is "..." is listed as "..." | list the no-description text | not executed | HelpCog.DotsListedAsWritten | HelpCog.DotsReplacedFixed |
