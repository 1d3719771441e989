/**
 * The affection thresholds shared by the eraTW managers, formatters and
 * exploration game: 100, 300, 500, 700 and 900 mark relationship levels
 * 1 through 5.
 */
module EraRelationship {

  /** `get_relationship_level` on an affection value. */
  function Level(affection: int): (lv: nat)
    ensures lv <= 5
  {
    if affection >= 900 then 5
    else if affection >= 700 then 4
    else if affection >= 500 then 3
    else if affection >= 300 then 2
    else if affection >= 100 then 1
    else 0
  }

  /** Level k (1..5) is reached exactly from affection 200k - 100 upwards. */
  lemma LevelThreshold(affection: int, k: int)
    requires 1 <= k <= 5
    ensures Level(affection) >= k <==> affection >= 200 * k - 100
  {
  }

  /** More affection never means a lower level. */
  lemma LevelMonotone(a: int, b: int)
    requires a <= b
    ensures Level(a) <= Level(b)
  {
  }

  /** Names of the levels as the character manager reports them. */
  const LevelNames: map<int, string> := map[
    0 := "陌生人", 1 := "認識", 2 := "朋友", 3 := "好友", 4 := "親密", 5 := "戀人"]

  /** `get_relationship_name`: the name of the level, "未知" outside 0..5. */
  function LevelName(level: int): (r: string)
    ensures 0 <= level <= 5 <==> r != "未知"
  {
    if level in LevelNames then LevelNames[level] else "未知"
  }

  /** Every affection value has a known relationship name. */
  lemma EveryAffectionIsNamed(affection: int)
    ensures LevelName(Level(affection)) in LevelNames.Values
  {
    assert LevelNames[Level(affection)] == LevelName(Level(affection));
  }

  /** The short labels the formatters and the exploration game print for each level. */
  const LevelLabels: seq<string> := ["陌生", "認識", "朋友", "好友", "親密", "戀人"]
  const LevelEmoji: seq<string> := ["💔", "🧡", "❤️", "💖", "💗", "💕"]
}
