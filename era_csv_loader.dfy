/**
 * The eraTW data loader: comment filtering of CSV rows, the id-to-name
 * definition tables (abilities, talents, commands, items), the
 * per-character files and the character table they fill.
 *
 * A CSV file is given as its already split rows (`None` when it cannot be
 * opened); the character folder as the stems and contents of its
 * `Chara*.csv` files, in the order the directory listing yields them.
 */
module EraCsvLoader {
  import opened Wrappers
  import opened Text
  import opened EraCharacter

  type Row = seq<string>

  // ---------------------------------------------------------------------
  // Reading a CSV file

  /** An empty row, or one whose first cell starts a comment. */
  predicate Skipped(row: Row) {
    row == [] || StartsWith(row[0], ";") || StartsWith(row[0], "#")
  }

  /** The rows of a file that survive the comment filter, in file order. */
  function Kept(raw: seq<Row>): (rows: seq<Row>)
    ensures |rows| <= |raw|
    ensures forall r :: r in rows <==> r in raw && !Skipped(r)
  {
    if raw == [] then []
    else
      var init := Kept(raw[..|raw| - 1]);
      var last := raw[|raw| - 1];
      assert forall r :: r in raw <==> r in raw[..|raw| - 1] || r == last;
      init + (if Skipped(last) then [] else [last])
  }

  /** `_read_csv`: an unreadable file reads as no rows. */
  method ReadCsv(file: Option<seq<Row>>) returns (rows: seq<Row>)
    ensures file.None? ==> rows == []
    ensures file.Some? ==> rows == Kept(file.value)
  {
    rows := [];
    if file.None? {
      return;
    }
    var raw := file.value;
    var i := 0;
    while i < |raw|
      invariant 0 <= i <= |raw|
      invariant rows == Kept(raw[..i])
    {
      assert raw[..i + 1][..i] == raw[..i];
      if !Skipped(raw[i]) {
        rows := rows + [raw[i]];
      }
      i := i + 1;
    }
    assert raw[..i] == raw;
  }

  // ---------------------------------------------------------------------
  // Definition tables

  /** The id of a definition row: at least two cells and an integer first cell (`int()` ignores surrounding blanks). */
  function RowId(row: Row): (r: Option<int>)
    ensures r.Some? ==> |row| >= 2
  {
    if |row| >= 2 then ParseInt(Strip(row[0])) else None
  }

  /** The name of a definition: the second cell up to its first `;`, stripped. */
  function DefName(cell: string): (r: string)
    ensures forall i :: 0 <= i < |r| ==> r[i] != ';'
  {
    var s := Strip(BeforeFirst(cell, ';'));
    assert forall i :: 0 <= i < |s| ==> s[i] in BeforeFirst(cell, ';') by {
      StripIsInfix(BeforeFirst(cell, ';'));
    }
    s
  }

  /** The table a definition file yields: rows in order, a later id overwriting an earlier one. */
  function Definitions(rows: seq<Row>): (r: map<int, string>)
    ensures forall id, i :: id in r && 0 <= i < |r[id]| ==> r[id][i] != ';'
  {
    if rows == [] then map[]
    else
      var init := Definitions(rows[..|rows| - 1]);
      var last := rows[|rows| - 1];
      match RowId(last)
      case None => init
      case Some(id) => init[id := DefName(last[1])]
  }

  /** An id is defined exactly when some row carries it. */
  lemma {:induction false} DefinitionsKeys(rows: seq<Row>, id: int)
    ensures id in Definitions(rows) <==> exists i :: 0 <= i < |rows| && RowId(rows[i]) == Some(id)
  {
    if rows != [] {
      var init := rows[..|rows| - 1];
      DefinitionsKeys(init, id);
      if exists i :: 0 <= i < |rows| && RowId(rows[i]) == Some(id) {
        var i :| 0 <= i < |rows| && RowId(rows[i]) == Some(id);
        if i < |init| {
          assert RowId(init[i]) == Some(id);
        }
      }
      if exists i :: 0 <= i < |init| && RowId(init[i]) == Some(id) {
        var i :| 0 <= i < |init| && RowId(init[i]) == Some(id);
        assert RowId(rows[i]) == Some(id);
      }
    }
  }

  /** The name kept for an id is the one on the last row carrying it. */
  lemma {:induction false} DefinitionsLastWins(rows: seq<Row>, i: int, id: int)
    requires 0 <= i < |rows| && RowId(rows[i]) == Some(id)
    requires forall j :: i < j < |rows| ==> RowId(rows[j]) != Some(id)
    ensures id in Definitions(rows) && Definitions(rows)[id] == DefName(rows[i][1])
  {
    var init := rows[..|rows| - 1];
    if i < |rows| - 1 {
      forall j | i < j < |init| ensures RowId(init[j]) != Some(id) {
        assert init[j] == rows[j];
      }
      DefinitionsLastWins(init, i, id);
      assert init[i] == rows[i];
    }
  }

  /** One more row of a definition file: its entry goes on top of the earlier ones. */
  lemma DefinitionsSnoc(rows: seq<Row>, i: int)
    requires 0 <= i < |rows|
    ensures Definitions(rows[..i + 1]) ==
      match RowId(rows[i])
      case None => Definitions(rows[..i])
      case Some(id) => Definitions(rows[..i])[id := DefName(rows[i][1])]
  {
    assert rows[..i + 1][..i] == rows[..i];
  }

  lemma UnionUpdate<K, V>(a: map<K, V>, b: map<K, V>, k: K, v: V)
    ensures (a + b)[k := v] == a + b[k := v]
  {
  }

  /** A loader's loop: each definition row is added on top of what the table already holds. */
  method AddDefinitions(defs: map<int, string>, rows: seq<Row>) returns (r: map<int, string>)
    ensures r == defs + Definitions(rows)
  {
    r := defs;
    var i := 0;
    while i < |rows|
      invariant 0 <= i <= |rows|
      invariant r == defs + Definitions(rows[..i])
    {
      DefinitionsSnoc(rows, i);
      var id := RowId(rows[i]);
      if id.Some? {
        UnionUpdate(defs, Definitions(rows[..i]), id.value, DefName(rows[i][1]));
        r := r[id.value := DefName(rows[i][1])];
      }
      i := i + 1;
    }
    assert rows[..i] == rows;
  }

  // ---------------------------------------------------------------------
  // Attribute rows of a character file

  /** `int(text.split(";")[0])`, None when it raises. */
  function LeadingInt(text: string): Option<int> {
    ParseInt(Strip(BeforeFirst(text, ';')))
  }

  /** The stats a `基礎` row sets: the paired ones set both current and maximum. */
  const StatTable: seq<(string, seq<string>)> := [
    ("体力", ["stamina", "max_stamina"]), ("气力", ["energy", "max_energy"]),
    ("勃起", ["lust", "max_lust"]), ("精力", ["vitality", "max_vitality"]),
    ("法力", ["mana", "max_mana"]), ("情绪", ["mood", "max_mood"]),
    ("理性", ["reason", "max_reason"]), ("愤怒", ["anger"]), ("深度", ["depth"]),
    ("酒气", ["max_alcohol"])]

  function StatTargets(name: string): seq<string> {
    Lookup(StatTable, name).GetOr([])
  }

  const AbilityNames: seq<(string, string)> := [
    ("清扫技能", "cleaning"), ("话术技能", "speech"), ("战斗能力", "combat"),
    ("教养", "culture"), ("料理技能", "cooking"), ("音乐技能", "music")]

  const TalentNames: seq<(string, string)> := [
    ("处女", "virgin"), ("性别", "gender"), ("恋慕", "love"), ("淫乱", "lewd"),
    ("服从", "submission"), ("胆量", "courage"), ("态度", "attitude"), ("回应", "response"),
    ("自尊心", "pride"), ("傲娇", "tsundere"), ("容姿", "appearance"), ("年龄", "age"),
    ("体型", "body_type"), ("胸围", "bust_size"), ("酒耐性", "alcohol_tolerance"),
    ("人类", "human"), ("妖怪", "youkai"), ("妖精", "fairy"), ("神灵", "spirit"),
    ("幽灵", "ghost"), ("付丧神", "tsukumogami"), ("人形", "doll"), ("追加种族", "extra_race"),
    ("开朗／阴郁", "mood_var"), ("难以越过的底线", "courage"), ("贞操", "virgin"),
    ("痛觉", "response"), ("谜之魅力", "appearance")]

  function SetAll(attrs: Attributes, names: seq<string>, v: int): (r: Attributes)
    ensures forall n :: n in r <==> n in attrs || n in names
    ensures forall n :: n in names ==> r[n] == v
    ensures forall n :: n in attrs && n !in names ==> r[n] == attrs[n]
    decreases |names|
  {
    if names == [] then attrs else SetAll(attrs[names[0] := v], names[1..], v)
  }

  /** `_parse_stat`: a non-integer value or an unknown stat changes nothing. */
  function ParseStat(name: string, value: string, stats: Attributes): (r: Attributes)
    ensures LeadingInt(value).None? ==> r == stats
    ensures forall n :: n in r <==> n in stats || (LeadingInt(value).Some? && n in StatTargets(name))
    ensures LeadingInt(value).Some? ==>
      (forall n :: n in StatTargets(name) ==> n in r && r[n] == LeadingInt(value).value) &&
      (forall n :: n in stats && n !in StatTargets(name) ==> n in r && r[n] == stats[n])
  {
    match LeadingInt(value)
    case None => stats
    case Some(v) => SetAll(stats, StatTargets(name), v)
  }

  /** A paired stat row, one naming two attributes, sets both to the row's value. */
  lemma PairedStatsAgree(name: string, value: string, stats: Attributes)
    requires LeadingInt(value).Some? && |StatTargets(name)| == 2
    ensures var r := ParseStat(name, value, stats); var t := StatTargets(name);
      t[0] in r && t[1] in r && r[t[0]] == LeadingInt(value).value && r[t[1]] == LeadingInt(value).value
  {
  }

  /** Stamina and reason are paired stats: a current value and its maximum. */
  lemma StatPairs()
    ensures StatTargets("体力") == ["stamina", "max_stamina"] && StatTargets("理性") == ["reason", "max_reason"]
  {
  }

  /** `_parse_ability` and `_parse_talent`: one named attribute set, when the value is an integer. */
  function ParseNamed(table: seq<(string, string)>, name: string, value: string, attrs: Attributes): (r: Attributes)
    ensures Lookup(table, name).None? || LeadingInt(value).None? ==> r == attrs
    ensures Lookup(table, name).Some? && LeadingInt(value).Some? ==>
      r == attrs[Lookup(table, name).value := LeadingInt(value).value]
  {
    match (Lookup(table, name), LeadingInt(value))
    case (Some(attr), Some(v)) => attrs[attr := v]
    case _ => attrs
  }

  // ---------------------------------------------------------------------
  // A character file

  /** The row keys a character file uses. */
  datatype Key = NameKey | CallnameKey | BaseKey | AbilityKey | TalentKey | FlagKey | CompatibilityKey | StringKey | OtherKey

  const KeyTable: seq<(string, Key)> := [
    ("名前", NameKey), ("呼び名", CallnameKey), ("基礎", BaseKey), ("能力", AbilityKey),
    ("素質", TalentKey), ("フラグ", FlagKey), ("相性", CompatibilityKey), ("CSTR", StringKey)]

  function KeyOf(key: string): Key {
    Lookup(KeyTable, key).GetOr(OtherKey)
  }

  /** The `フラグ` names that set the schedule and home; their values must be integers. */
  datatype ScheduleField = Visit | Leave | Sleep | Wake | Home

  const ScheduleTable: seq<(string, ScheduleField)> := [
    ("来访时间", Visit), ("回家时间", Leave), ("就寝时间", Sleep), ("起床时间", Wake), ("自宅位置", Home)]

  function ScheduleFieldOf(value: string): Option<ScheduleField> {
    Lookup(ScheduleTable, value)
  }

  function Cell(row: Row, k: nat): string {
    if |row| > k then Strip(row[k]) else ""
  }

  /** A row that makes the parser raise: a schedule flag whose value is not an integer. */
  predicate RaisesOn(row: Row) {
    |row| >= 2 && KeyOf(Strip(row[0])) == FlagKey && ScheduleFieldOf(Cell(row, 1)).Some? && LeadingInt(Cell(row, 2)).None?
  }

  /** A `フラグ` row: a schedule field must hold an integer, any other flag is kept only when it does. */
  function StepFlag(c: Character, value: string, extra: string): (r: Option<Character>)
    ensures r.None? <==> ScheduleFieldOf(value).Some? && LeadingInt(extra).None?
  {
    var n := LeadingInt(extra);
    match ScheduleFieldOf(value)
    case Some(field) =>
      if n.None? then None
      else Some(match field
        case Visit => c.(visitTime := n.value)
        case Leave => c.(leaveTime := n.value)
        case Sleep => c.(sleepTime := n.value)
        case Wake => c.(wakeTime := n.value)
        case Home => c.(homeLocation := n.value))
    case None =>
      if n.None? then Some(c) else Some(c.(flags := c.flags[value := n.value]))
  }

  /** A `相性` row: both the target id and the value must be integers. */
  function StepCompatibility(c: Character, value: string, extra: string): (r: Character)
    ensures r.(compatibility := c.compatibility) == c
    ensures ParseInt(value).Some? && LeadingInt(extra).Some? ==>
      r.compatibility == c.compatibility[ParseInt(value).value := LeadingInt(extra).value]
    ensures ParseInt(value).None? || LeadingInt(extra).None? ==> r == c
  {
    match (ParseInt(value), LeadingInt(extra))
    case (Some(t), Some(v)) => c.(compatibility := c.compatibility[t := v])
    case _ => c
  }

  /** A `CSTR` row: the occupation and the description strings. */
  function StepString(c: Character, value: string, extra: string): (r: Character)
    ensures r.(occupation := c.occupation, description := c.description) == c
    ensures value == "工作情报" ==> r.occupation == extra && r.description == c.description
    ensures value == "10" ==> r.description == extra && r.occupation == c.occupation
  {
    if value == "工作情报" then c.(occupation := extra)
    else if value == "10" then c.(description := extra)
    else c
  }

  /** One row of a character file applied to the record built so far; None when it raises. */
  function Step(c: Character, row: Row): (r: Option<Character>)
    ensures r.None? <==> RaisesOn(row)
  {
    if |row| < 2 then Some(c)
    else
      var value := Cell(row, 1);
      var extra := Cell(row, 2);
      match KeyOf(Strip(row[0]))
      case NameKey => Some(c.(name := value))
      case CallnameKey => Some(c.(callname := value))
      case BaseKey => Some(c.(stats := ParseStat(value, extra, c.stats)))
      case AbilityKey => Some(c.(abilities := ParseNamed(AbilityNames, value, extra, c.abilities)))
      case TalentKey => Some(c.(talents := ParseNamed(TalentNames, value, extra, c.talents)))
      case FlagKey => StepFlag(c, value, extra)
      case CompatibilityKey => Some(StepCompatibility(c, value, extra))
      case StringKey => Some(StepString(c, value, extra))
      case OtherKey => Some(c)
  }

  /** The first `n` rows applied in order; the first raising row aborts the whole file. */
  function StepAll(c: Character, rows: seq<Row>, n: nat): Option<Character>
    requires n <= |rows|
  {
    if n == 0 then Some(c)
    else
      match StepAll(c, rows, n - 1)
      case None => None
      case Some(c1) => Step(c1, rows[n - 1])
  }

  /** The outcome of `_parse_character_csv`: no rows gives None, a raise skips the character. */
  datatype CharacterParse = NoRows | Raised | Parsed(character: Character)

  /** The record before any row: the file's id, empty names and every default. */
  function Blank(id: int): Character {
    NewCharacter(id, "", "")
  }

  function ParseCharacter(rows: seq<Row>, id: int): (r: CharacterParse)
    ensures r.NoRows? <==> rows == []
    ensures r.Parsed? ==> r.character.id == id && r.character.currentLocation == r.character.homeLocation
  {
    if rows == [] then NoRows
    else
      match StepAll(Blank(id), rows, |rows|)
      case None => Raised
      case Some(c) => Parsed(c.(id := id, currentLocation := c.homeLocation))
  }

  /** `_parse_character_csv` on a file that may not open: an unreadable file has no rows. */
  function ParseFile(file: Option<seq<Row>>, id: int): (r: CharacterParse)
    ensures file.None? ==> r == NoRows
    ensures r.Parsed? ==> r.character.id == id
  {
    ParseCharacter(if file.Some? then Kept(file.value) else [], id)
  }

  /** The file parser raises exactly when some row is a schedule flag with a non-integer value. */
  lemma {:induction false} StepAllRaisesIff(c: Character, rows: seq<Row>, n: nat)
    requires n <= |rows|
    ensures StepAll(c, rows, n).None? <==> exists i :: 0 <= i < n && RaisesOn(rows[i])
  {
    if n != 0 {
      StepAllRaisesIff(c, rows, n - 1);
    }
  }

  /** A one-row file is that row applied to the blank record. */
  lemma OneRowFile(row: Row, id: int)
    ensures var r := Step(Blank(id), row);
      ParseCharacter([row], id) ==
        if r.None? then Raised else Parsed(r.value.(id := id, currentLocation := r.value.homeLocation))
  {
    assert StepAll(Blank(id), [row], 1) == Step(Blank(id), row);
  }

  lemma NameKeyOf()
    ensures KeyOf(Strip("名前")) == NameKey
  {
    StripKeepsClean("名前");
  }

  lemma FlagKeyOf()
    ensures KeyOf(Strip("フラグ")) == FlagKey
  {
    StripKeepsClean("フラグ");
  }

  lemma VisitField()
    ensures ScheduleFieldOf(Strip("来访时间")) == Some(Visit)
  {
    StripKeepsClean("来访时间");
  }

  lemma SoonIsNotAnInteger()
    ensures Strip("soon") == "soon" && LeadingInt("soon") == None
  {
    StripKeepsClean("soon");
    assert BeforeFirst("soon", ';') == "soon";
    ParseIntRejectsLetters("soon", 0);
  }

  /** A file with a name row and nothing else keeps the default schedule and home. */
  lemma NameOnlyFile(id: int, name: string)
    ensures ParseCharacter([["名前", name]], id) ==
      Parsed(NewCharacter(id, Strip(name), ""))
  {
    var row: Row := ["名前", name];
    OneRowFile(row, id);
    NameKeyOf();
    assert Step(Blank(id), row) == Some(Blank(id).(name := Strip(name)));
  }

  /** A schedule flag with a non-integer value loses the whole character. */
  lemma BadScheduleFlagRaises(id: int)
    ensures ParseCharacter([["フラグ", "来访时间", "soon"]], id) == Raised
  {
    var row: Row := ["フラグ", "来访时间", "soon"];
    OneRowFile(row, id);
    FlagKeyOf();
    VisitField();
    SoonIsNotAnInteger();
    assert RaisesOn(row);
  }

  /** Any other flag with a non-integer value is merely ignored. */
  lemma OtherBadFlagIgnored(id: int, other: string)
    requires ScheduleFieldOf(Strip(other)).None?
    ensures ParseCharacter([["フラグ", other, "soon"]], id) == Parsed(Blank(id))
  {
    var row: Row := ["フラグ", other, "soon"];
    OneRowFile(row, id);
    FlagKeyOf();
    SoonIsNotAnInteger();
    BlankSettled(id);
    FlagRowStep(Blank(id), row);
    assert Cell(row, 2) == "soon";
    assert StepFlag(Blank(id), Strip(other), "soon") == Some(Blank(id));
  }

  /** A `フラグ` row is handed to the flag step with its two cells. */
  lemma FlagRowStep(c: Character, row: Row)
    requires |row| >= 2 && KeyOf(Strip(row[0])) == FlagKey
    ensures Step(c, row) == StepFlag(c, Cell(row, 1), Cell(row, 2))
  {
  }

  /** The blank record already stands at its home. */
  lemma BlankSettled(id: int)
    ensures Blank(id).(id := id, currentLocation := Blank(id).homeLocation) == Blank(id)
  {
  }

  /** `_parse_character_csv`: the rows are folded into the local record, then the character is built. */
  method ParseCharacterCsv(file: Option<seq<Row>>, id: int) returns (r: CharacterParse)
    ensures r == ParseFile(file, id)
  {
    var rows := ReadCsv(file);
    if rows == [] {
      return NoRows;
    }
    var c := Blank(id);
    var i := 0;
    while i < |rows|
      invariant 0 <= i <= |rows|
      invariant StepAll(Blank(id), rows, i) == Some(c)
    {
      var next := Step(c, rows[i]);
      if next.None? {
        StepAllAbsorbs(Blank(id), rows, i + 1);
        return Raised;
      }
      c := next.value;
      i := i + 1;
    }
    r := Parsed(c.(id := id, currentLocation := c.homeLocation));
  }

  /** Once a prefix has raised, the whole file has. */
  lemma {:induction false} StepAllAbsorbs(c: Character, rows: seq<Row>, n: nat)
    requires n <= |rows| && StepAll(c, rows, n).None?
    ensures StepAll(c, rows, |rows|).None?
    decreases |rows| - n
  {
    if n < |rows| {
      StepAllAbsorbs(c, rows, n + 1);
    }
  }

  // ---------------------------------------------------------------------
  // The character folder

  /** The digits at the head of a string. */
  function LeadingDigits(s: string): (r: string)
    ensures AllDigits(r) && StartsWith(s, r)
    ensures |r| < |s| ==> !IsDigit(s[|r|])
  {
    if s != [] && IsDigit(s[0]) then [s[0]] + LeadingDigits(s[1..]) else []
  }

  /** `re.match(r"Chara(\d+)", stem)`: the number right after the prefix. */
  function CharaId(stem: string): (r: Option<int>)
    ensures r.Some? ==> r.value >= 0
    ensures r.Some? <==> StartsWith(stem, "Chara") && |stem| > 5 && IsDigit(stem[5])
  {
    if StartsWith(stem, "Chara") then
      var d := LeadingDigits(stem[5..]);
      if d == [] then None else Some(DigitsValue(d) as int)
    else None
  }

  lemma CharaIdExample()
    ensures CharaId("Chara26") == Some(26)
    ensures CharaId("Chara1_old") == Some(1)
    ensures CharaId("CharaX") == None
  {
    assert LeadingDigits("26") == "26";
    assert DigitsValue("26") == 26 by {
      assert "26"[..1] == "2";
      assert "2"[..0] == [];
    }
    assert LeadingDigits("1_old") == "1";
    assert DigitsValue("1") == 1 by {
      assert "1"[..0] == [];
    }
  }

  /** The digit run of a number followed by a non-digit is exactly that number's digits. */
  lemma {:induction false} LeadingDigitsOfRun(d: string, rest: string)
    requires AllDigits(d) && (rest == [] || !IsDigit(rest[0]))
    ensures LeadingDigits(d + rest) == d
  {
    if d != [] {
      assert (d + rest)[1..] == d[1..] + rest;
      LeadingDigitsOfRun(d[1..], rest);
      assert d == [d[0]] + d[1..];
    }
  }

  /** Any stem "Chara" + the decimal digits of `n`, followed by a non-digit or nothing, yields `n`. */
  lemma CharaIdOfNumber(n: nat, rest: string)
    requires rest == [] || !IsDigit(rest[0])
    ensures CharaId("Chara" + NatToString(n) + rest) == Some(n)
  {
    var digits := NatToString(n);
    var stem := "Chara" + digits + rest;
    assert stem[..5] == "Chara";
    assert stem[5..] == digits + rest;
    LeadingDigitsOfRun(digits, rest);
    DigitsOfNat(n);
  }

  /** A `Chara*.csv` file: its stem and its rows (None when unreadable). */
  datatype CharaFile = CharaFile(stem: string, file: Option<seq<Row>>)

  /** Adding a character keeps the load order; a repeated id keeps its first position. */
  function Put(t: CharacterTable, id: int, c: Character): (r: CharacterTable)
    ensures r.byId == t.byId[id := c]
    ensures id in t.byId ==> r.order == t.order
    ensures id !in t.byId ==> r.order == t.order + [id]
  {
    if id in t.byId then t.(byId := t.byId[id := c])
    else CharacterTable(t.order + [id], t.byId[id := c])
  }

  /** Storing a character keeps the table an insertion-ordered dictionary. */
  lemma PutWellFormed(t: CharacterTable, id: int, c: Character)
    requires TableWellFormed(t)
    ensures TableWellFormed(Put(t, id, c))
  {
    var r := Put(t, id, c);
    if id !in t.byId {
      forall i, j | 0 <= i < j < |r.order|
        ensures r.order[i] != r.order[j]
      {
        if j == |t.order| {
          assert r.order[i] == t.order[i];
        }
      }
    }
  }

  /** The effect of one file on the table. */
  function LoadOne(t: CharacterTable, f: CharaFile, mvpOnly: bool): (r: CharacterTable)
    ensures t.byId.Keys <= r.byId.Keys
    ensures forall k :: k in r.byId && k !in t.byId ==> CharaId(f.stem) == Some(k) && r.byId[k].id == k
  {
    match CharaId(f.stem)
    case None => t
    case Some(id) =>
      if mvpOnly && id !in MvpCharacterIds then t
      else
        match ParseFile(f.file, id)
        case Parsed(c) => Put(t, id, c)
        case _ => t
  }

  function LoadAll(t: CharacterTable, files: seq<CharaFile>, mvpOnly: bool): (r: CharacterTable)
    ensures t.byId.Keys <= r.byId.Keys
  {
    if files == [] then t
    else LoadOne(LoadAll(t, files[..|files| - 1], mvpOnly), files[|files| - 1], mvpOnly)
  }

  /** Loading any sequence of files keeps the table an insertion-ordered dictionary. */
  lemma {:induction false} LoadAllWellFormed(t: CharacterTable, files: seq<CharaFile>, mvpOnly: bool)
    requires TableWellFormed(t)
    ensures TableWellFormed(LoadAll(t, files, mvpOnly))
  {
    if files != [] {
      var prev := LoadAll(t, files[..|files| - 1], mvpOnly);
      LoadAllWellFormed(t, files[..|files| - 1], mvpOnly);
      var f := files[|files| - 1];
      var id := CharaId(f.stem);
      if id.Some? {
        var p := ParseFile(f.file, id.value);
        if p.Parsed? {
          PutWellFormed(prev, id.value, p.character);
        }
      }
    }
  }

  /** Every loaded character comes from a file named after its id, and in MVP mode only MVP ids load. */
  lemma {:induction false} LoadAllSources(t: CharacterTable, files: seq<CharaFile>, mvpOnly: bool, id: int)
    requires id in LoadAll(t, files, mvpOnly).byId && id !in t.byId
    ensures exists i :: 0 <= i < |files| && CharaId(files[i].stem) == Some(id)
    ensures mvpOnly ==> id in MvpCharacterIds
    ensures LoadAll(t, files, mvpOnly).byId[id].id == id
  {
    var init := files[..|files| - 1];
    var prev := LoadAll(t, init, mvpOnly);
    var f := files[|files| - 1];
    if id in prev.byId && (CharaId(f.stem) != Some(id) || LoadOne(prev, f, mvpOnly).byId[id] == prev.byId[id]) {
      LoadAllSources(t, init, mvpOnly, id);
      var i :| 0 <= i < |init| && CharaId(init[i].stem) == Some(id);
      assert files[i] == init[i];
    } else {
      assert CharaId(f.stem) == Some(id);
    }
  }

  // ---------------------------------------------------------------------
  // The loader object

  /** `CSVLoader`: the four definition caches and the character table. */
  class CsvLoader {
    var abilitiesDef: map<int, string>
    var talentsDef: map<int, string>
    var commandsDef: map<int, string>
    var itemsDef: map<int, string>
    var characters: CharacterTable

    ghost predicate Valid()
      reads this
    {
      TableWellFormed(characters)
    }

    constructor ()
      ensures abilitiesDef == map[] && talentsDef == map[] && commandsDef == map[] && itemsDef == map[]
      ensures characters == CharacterTable([], map[]) && Valid()
    {
      abilitiesDef, talentsDef, commandsDef, itemsDef := map[], map[], map[], map[];
      characters := CharacterTable([], map[]);
    }

    /** `_load_abilities`, `_load_talents`, `_load_commands`, `_load_items`: each file on top of its cache. */
    method LoadDefinitions(abl: Option<seq<Row>>, talent: Option<seq<Row>>, train: Option<seq<Row>>, item: Option<seq<Row>>)
      modifies this
      ensures abilitiesDef == old(abilitiesDef) + Definitions(if abl.Some? then Kept(abl.value) else [])
      ensures talentsDef == old(talentsDef) + Definitions(if talent.Some? then Kept(talent.value) else [])
      ensures commandsDef == old(commandsDef) + Definitions(if train.Some? then Kept(train.value) else [])
      ensures itemsDef == old(itemsDef) + Definitions(if item.Some? then Kept(item.value) else [])
      ensures characters == old(characters)
    {
      var rows := ReadCsv(abl);
      abilitiesDef := AddDefinitions(abilitiesDef, rows);
      rows := ReadCsv(talent);
      talentsDef := AddDefinitions(talentsDef, rows);
      rows := ReadCsv(train);
      commandsDef := AddDefinitions(commandsDef, rows);
      rows := ReadCsv(item);
      itemsDef := AddDefinitions(itemsDef, rows);
    }

    /** `_load_characters`: a missing folder loads nothing; each file is parsed and kept when it parses. */
    method LoadCharacters(folder: Option<seq<CharaFile>>, mvpOnly: bool)
      requires Valid()
      modifies this
      ensures Valid()
      ensures folder.None? ==> characters == old(characters)
      ensures folder.Some? ==> characters == LoadAll(old(characters), folder.value, mvpOnly)
      ensures abilitiesDef == old(abilitiesDef) && talentsDef == old(talentsDef)
      ensures commandsDef == old(commandsDef) && itemsDef == old(itemsDef)
    {
      if folder.None? {
        return;
      }
      var files := folder.value;
      var i := 0;
      while i < |files|
        invariant 0 <= i <= |files|
        invariant characters == LoadAll(old(characters), files[..i], mvpOnly)
        invariant abilitiesDef == old(abilitiesDef) && talentsDef == old(talentsDef)
        invariant commandsDef == old(commandsDef) && itemsDef == old(itemsDef)
      {
        assert files[..i + 1][..i] == files[..i];
        LoadFile(files[i], mvpOnly);
        i := i + 1;
      }
      assert files[..i] == files;
      LoadAllWellFormed(old(characters), files, mvpOnly);
    }

    /** One iteration of `_load_characters`: the id from the file name, the MVP filter, the parse. */
    method LoadFile(f: CharaFile, mvpOnly: bool)
      modifies this
      ensures characters == LoadOne(old(characters), f, mvpOnly)
      ensures abilitiesDef == old(abilitiesDef) && talentsDef == old(talentsDef)
      ensures commandsDef == old(commandsDef) && itemsDef == old(itemsDef)
    {
      var id := CharaId(f.stem);
      if id.Some? && !(mvpOnly && id.value !in MvpCharacterIds) {
        var parsed := ParseCharacterCsv(f.file, id.value);
        if parsed.Parsed? {
          characters := Put(characters, id.value, parsed.character);
        }
      }
    }

    /** `get_command_name`: the loaded name, else `指令` followed by the id. */
    function GetCommandName(id: int): (r: string)
      reads this
      ensures id in commandsDef ==> r == commandsDef[id]
      ensures id !in commandsDef ==> r == "指令" + IntToString(id)
    {
      if id in commandsDef then commandsDef[id] else "指令" + IntToString(id)
    }

    function GetCharacter(id: int): (r: Option<Character>)
      reads this
      ensures r.Some? <==> id in characters.byId
      ensures r.Some? ==> r.value == characters.byId[id]
    {
      if id in characters.byId then Some(characters.byId[id]) else None
    }
  }

  /** After loading a command file into an empty cache, a command's name is the one on its last row, else the fallback. */
  lemma CommandNameAfterLoad(rows: seq<Row>, id: int)
    ensures (exists i :: 0 <= i < |rows| && RowId(rows[i]) == Some(id)) <==> id in Definitions(rows)
    ensures forall i :: (0 <= i < |rows| && RowId(rows[i]) == Some(id) &&
      (forall j :: i < j < |rows| ==> RowId(rows[j]) != Some(id))) ==>
      Definitions(rows)[id] == DefName(rows[i][1])
  {
    DefinitionsKeys(rows, id);
    forall i | 0 <= i < |rows| && RowId(rows[i]) == Some(id) &&
      (forall j :: i < j < |rows| ==> RowId(rows[j]) != Some(id))
      ensures Definitions(rows)[id] == DefName(rows[i][1])
    {
      DefinitionsLastWins(rows, i, id);
    }
  }
}
