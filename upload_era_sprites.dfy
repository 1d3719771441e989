/**
 * The sprite upload script: the CSV definitions of the sprite sheets, the
 * record of what has been uploaded, the pending list, the crop bounds
 * check, the character filter, the limit and batching of an upload run,
 * and the reset of failed records before a retry.
 */
module UploadEraSprites {
  import opened Wrappers
  import opened Text
  import opened Batching

  /** Sprites uploaded per batch (a pause and a save follow each batch). */
  const BatchSize: nat := 5

  /** File names containing this mark are placeholders and are skipped. */
  const Dummy: string := "ダミー"

  /** The error stored for a sprite whose crop failed. */
  const CropFailedText: string := "裁剪失敗"

  /** One sprite: its name, the sheet it is cut from, the rectangle, and its category. */
  datatype SpriteDef = SpriteDef(name: string, filename: string, x: int, y: int, width: int, height: int, category: string)

  datatype Status = Success | Failed | Skipped

  /** An upload record; `cropRect` is empty unless the upload succeeded. */
  datatype UploadRecord = UploadRecord(spriteName: string, url: string, status: Status, error: Option<string>,
                                       uploadedAt: Option<string>, originalFile: string, cropRect: seq<int>)

  // ---------------------------------------------------------------------
  // parse_csv

  /** One line of a definition file: a sprite, or None for a skipped line. */
  function ParseLine(line: string, category: string): (r: Option<SpriteDef>)
    ensures r.Some? ==> Strip(line) != "" && !StartsWith(Strip(line), ";")
    ensures r.Some? ==> |Split(Strip(line), ',')| >= 6 && !Contains(r.value.filename, Dummy)
    ensures r.Some? ==> r.value.category == category
  {
    var s := Strip(line);
    if s == "" || StartsWith(s, ";") then None
    else
      var parts := Split(s, ',');
      if |parts| < 6 then None
      else
        var x, y := ParseInt(Strip(parts[2])), ParseInt(Strip(parts[3]));
        var w, h := ParseInt(Strip(parts[4])), ParseInt(Strip(parts[5]));
        if x.None? || y.None? || w.None? || h.None? then None
        else if Contains(Strip(parts[1]), Dummy) then None
        else Some(SpriteDef(Strip(parts[0]), Strip(parts[1]), x.value, y.value, w.value, h.value, category))
  }

  /** `a + "," + rest`: one field and the fields after it. */
  function Field(a: string, rest: string): string {
    a + "," + rest
  }

  /** The line a definition is written as. */
  function FormatLine(d: SpriteDef): string {
    Field(d.name, Field(d.filename, Field(IntToString(d.x), Field(IntToString(d.y),
      Field(IntToString(d.width), IntToString(d.height))))))
  }

  function Fields(d: SpriteDef): seq<string> {
    [d.name, d.filename, IntToString(d.x), IntToString(d.y), IntToString(d.width), IntToString(d.height)]
  }

  predicate Clean(s: string) {
    s == [] || (!IsSpace(s[0]) && !IsSpace(s[|s| - 1]))
  }

  lemma IntToStringShape(i: int)
    ensures IntToString(i) != [] && Free(IntToString(i), ',') && Clean(IntToString(i))
    ensures IsDigit(IntToString(i)[|IntToString(i)| - 1])
  {
  }

  lemma FieldSplits(a: string, rest: string)
    requires Free(a, ',')
    ensures Split(Field(a, rest), ',') == [a] + Split(rest, ',')
  {
    SplitAfter(a, ',', rest);
  }

  lemma FieldEnds(a: string, rest: string)
    requires rest != []
    ensures |Field(a, rest)| > 0 && Field(a, rest)[|Field(a, rest)| - 1] == rest[|rest| - 1]
    ensures Field(a, rest)[0] == if a == [] then ',' else a[0]
  {
  }

  /** The line splits back into its six fields. */
  lemma FormatLineSplits(d: SpriteDef)
    requires Free(d.name, ',') && Free(d.filename, ',')
    ensures Split(FormatLine(d), ',') == Fields(d)
  {
    var x, y, w, h := IntToString(d.x), IntToString(d.y), IntToString(d.width), IntToString(d.height);
    IntToStringShape(d.x);
    IntToStringShape(d.y);
    IntToStringShape(d.width);
    IntToStringShape(d.height);
    SplitFree(h, ',');
    FieldSplits(w, h);
    FieldSplits(y, Field(w, h));
    FieldSplits(x, Field(y, Field(w, h)));
    FieldSplits(d.filename, Field(x, Field(y, Field(w, h))));
    FieldSplits(d.name, Field(d.filename, Field(x, Field(y, Field(w, h)))));
  }

  /** A line whose name starts with a non-space character needs no stripping. */
  lemma FormatLineClean(d: SpriteDef)
    requires d.name != [] && !IsSpace(d.name[0])
    ensures Strip(FormatLine(d)) == FormatLine(d) && FormatLine(d)[0] == d.name[0]
  {
    var x, y, w, h := IntToString(d.x), IntToString(d.y), IntToString(d.width), IntToString(d.height);
    IntToStringShape(d.height);
    FieldEnds(w, h);
    FieldEnds(y, Field(w, h));
    FieldEnds(x, Field(y, Field(w, h)));
    FieldEnds(d.filename, Field(x, Field(y, Field(w, h))));
    FieldEnds(d.name, Field(d.filename, Field(x, Field(y, Field(w, h)))));
    StripKeepsClean(FormatLine(d));
  }

  /** The four numeric fields read back as the rectangle. */
  lemma NumbersReadBack(d: SpriteDef)
    ensures ParseInt(Strip(Fields(d)[2])) == Some(d.x) && ParseInt(Strip(Fields(d)[3])) == Some(d.y)
    ensures ParseInt(Strip(Fields(d)[4])) == Some(d.width)
    ensures ParseInt(Strip(Fields(d)[5])) == Some(d.height)
  {
    assert Fields(d)[2] == IntToString(d.x) && Fields(d)[3] == IntToString(d.y);
    assert Fields(d)[4] == IntToString(d.width) && Fields(d)[5] == IntToString(d.height);
    IntToStringShape(d.x);
    IntToStringShape(d.y);
    IntToStringShape(d.width);
    IntToStringShape(d.height);
    StripKeepsClean(IntToString(d.x));
    StripKeepsClean(IntToString(d.y));
    StripKeepsClean(IntToString(d.width));
    StripKeepsClean(IntToString(d.height));
    ParseIntOfIntToString(d.x);
    ParseIntOfIntToString(d.y);
    ParseIntOfIntToString(d.width);
    ParseIntOfIntToString(d.height);
  }

  /** A line whose stripped text has six fields, all readable, parses to the definition they spell. */
  lemma ParseLineFields(line: string, category: string, parts: seq<string>, x: int, y: int, w: int, h: int)
    requires Strip(line) != "" && !StartsWith(Strip(line), ";")
    requires Split(Strip(line), ',') == parts && |parts| >= 6
    requires ParseInt(Strip(parts[2])) == Some(x) && ParseInt(Strip(parts[3])) == Some(y)
    requires ParseInt(Strip(parts[4])) == Some(w) && ParseInt(Strip(parts[5])) == Some(h)
    requires !Contains(Strip(parts[1]), Dummy)
    ensures ParseLine(line, category) == Some(SpriteDef(Strip(parts[0]), Strip(parts[1]), x, y, w, h, category))
  {
  }

  /** A definition written as a line with clean fields parses back to itself. */
  lemma ParseFormatLine(d: SpriteDef)
    requires d.name != [] && d.name[0] != ';'
    requires Clean(d.name) && Clean(d.filename) && Free(d.name, ',') && Free(d.filename, ',')
    requires !Contains(d.filename, Dummy)
    ensures ParseLine(FormatLine(d), d.category) == Some(d)
  {
    var s := FormatLine(d);
    FormatLineClean(d);
    assert s != "" && Strip(s) == s;
    assert !StartsWith(s, ";") by {
      assert s[..1] == [d.name[0]];
    }
    FormatLineSplits(d);
    var parts := Fields(d);
    assert Split(s, ',') == parts && |parts| == 6;
    StripKeepsClean(d.name);
    StripKeepsClean(d.filename);
    assert parts[0] == d.name && parts[1] == d.filename;
    NumbersReadBack(d);
    ParseLineFields(s, d.category, parts, d.x, d.y, d.width, d.height);
  }

  /** Comment lines, and lines with fewer than six fields, are skipped. */
  lemma SkippedLines(line: string, category: string)
    requires StartsWith(Strip(line), ";") || |Split(Strip(line), ',')| < 6
    ensures ParseLine(line, category) == None
  {
  }

  /** The sprite dictionary: names in insertion order, and the definition of each. */
  datatype Sprites = Sprites(order: seq<string>, defs: map<string, SpriteDef>)

  predicate NoDup(s: seq<string>) {
    forall i, j :: 0 <= i < j < |s| ==> s[i] != s[j]
  }

  ghost predicate Ordered(t: Sprites) {
    NoDup(t.order) && (forall k :: k in t.defs <==> k in t.order)
  }

  /** `sprites[d.name] = d`: a new name goes last, a known one keeps its place. */
  function Put(t: Sprites, d: SpriteDef): (r: Sprites)
    ensures r.defs == t.defs[d.name := d]
    ensures d.name in t.defs ==> r.order == t.order
    ensures d.name !in t.defs ==> r.order == t.order + [d.name]
  {
    if d.name in t.defs then Sprites(t.order, t.defs[d.name := d])
    else Sprites(t.order + [d.name], t.defs[d.name := d])
  }

  lemma PutOrdered(t: Sprites, d: SpriteDef)
    requires Ordered(t)
    ensures Ordered(Put(t, d))
  {
  }

  /** What each line reads as: a definition, or None for a skipped line. */
  function ParsedLines(lines: seq<string>, category: string): (r: seq<Option<SpriteDef>>)
    ensures |r| == |lines|
  {
    if lines == [] then [] else ParsedLines(lines[..|lines| - 1], category) + [ParseLine(lines[|lines| - 1], category)]
  }

  /** Reading one more line appends what it reads as. */
  lemma ParsedLinesStep(lines: seq<string>, i: nat, category: string, before: seq<Option<SpriteDef>>, d: Option<SpriteDef>)
    requires i < |lines|
    requires before == ParsedLines(lines[..i], category) && d == ParseLine(lines[i], category)
    ensures before + [d] == ParsedLines(lines[..i + 1], category)
  {
    assert lines[..i + 1][..i] == lines[..i];
  }

  /** The dictionary after putting the definitions of `ds` in order; a skipped line changes nothing. */
  function Collect(t: Sprites, ds: seq<Option<SpriteDef>>): (r: Sprites)
    ensures t.defs.Keys <= r.defs.Keys
    ensures forall k :: 0 <= k < |ds| && ds[k].Some? ==> ds[k].value.name in r.defs
  {
    if ds == [] then t
    else if ds[|ds| - 1].None? then Collect(t, ds[..|ds| - 1])
    else Put(Collect(t, ds[..|ds| - 1]), ds[|ds| - 1].value)
  }

  /** How many entries of `ds` are definitions. */
  function Accepted(ds: seq<Option<SpriteDef>>): (r: nat)
    ensures r <= |ds|
  {
    if ds == [] then 0 else Accepted(ds[..|ds| - 1]) + if ds[|ds| - 1].Some? then 1 else 0
  }

  /** Taking in one more entry: a definition is put and counted, a skipped line changes nothing. */
  lemma CollectStep(t: Sprites, ds: seq<Option<SpriteDef>>, d: Option<SpriteDef>)
    ensures Collect(t, ds + [d]) == if d.None? then Collect(t, ds) else Put(Collect(t, ds), d.value)
    ensures Accepted(ds + [d]) == Accepted(ds) + if d.Some? then 1 else 0
  {
    assert (ds + [d])[..|ds|] == ds;
  }

  /** The dictionary after reading `lines`. */
  function ParseLines(t: Sprites, lines: seq<string>, category: string): (r: Sprites)
    ensures t.defs.Keys <= r.defs.Keys
  {
    Collect(t, ParsedLines(lines, category))
  }

  lemma {:induction false} CollectOrdered(t: Sprites, ds: seq<Option<SpriteDef>>)
    requires Ordered(t)
    ensures Ordered(Collect(t, ds))
  {
    if ds != [] {
      var init := ds[..|ds| - 1];
      CollectOrdered(t, init);
      if ds[|ds| - 1].Some? {
        PutOrdered(Collect(t, init), ds[|ds| - 1].value);
      }
    }
  }

  /** The count covers every definition taken in, so a repeated name is counted more than once but stored once. */
  lemma {:induction false} CountCoversNewNames(t: Sprites, ds: seq<Option<SpriteDef>>)
    ensures |Collect(t, ds).order| <= |t.order| + Accepted(ds)
    ensures Accepted(ds) <= |ds|
  {
    if ds != [] {
      CountCoversNewNames(t, ds[..|ds| - 1]);
    }
  }

  /** The definition stored under a name is the last one taken in with that name. */
  lemma {:induction false} LastDefinitionWins(t: Sprites, ds: seq<Option<SpriteDef>>, i: nat)
    requires i < |ds| && ds[i].Some?
    requires forall j :: i < j < |ds| && ds[j].Some? ==> ds[j].value.name != ds[i].value.name
    ensures ds[i].value.name in Collect(t, ds).defs && Collect(t, ds).defs[ds[i].value.name] == ds[i].value
  {
    var init := ds[..|ds| - 1];
    if i < |ds| - 1 {
      assert init[i] == ds[i];
      forall j | i < j < |init| && init[j].Some?
        ensures init[j].value.name != init[i].value.name
      {
        assert init[j] == ds[j];
      }
      LastDefinitionWins(t, init, i);
    }
  }

  // ---------------------------------------------------------------------
  // Records, pending sprites and URLs

  /** `is_uploaded`: a record exists and its status is success. */
  predicate IsUploaded(records: map<string, UploadRecord>, name: string) {
    name in records && records[name].status == Success
  }

  /** `get_url`: the URL of a successful record, else None. */
  function GetUrl(records: map<string, UploadRecord>, name: string): (r: Option<string>)
    ensures r.Some? <==> IsUploaded(records, name)
    ensures r.Some? ==> r.value == records[name].url
  {
    if name in records && records[name].status == Success then Some(records[name].url) else None
  }

  /** The sprites not yet uploaded, in dictionary order. */
  function Pending(order: seq<string>, defs: map<string, SpriteDef>, records: map<string, UploadRecord>)
    : (r: seq<SpriteDef>)
    requires forall i :: 0 <= i < |order| ==> order[i] in defs
    ensures |r| <= |order|
  {
    if order == [] then []
    else
      var n := order[|order| - 1];
      Pending(order[..|order| - 1], defs, records) + if IsUploaded(records, n) then [] else [defs[n]]
  }

  /** The position of a name in a sequence (its length when absent). */
  function Position(s: seq<string>, n: string): (r: nat)
    ensures r <= |s| && (r < |s| <==> n in s)
    ensures r < |s| ==> s[r] == n
  {
    if s == [] then 0
    else if s[|s| - 1] == n && s[..|s| - 1] == [] then 0
    else if n in s[..|s| - 1] then Position(s[..|s| - 1], n)
    else if s[|s| - 1] == n then |s| - 1
    else |s|
  }

  lemma {:induction false} PositionInPrefix(s: seq<string>, n: string)
    requires s != [] && n in s[..|s| - 1]
    ensures Position(s, n) == Position(s[..|s| - 1], n)
  {
  }

  /** Every pending sprite is the stored definition of a listed name that is not uploaded. */
  lemma {:induction false} PendingSound(order: seq<string>, defs: map<string, SpriteDef>, records: map<string, UploadRecord>)
    requires forall i :: 0 <= i < |order| ==> order[i] in defs
    requires forall k :: k in defs ==> defs[k].name == k
    ensures forall k :: 0 <= k < |Pending(order, defs, records)| ==>
      Pending(order, defs, records)[k].name in order
      && !IsUploaded(records, Pending(order, defs, records)[k].name)
      && Pending(order, defs, records)[k] == defs[Pending(order, defs, records)[k].name]
  {
    if order != [] {
      var init := order[..|order| - 1];
      PendingSound(init, defs, records);
      var q := Pending(init, defs, records);
      var p := Pending(order, defs, records);
      forall k | 0 <= k < |p|
        ensures p[k].name in order && !IsUploaded(records, p[k].name) && p[k] == defs[p[k].name]
      {
        if k < |q| {
          assert p[k] == q[k];
          assert q[k].name in init;
        }
      }
    }
  }

  /** Every listed name that is not uploaded has its sprite in the pending list. */
  lemma {:induction false} PendingComplete(order: seq<string>, defs: map<string, SpriteDef>, records: map<string, UploadRecord>)
    requires forall i :: 0 <= i < |order| ==> order[i] in defs
    ensures forall i :: 0 <= i < |order| && !IsUploaded(records, order[i]) ==> defs[order[i]] in Pending(order, defs, records)
  {
    if order != [] {
      var init := order[..|order| - 1];
      PendingComplete(init, defs, records);
      forall i | 0 <= i < |order| - 1
        ensures order[i] == init[i]
      {
      }
    }
  }

  /** Pending sprites keep the order in which their names were first defined. */
  lemma {:induction false} PendingInOrder(order: seq<string>, defs: map<string, SpriteDef>, records: map<string, UploadRecord>)
    requires NoDup(order) && forall i :: 0 <= i < |order| ==> order[i] in defs
    requires forall k :: k in defs ==> defs[k].name == k
    ensures forall i, j :: 0 <= i < j < |Pending(order, defs, records)| ==>
      Position(order, Pending(order, defs, records)[i].name) < Position(order, Pending(order, defs, records)[j].name)
  {
    if order != [] {
      var init := order[..|order| - 1];
      PendingInOrder(init, defs, records);
      PendingSound(init, defs, records);
      var q := Pending(init, defs, records);
      var p := Pending(order, defs, records);
      forall k | 0 <= k < |q|
        ensures Position(order, q[k].name) == Position(init, q[k].name) < |init|
      {
        PositionInPrefix(order, q[k].name);
      }
      forall i, j | 0 <= i < j < |p|
        ensures Position(order, p[i].name) < Position(order, p[j].name)
      {
        assert p[i] == q[i];
        if j < |q| {
          assert p[j] == q[j];
        } else {
          assert p[j].name == order[|order| - 1] && order[|order| - 1] !in init;
        }
      }
    }
  }

  // ---------------------------------------------------------------------
  // crop_sprite

  /** The crop box (left, top, right, bottom), or None when the sheet is missing or too small. */
  function CropBox(d: SpriteDef, sheet: Option<(int, int)>): (r: Option<(int, int, int, int)>)
    ensures r.Some? ==> sheet.Some? && r.value.2 <= sheet.value.0 && r.value.3 <= sheet.value.1
    ensures r.Some? ==> r.value == (d.x, d.y, d.x + d.width, d.y + d.height)
  {
    match sheet
    case None => None
    case Some((w, h)) =>
      if d.x + d.width > w || d.y + d.height > h then None
      else Some((d.x, d.y, d.x + d.width, d.y + d.height))
  }

  /** A crop is refused exactly when the sheet is missing or the rectangle passes its right or bottom edge. */
  lemma CropRefusedIff(d: SpriteDef, sheet: Option<(int, int)>)
    ensures CropBox(d, sheet).None? <==>
      sheet.None? || d.x + d.width > sheet.value.0 || d.y + d.height > sheet.value.1
  {
  }

  // ---------------------------------------------------------------------
  // filter_by_character

  /** The name belongs to the character: it ends in `_id` or contains `_id_`. */
  predicate OfCharacter(name: string, id: int) {
    EndsWith(name, "_" + IntToString(id)) || Contains(name, "_" + IntToString(id) + "_")
  }

  predicate OfAny(name: string, ids: seq<int>) {
    exists k :: 0 <= k < |ids| && OfCharacter(name, ids[k])
  }

  /** The names of any of the characters, in order. */
  function ByCharacter(names: seq<string>, ids: seq<int>): (r: seq<string>)
    ensures |r| <= |names|
  {
    if names == [] then []
    else ByCharacter(names[..|names| - 1], ids) + if OfAny(names[|names| - 1], ids) then [names[|names| - 1]] else []
  }

  /** A name is kept exactly when it belongs to one of the characters, and (names being distinct) at most once. */
  lemma {:induction false} ByCharacterExactly(names: seq<string>, ids: seq<int>)
    ensures forall n :: n in ByCharacter(names, ids) <==> n in names && OfAny(n, ids)
    ensures NoDup(names) ==> NoDup(ByCharacter(names, ids))
  {
    if names != [] {
      var init := names[..|names| - 1];
      ByCharacterExactly(init, ids);
      assert names == init + [names[|names| - 1]];
      if NoDup(names) {
        assert NoDup(init);
        assert names[|names| - 1] !in init;
      }
    }
  }

  /** The inner loop: the ids are tried in order and the first match stops it. */
  method MatchesAny(name: string, ids: seq<int>) returns (found: bool)
    ensures found <==> OfAny(name, ids)
  {
    found := false;
    var j := 0;
    while j < |ids|
      invariant 0 <= j <= |ids|
      invariant forall k :: 0 <= k < j ==> !OfCharacter(name, ids[k])
    {
      if OfCharacter(name, ids[j]) {
        return true;
      }
      j := j + 1;
    }
  }

  /** `filter_by_character`: for each name, the first matching id adds it and stops the inner loop. */
  method FilterByCharacter(names: seq<string>, ids: seq<int>) returns (result: seq<string>)
    ensures result == ByCharacter(names, ids)
  {
    result := [];
    var i := 0;
    while i < |names|
      invariant 0 <= i <= |names|
      invariant result == ByCharacter(names[..i], ids)
    {
      var name := names[i];
      assert names[..i + 1][..i] == names[..i];
      var found := MatchesAny(name, ids);
      if found {
        result := result + [name];
      }
      i := i + 1;
    }
    assert names[..|names|] == names;
  }

  // ---------------------------------------------------------------------
  // Limit and batches

  /** `pending[:limit]` when `limit` is truthy (a negative limit drops from the end, as slicing does). */
  function Limit(pending: seq<SpriteDef>, limit: Option<int>): (r: seq<SpriteDef>)
    ensures limit.None? || limit == Some(0) ==> r == pending
    ensures limit.Some? && limit.value > 0 ==> |r| == if limit.value < |pending| then limit.value else |pending|
    ensures |r| <= |pending| && r == pending[..|r|]
  {
    if limit.None? || limit.value == 0 then pending
    else if limit.value > 0 then pending[..if limit.value < |pending| then limit.value else |pending|]
    else pending[..if |pending| + limit.value > 0 then |pending| + limit.value else 0]
  }

  // ---------------------------------------------------------------------
  // Upload results

  /** The record written for one sprite: a crop failure, a send failure (its error text), or a success. */
  function RecordFor(d: SpriteDef, sheets: string -> Option<(int, int)>, send: string -> Result<string, string>,
                     now: string): (r: UploadRecord)
    ensures r.spriteName == d.name && r.originalFile == d.filename
    ensures r.status == Success <==> CropBox(d, sheets(d.filename)).Some? && send(d.name).Ok?
    ensures r.status == Success ==> r.url == send(d.name).value && r.cropRect == [d.x, d.y, d.width, d.height]
    ensures r.status != Success ==> r.status == Failed && r.url == ""
  {
    if CropBox(d, sheets(d.filename)).None? then
      UploadRecord(d.name, "", Failed, Some(CropFailedText), None, d.filename, [])
    else
      match send(d.name)
      case Ok(url) => UploadRecord(d.name, url, Success, None, Some(now), d.filename, [d.x, d.y, d.width, d.height])
      case Err(e) => UploadRecord(d.name, "", Failed, Some(e), None, d.filename, [])
  }

  /** The records after uploading the first `n` sprites of `ds`, in order. */
  function Uploaded(records: map<string, UploadRecord>, ds: seq<SpriteDef>, n: nat,
                    sheets: string -> Option<(int, int)>, send: string -> Result<string, string>, now: string)
    : (r: map<string, UploadRecord>)
    requires n <= |ds|
    ensures records.Keys <= r.Keys
  {
    if n == 0 then records
    else Uploaded(records, ds, n - 1, sheets, send, now)[ds[n - 1].name := RecordFor(ds[n - 1], sheets, send, now)]
  }

  /** Every attempted sprite is left with a record. */
  lemma {:induction false} UploadedRecordsEvery(records: map<string, UploadRecord>, ds: seq<SpriteDef>, n: nat,
                                                sheets: string -> Option<(int, int)>,
                                                send: string -> Result<string, string>, now: string)
    requires n <= |ds|
    ensures forall i :: 0 <= i < n ==> ds[i].name in Uploaded(records, ds, n, sheets, send, now)
  {
    if n > 0 {
      UploadedRecordsEvery(records, ds, n - 1, sheets, send, now);
    }
  }

  /** How many of the first `n` sprites of `ds` were cropped and sent. */
  function SuccessCount(ds: seq<SpriteDef>, n: nat, sheets: string -> Option<(int, int)>,
                        send: string -> Result<string, string>): (r: nat)
    requires n <= |ds|
    ensures r <= n
  {
    if n == 0 then 0
    else SuccessCount(ds, n - 1, sheets, send) + if CropBox(ds[n - 1], sheets(ds[n - 1].filename)).Some? && send(ds[n - 1].name).Ok? then 1 else 0
  }

  /** One more sprite: the records and the success count after it, from those before it. */
  lemma UploadedStep(records: map<string, UploadRecord>, ds: seq<SpriteDef>, n: nat,
                     sheets: string -> Option<(int, int)>, send: string -> Result<string, string>, now: string,
                     before: map<string, UploadRecord>, after: map<string, UploadRecord>, upBefore: nat, upAfter: nat)
    requires n < |ds|
    requires before == Uploaded(records, ds, n, sheets, send, now)
    requires after == before[ds[n].name := RecordFor(ds[n], sheets, send, now)]
    requires upBefore == SuccessCount(ds, n, sheets, send)
    requires upAfter == upBefore + if CropBox(ds[n], sheets(ds[n].filename)).Some? && send(ds[n].name).Ok? then 1 else 0
    ensures after == Uploaded(records, ds, n + 1, sheets, send, now)
    ensures upAfter == SuccessCount(ds, n + 1, sheets, send)
  {
  }

  predicate DistinctNames(ds: seq<SpriteDef>) {
    forall i, j :: 0 <= i < j < |ds| ==> ds[i].name != ds[j].name
  }

  lemma {:induction false} UploadedHas(records: map<string, UploadRecord>, ds: seq<SpriteDef>, n: nat,
                                        sheets: string -> Option<(int, int)>, send: string -> Result<string, string>,
                                        now: string, k: nat)
    requires k < n <= |ds| && DistinctNames(ds)
    ensures ds[k].name in Uploaded(records, ds, n, sheets, send, now)
    ensures Uploaded(records, ds, n, sheets, send, now)[ds[k].name] == RecordFor(ds[k], sheets, send, now)
  {
    if k < n - 1 {
      UploadedHas(records, ds, n - 1, sheets, send, now, k);
      assert ds[k].name != ds[n - 1].name;
    }
  }

  lemma {:induction false} UploadedKeeps(records: map<string, UploadRecord>, ds: seq<SpriteDef>, n: nat,
                                          sheets: string -> Option<(int, int)>, send: string -> Result<string, string>,
                                          now: string, m: string)
    requires n <= |ds| && m in records && forall k :: 0 <= k < n ==> ds[k].name != m
    ensures m in Uploaded(records, ds, n, sheets, send, now) && Uploaded(records, ds, n, sheets, send, now)[m] == records[m]
  {
    if n > 0 {
      UploadedKeeps(records, ds, n - 1, sheets, send, now, m);
      assert ds[n - 1].name != m;
    }
  }

  /** After a run every attempted sprite has its own record; every other record is untouched. */
  lemma UploadedRecords(records: map<string, UploadRecord>, ds: seq<SpriteDef>, n: nat,
                        sheets: string -> Option<(int, int)>, send: string -> Result<string, string>, now: string)
    requires n <= |ds| && DistinctNames(ds)
    ensures var after := Uploaded(records, ds, n, sheets, send, now);
      (forall k :: 0 <= k < n ==> ds[k].name in after && after[ds[k].name] == RecordFor(ds[k], sheets, send, now))
      && (forall m :: m in records && (forall k :: 0 <= k < n ==> ds[k].name != m) ==> m in after && after[m] == records[m])
  {
    forall k | 0 <= k < n
      ensures ds[k].name in Uploaded(records, ds, n, sheets, send, now)
      ensures Uploaded(records, ds, n, sheets, send, now)[ds[k].name] == RecordFor(ds[k], sheets, send, now)
    {
      UploadedHas(records, ds, n, sheets, send, now, k);
    }
    forall m | m in records && (forall k :: 0 <= k < n ==> ds[k].name != m)
      ensures m in Uploaded(records, ds, n, sheets, send, now)
      ensures Uploaded(records, ds, n, sheets, send, now)[m] == records[m]
    {
      UploadedKeeps(records, ds, n, sheets, send, now, m);
    }
  }

  // ---------------------------------------------------------------------
  // The manager

  class SpriteManager {
    var sprites: Sprites
    var records: map<string, UploadRecord>
    /** The records as last written to the record file. */
    var savedRecords: map<string, UploadRecord>

    ghost predicate Valid()
      reads this
    {
      Ordered(sprites) && forall k :: k in sprites.defs ==> sprites.defs[k].name == k
    }

    /** A manager with no definitions and the records read from the record file. */
    constructor (loaded: map<string, UploadRecord>)
      ensures Valid() && sprites == Sprites([], map[]) && records == loaded
    {
      sprites := Sprites([], map[]);
      records := loaded;
      savedRecords := loaded;
    }

    /** `parse_csv` over the lines of one definition file. */
    method ParseCsv(lines: seq<string>, category: string) returns (count: nat)
      requires Valid()
      modifies this
      ensures Valid()
      ensures sprites == ParseLines(old(sprites), lines, category) && count == Accepted(ParsedLines(lines, category))
      ensures records == old(records) && savedRecords == old(savedRecords)
    {
      count := 0;
      var i := 0;
      ghost var parsed: seq<Option<SpriteDef>> := [];
      while i < |lines|
        invariant 0 <= i <= |lines|
        invariant parsed == ParsedLines(lines[..i], category)
        invariant sprites == Collect(old(sprites), parsed) && count == Accepted(parsed)
        invariant Valid()
        invariant records == old(records) && savedRecords == old(savedRecords)
      {
        var d := ParseLine(lines[i], category);
        ParsedLinesStep(lines, i, category, parsed, d);
        CollectStep(old(sprites), parsed, d);
        if d.Some? {
          PutOrdered(sprites, d.value);
          sprites := Put(sprites, d.value);
          count := count + 1;
        }
        parsed := parsed + [d];
        i := i + 1;
      }
      assert lines[..|lines|] == lines;
    }

    /** `get_pending_sprites`. */
    method GetPendingSprites() returns (pending: seq<SpriteDef>)
      requires Valid()
      ensures pending == Pending(sprites.order, sprites.defs, records)
    {
      pending := [];
      var i := 0;
      while i < |sprites.order|
        invariant 0 <= i <= |sprites.order|
        invariant pending == Pending(sprites.order[..i], sprites.defs, records)
      {
        var name := sprites.order[i];
        assert sprites.order[..i + 1][..i] == sprites.order[..i];
        if !IsUploaded(records, name) {
          pending := pending + [sprites.defs[name]];
        }
        i := i + 1;
      }
      assert sprites.order[..|sprites.order|] == sprites.order;
    }

    /** One sprite of a batch: its record replaces any earlier one, and it is counted as uploaded or failed. */
    method UploadOne(d: SpriteDef, sheets: string -> Option<(int, int)>, send: string -> Result<string, string>,
                     now: string, uploaded0: nat, failed0: nat) returns (uploaded: nat, failed: nat)
      modifies this
      ensures records == old(records)[d.name := RecordFor(d, sheets, send, now)]
      ensures var ok := CropBox(d, sheets(d.filename)).Some? && send(d.name).Ok?;
        uploaded == uploaded0 + (if ok then 1 else 0) && failed == failed0 + (if ok then 0 else 1)
      ensures sprites == old(sprites) && savedRecords == old(savedRecords)
    {
      var rec := RecordFor(d, sheets, send, now);
      records := records[d.name := rec];
      if rec.status == Success {
        uploaded, failed := uploaded0 + 1, failed0;
      } else {
        uploaded, failed := uploaded0, failed0 + 1;
      }
    }

    /** One batch: the sprites `todo[i..end]`, in order. */
    method UploadBatch(todo: seq<SpriteDef>, i: nat, end: nat, ghost base: map<string, UploadRecord>,
                       sheets: string -> Option<(int, int)>, send: string -> Result<string, string>, now: string,
                       uploaded0: nat, failed0: nat)
      returns (uploaded: nat, failed: nat)
      requires i <= end <= |todo|
      requires records == Uploaded(base, todo, i, sheets, send, now)
      requires uploaded0 == SuccessCount(todo, i, sheets, send) && uploaded0 + failed0 == i
      modifies this
      ensures sprites == old(sprites) && savedRecords == old(savedRecords)
      ensures records == Uploaded(base, todo, end, sheets, send, now)
      ensures uploaded == SuccessCount(todo, end, sheets, send) && uploaded + failed == end
    {
      uploaded, failed := uploaded0, failed0;
      var j := i;
      while j < end
        invariant i <= j <= end
        invariant sprites == old(sprites) && savedRecords == old(savedRecords)
        invariant records == Uploaded(base, todo, j, sheets, send, now)
        invariant uploaded == SuccessCount(todo, j, sheets, send) && uploaded + failed == j
      {
        ghost var before, upBefore := records, uploaded;
        uploaded, failed := UploadOne(todo[j], sheets, send, now, uploaded, failed);
        UploadedStep(base, todo, j, sheets, send, now, before, records, upBefore, uploaded);
        j := j + 1;
      }
    }

    /** The batch loop over a non-empty list, saving after each batch. */
    method UploadAll(todo: seq<SpriteDef>, sheets: string -> Option<(int, int)>,
                     send: string -> Result<string, string>, now: string)
      returns (uploaded: nat, failed: nat)
      requires todo != []
      modifies this
      ensures sprites == old(sprites)
      ensures records == Uploaded(old(records), todo, |todo|, sheets, send, now) && savedRecords == records
      ensures uploaded == SuccessCount(todo, |todo|, sheets, send) && uploaded + failed == |todo|
    {
      uploaded, failed := 0, 0;
      ghost var base := records;
      ghost var b := 0;
      var i := 0;
      while i < |todo|
        invariant 0 <= i <= |todo|
        invariant sprites == old(sprites)
        invariant records == Uploaded(base, todo, i, sheets, send, now)
        invariant uploaded == SuccessCount(todo, i, sheets, send) && uploaded + failed == i
        invariant i > 0 ==> savedRecords == records
        invariant i == |todo| || i == b * BatchSize
        decreases |todo| - i
      {
        var end := Min(i + BatchSize, |todo|);
        NextBatch(todo, BatchSize, b, i);
        assert todo[i..end] == Batches(todo, BatchSize)[b];
        uploaded, failed := UploadBatch(todo, i, end, base, sheets, send, now, uploaded, failed);
        savedRecords := records;
        i := end;
        b := b + 1;
      }
    }

    /**
     * `upload_sprites`: the pending list cut to the limit, uploaded batch by
     * batch with the records saved after each batch. `channelFound` is
     * whether the upload channel exists, `sheets` the size of each sheet
     * image (None when missing), `send` the attachment URL or error of
     * each send.
     */
    method UploadSprites(limit: Option<int>, channelFound: bool, sheets: string -> Option<(int, int)>,
                         send: string -> Result<string, string>, now: string)
      returns (uploaded: nat, failed: nat)
      requires Valid()
      modifies this
      ensures Valid() && sprites == old(sprites)
      ensures var todo := Limit(Pending(old(sprites).order, old(sprites).defs, old(records)), limit);
        if todo == [] || !channelFound then
          records == old(records) && savedRecords == old(savedRecords) && uploaded == 0 && failed == 0
        else
          records == Uploaded(old(records), todo, |todo|, sheets, send, now) && savedRecords == records
          && uploaded == SuccessCount(todo, |todo|, sheets, send) && uploaded + failed == |todo|
    {
      var pending := GetPendingSprites();
      pending := Limit(pending, limit);
      if pending == [] || !channelFound {
        return 0, 0;
      }
      uploaded, failed := UploadAll(pending, sheets, send, now);
    }

    /** The "retry failed" choice: every failed record is deleted, then the records are saved. */
    method ResetFailed() returns (count: nat)
      modifies this
      ensures records == map n | n in old(records) && old(records)[n].status != Failed :: old(records)[n]
      ensures count == |set n | n in old(records) && old(records)[n].status == Failed|
      ensures sprites == old(sprites)
      ensures count > 0 ==> savedRecords == records
      ensures count == 0 ==> savedRecords == old(savedRecords)
    {
      var failedNames := set n | n in records && records[n].status == Failed;
      count := |failedNames|;
      var remaining := failedNames;
      while remaining != {}
        invariant remaining <= failedNames
        invariant records == map n | n in old(records) && (n !in failedNames || n in remaining) :: old(records)[n]
        invariant sprites == old(sprites) && savedRecords == old(savedRecords)
        decreases |remaining|
      {
        var n :| n in remaining;
        records := map k | k in records && k != n :: records[k];
        remaining := remaining - {n};
      }
      if count > 0 {
        savedRecords := records;
      }
    }
  }

  /** The reset keeps every successful upload and leaves no failed record behind. */
  lemma ResetKeepsSuccesses(records: map<string, UploadRecord>)
    ensures var after := map n | n in records && records[n].status != Failed :: records[n];
      (forall n :: IsUploaded(after, n) <==> IsUploaded(records, n))
      && (forall n :: n in after ==> after[n].status != Failed)
      && (forall n :: n in records && records[n].status == Failed ==> n !in after)
  {
  }
}
