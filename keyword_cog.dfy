/**
 * The per-server keyword replies: the keyword file with its "_" metadata,
 * the per-server tables (keyword -> response, in insertion order), adding
 * a keyword through the modal, the exact-match reply, the list view, and
 * who may delete a bot message.
 */
module KeywordCog {
  import opened Wrappers
  import opened Text

  // ---------------------------------------------------------------------
  // Keyword tables

  /** No keyword occurs twice (a JSON object, or a dict). */
  predicate DistinctKeys(s: seq<(string, string)>) {
    forall i, j :: 0 <= i < j < |s| ==> s[i].0 != s[j].0
  }

  /** One server's keywords as (keyword, response) pairs in insertion order. */
  type Table = s: seq<(string, string)> | DistinctKeys(s) witness []

  /** `table.get(keyword)`. */
  function Find(t: seq<(string, string)>, keyword: string): (r: Option<string>)
    ensures r.None? <==> forall i :: 0 <= i < |t| ==> t[i].0 != keyword
    ensures r.Some? ==> exists i :: 0 <= i < |t| && t[i] == (keyword, r.value)
  {
    if t == [] then None
    else if t[0].0 == keyword then Some(t[0].1)
    else Find(t[1..], keyword)
  }

  /** Appending a new keyword keeps the keys distinct, and every other keyword answers as before. */
  lemma AppendNew(t: Table, keyword: string, response: string, other: string)
    requires Find(t, keyword).None?
    ensures DistinctKeys(t + [(keyword, response)])
    ensures Find(t + [(keyword, response)], keyword) == Some(response)
    ensures other != keyword ==> Find(t + [(keyword, response)], other) == Find(t, other)
  {
    var u := t + [(keyword, response)];
    FindAppend(t, (keyword, response), keyword);
    FindAppend(t, (keyword, response), other);
  }

  lemma {:induction false} FindAppend(t: seq<(string, string)>, e: (string, string), k: string)
    ensures Find(t + [e], k) == if Find(t, k).Some? then Find(t, k) else if e.0 == k then Some(e.1) else None
  {
    if t != [] {
      assert (t + [e])[1..] == t[1..] + [e];
      FindAppend(t[1..], e, k);
    }
  }

  // ---------------------------------------------------------------------
  // The keyword file

  /** A top-level entry of the file: a metadata value or one server's table. */
  datatype Stored = Meta | Guild(table: Table)

  /** The file: missing, unreadable, or its top-level object. */
  datatype KeywordFile = Missing | Broken | Data(entries: map<string, Stored>)

  predicate Hidden(key: string) {
    StartsWith(key, "_")
  }

  /** `load_keywords` on an existing, readable file: every server entry whose key does not start with "_". */
  function LoadEntries(entries: map<string, Stored>): (r: map<string, Table>)
    ensures forall k :: k in r <==> k in entries && !Hidden(k) && entries[k].Guild?
    ensures forall k :: k in r ==> r[k] == entries[k].table
  {
    map k | k in entries && !Hidden(k) && entries[k].Guild? :: entries[k].table
  }

  /** `save_keywords`: the two metadata keys, then every server (a server key would overwrite a metadata key). */
  function SaveEntries(keywords: map<string, Table>): (r: map<string, Stored>)
    ensures "_comment" in r && "_format" in r
    ensures forall k :: k in keywords ==> k in r && r[k] == Guild(keywords[k])
    ensures forall k :: k in r ==> k in keywords || k == "_comment" || k == "_format"
  {
    map k | k in keywords.Keys + {"_comment", "_format"} :: if k in keywords then Guild(keywords[k]) else Meta
  }

  /** Saving adds only hidden keys, so loading what was saved gives the servers back. */
  lemma LoadAfterSave(keywords: map<string, Table>)
    requires forall k :: k in keywords ==> !Hidden(k)
    ensures LoadEntries(SaveEntries(keywords)) == keywords
  {
    assert Hidden("_comment") && Hidden("_format");
  }

  /** A server key is a decimal id, which never starts with "_". */
  lemma IdKeyVisible(guildId: int)
    ensures !Hidden(IntToString(guildId))
  {
    var s := IntToString(guildId);
    if guildId >= 0 {
      assert IsDigit(s[0]);
    }
  }

  datatype AddOutcome = NoGuild | Duplicate(keyword: string, existing: string) | Added(keyword: string, response: string)

  /** What the list shows for one response: up to 100 characters, else the first 97 and "...". */
  function Shorten(response: string): (r: string)
    ensures |r| <= 100
    ensures |response| <= 100 ==> r == response
    ensures |response| > 100 ==> |r| == 100 && r[..97] == response[..97] && r[97..] == "..."
  {
    if |response| <= 100 then response else response[..97] + "..."
  }

  /** The list view: at most the first 25 keywords with shortened responses, and a footer when there are more. */
  datatype ListView = NotInGuild | NoKeywords | Listed(fields: seq<(string, string)>, total: nat, footer: bool)

  function ListFields(t: seq<(string, string)>): (r: seq<(string, string)>)
    ensures |r| == if |t| <= 25 then |t| else 25
    ensures forall i :: 0 <= i < |r| ==> r[i] == (t[i].0, Shorten(t[i].1))
  {
    var shown := if |t| <= 25 then t else t[..25];
    seq(|shown|, i requires 0 <= i < |shown| => (shown[i].0, Shorten(shown[i].1)))
  }

  /** The tables after `get_guild_keywords`: an unknown server gains an empty table, a known one is left alone. */
  function GuildEnsured(keywords: map<string, Table>, key: string): (r: map<string, Table>)
    ensures key in r && r.Keys == keywords.Keys + {key}
    ensures key in keywords ==> r == keywords
    ensures key !in keywords ==> r[key] == []
    ensures forall k :: k in keywords ==> r[k] == keywords[k]
  {
    if key in keywords then keywords else keywords[key := []]
  }

  /**
   * `KeywordCog`: the in-memory tables and the file. Every server key is a
   * visible (non-"_") key, whether it came from the file or from a server id.
   */
  class KeywordStore {
    var keywords: map<string, Table>
    var file: KeywordFile

    ghost predicate Valid()
      reads this
    {
      forall k :: k in keywords ==> !Hidden(k)
    }

    /** `save_keywords`. */
    method Save()
      modifies this
      ensures keywords == old(keywords) && file == Data(SaveEntries(keywords))
    {
      file := Data(SaveEntries(keywords));
    }

    /** `__init__` and `load_keywords`: a missing file starts empty and is created; a broken one starts empty. */
    constructor (file: KeywordFile)
      ensures Valid()
      ensures file.Data? ==> keywords == LoadEntries(file.entries) && this.file == file
      ensures file.Missing? ==> keywords == map[] && this.file == Data(SaveEntries(map[]))
      ensures file.Broken? ==> keywords == map[] && this.file == file
    {
      this.file := file;
      match file
      case Data(entries) =>
        keywords := LoadEntries(entries);
      case Missing =>
        keywords := map[];
        this.file := Data(SaveEntries(map[]));
      case Broken =>
        keywords := map[];
    }

    /** `get_guild_keywords`: an unknown server gets an empty table, which is then returned. */
    method GuildKeywords(guildId: int) returns (t: Table)
      requires Valid()
      modifies this
      ensures Valid() && file == old(file)
      ensures IntToString(guildId) in old(keywords) ==> keywords == old(keywords) && t == keywords[IntToString(guildId)]
      ensures IntToString(guildId) !in old(keywords) ==> keywords == old(keywords)[IntToString(guildId) := []] && t == []
    {
      var key := IntToString(guildId);
      IdKeyVisible(guildId);
      if key !in keywords {
        keywords := keywords[key := []];
      }
      t := keywords[key];
    }

    /** `KeywordAddModal.on_submit`: both inputs stripped; an existing keyword is refused with nothing changed. */
    method Add(guild: Option<int>, keywordInput: string, responseInput: string) returns (r: AddOutcome)
      requires Valid()
      modifies this
      ensures Valid()
      ensures guild.None? ==> r == NoGuild && keywords == old(keywords) && file == old(file)
      ensures guild.Some? ==>
        var key := IntToString(guild.value);
        var before := if key in old(keywords) then old(keywords)[key] else [];
        match Find(before, Strip(keywordInput))
        case Some(existing) =>
          r == Duplicate(Strip(keywordInput), existing) && file == old(file)
          && keywords == old(keywords)[key := before]
        case None =>
          r == Added(Strip(keywordInput), Strip(responseInput))
          && key in keywords && keywords == old(keywords)[key := keywords[key]]
          && keywords[key] == before + [(Strip(keywordInput), Strip(responseInput))]
          && file == Data(SaveEntries(keywords))
    {
      var keyword := Strip(keywordInput);
      var response := Strip(responseInput);
      if guild.None? {
        return NoGuild;
      }
      var t := GuildKeywords(guild.value);
      match Find(t, keyword)
      case Some(existing) =>
        return Duplicate(keyword, existing);
      case None =>
        AppendNew(t, keyword, response, keyword);
        var key := IntToString(guild.value);
        var grown := t + [(keyword, response)];
        assert keywords[key := grown] == old(keywords)[key := grown];
        keywords := keywords[key := grown];
        Save();
        return Added(keyword, response);
    }

    /** `on_message`: bots and direct messages are ignored; otherwise the stripped content must equal a keyword. */
    method OnMessage(authorIsBot: bool, guild: Option<int>, content: string) returns (reply: Option<string>)
      requires Valid()
      modifies this
      ensures Valid() && file == old(file)
      ensures authorIsBot || guild.None? ==> reply.None? && keywords == old(keywords)
      ensures !authorIsBot && guild.Some? ==>
        reply == Find(if IntToString(guild.value) in old(keywords) then old(keywords)[IntToString(guild.value)] else [],
                      Strip(content))
      ensures !authorIsBot && guild.Some? ==> keywords == GuildEnsured(old(keywords), IntToString(guild.value))
    {
      if authorIsBot || guild.None? {
        return None;
      }
      var t := GuildKeywords(guild.value);
      reply := Find(t, Strip(content));
    }

    /** `/keyword list`. */
    method List(guild: Option<int>) returns (v: ListView)
      requires Valid()
      modifies this
      ensures Valid() && file == old(file)
      ensures guild.None? ==> v == NotInGuild
      ensures guild.Some? ==>
        var t := if IntToString(guild.value) in old(keywords) then old(keywords)[IntToString(guild.value)] else [];
        v == (if t == [] then NoKeywords else Listed(ListFields(t), |t|, |t| > 25))
      ensures guild.None? ==> keywords == old(keywords)
      ensures guild.Some? ==> keywords == GuildEnsured(old(keywords), IntToString(guild.value))
    {
      if guild.None? {
        return NotInGuild;
      }
      var t := GuildKeywords(guild.value);
      if t == [] {
        return NoKeywords;
      }
      return Listed(ListFields(t), |t|, |t| > 25);
    }
  }

  /** A message triggers a reply exactly when its stripped text is one of the server's keywords, and then that keyword's response. */
  lemma ReplyIffKeyword(t: Table, content: string)
    ensures Find(t, Strip(content)).Some? <==> exists i :: 0 <= i < |t| && t[i].0 == Strip(content)
    ensures Find(t, Strip(content)).Some? ==> exists i :: 0 <= i < |t| && t[i] == (Strip(content), Find(t, Strip(content)).value)
  {
  }

  /** Padding around a keyword still triggers it; any other change of the text does not. */
  lemma PaddedKeywordTriggers(t: Table, keyword: string, content: string)
    requires Strip(content) == keyword
    ensures Find(t, Strip(content)) == Find(t, keyword)
  {
  }

  // ---------------------------------------------------------------------
  // Permissions

  /** Who is asking: whether the interaction is in a server, whether the user is a member, the owner id, the user id, the administrator permission. */
  datatype Asker = Asker(inGuild: bool, isMember: bool, ownerId: int, userId: int, administrator: bool)

  /** `is_admin`: in a server, a member, and the owner or an administrator. */
  function IsAdmin(a: Asker): (r: bool)
    ensures r <==> a.inGuild && a.isMember && (a.ownerId == a.userId || a.administrator)
  {
    if !a.inGuild then false
    else if !a.isMember then false
    else if a.ownerId == a.userId then true
    else a.administrator
  }

  /** The outcome of the delete context menu. */
  datatype DeleteOutcome = NotBotMessage | UnknownTrigger | Forbidden | Confirm

  /**
   * `delete_bot_message`: only bot messages; the trigger user is the
   * replied-to author, else the tracked user; deletion is offered to that
   * user or an admin.
   */
  function DeleteDecision(isBotMessage: bool, repliedAuthor: Option<int>, tracked: Option<int>, a: Asker): (r: DeleteOutcome)
    ensures r == Confirm <==>
      isBotMessage && (repliedAuthor.Some? || tracked.Some?)
      && (a.userId == (if repliedAuthor.Some? then repliedAuthor.value else tracked.value) || IsAdmin(a))
  {
    if !isBotMessage then NotBotMessage
    else
      var trigger := if repliedAuthor.Some? then repliedAuthor else tracked;
      match trigger
      case None => UnknownTrigger
      case Some(id) => if a.userId != id && !IsAdmin(a) then Forbidden else Confirm
  }

  /** An admin may delete any bot message whose trigger is known; a stranger none. */
  lemma AdminsMayDelete(repliedAuthor: Option<int>, tracked: Option<int>, a: Asker)
    requires repliedAuthor.Some? || tracked.Some?
    ensures IsAdmin(a) ==> DeleteDecision(true, repliedAuthor, tracked, a) == Confirm
    ensures !IsAdmin(a) && repliedAuthor.Some? && a.userId != repliedAuthor.value ==>
      DeleteDecision(true, repliedAuthor, tracked, a) == Forbidden
  {
  }
}
