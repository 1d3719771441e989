/**
 * The account bindings: Discord user id -> osu! username or id, kept in one
 * JSON file whose keys are the decimal Discord ids. Every operation reads
 * the whole file, changes the dictionary and writes it back.
 */
module UserDataManager {
  import opened Wrappers
  import opened Text

  /** What the bindings file holds: nothing, an empty file, text that is not JSON, or a JSON object. */
  datatype BindingsFile = Missing | EmptyFile | NotJson | Bindings(entries: map<string, string>)

  /** `load_user_bindings`: every unreadable state loads as an empty dictionary. */
  function Load(f: BindingsFile): (r: map<string, string>)
    ensures !f.Bindings? ==> r == map[]
    ensures f.Bindings? ==> r == f.entries
  {
    match f
    case Bindings(entries) => entries
    case _ => map[]
  }

  /** `str(discord_user_id)`. */
  function Key(discordId: int): string {
    IntToString(discordId)
  }

  /** Two users never share a key. */
  lemma KeysDistinct(a: int, b: int)
    requires a != b
    ensures Key(a) != Key(b)
  {
    ParseIntOfIntToString(a);
    ParseIntOfIntToString(b);
  }

  class BindingStore {
    var file: BindingsFile
    /** How many times the file has been written. */
    var writes: nat

    constructor (file: BindingsFile)
      ensures this.file == file && writes == 0
    {
      this.file := file;
      writes := 0;
    }

    /** The dictionary the next operation will read. */
    function Contents(): map<string, string>
      reads this
    {
      Load(file)
    }

    /** `set_user_binding`: stores the value under the user's key, writes the file, returns True. */
    method SetBinding(discordId: int, value: string) returns (ok: bool)
      modifies this
      ensures ok
      ensures file == Bindings(old(Contents())[Key(discordId) := value])
      ensures writes == old(writes) + 1
    {
      var bindings := Load(file);
      bindings := bindings[Key(discordId) := value];
      file := Bindings(bindings);
      writes := writes + 1;
      return true;
    }

    /** `get_user_binding`: the stored value, or None. */
    method GetBinding(discordId: int) returns (r: Option<string>)
      ensures r == BindingOf(Contents(), discordId)
    {
      var bindings := Load(file);
      if Key(discordId) in bindings {
        return Some(bindings[Key(discordId)]);
      }
      return None;
    }

    /** `remove_user_binding`: True iff the key was present; only then is the file written. */
    method RemoveBinding(discordId: int) returns (removed: bool)
      modifies this
      ensures removed <==> Key(discordId) in old(Contents())
      ensures removed ==> file == Bindings(old(Contents()) - {Key(discordId)}) && writes == old(writes) + 1
      ensures !removed ==> file == old(file) && writes == old(writes)
    {
      var bindings := Load(file);
      if Key(discordId) in bindings {
        bindings := bindings - {Key(discordId)};
        file := Bindings(bindings);
        writes := writes + 1;
        return true;
      }
      return false;
    }
  }

  /** The binding of a user in a dictionary, or None. */
  function BindingOf(bindings: map<string, string>, discordId: int): (r: Option<string>)
    ensures r.Some? <==> Key(discordId) in bindings
    ensures r.Some? ==> r.value == bindings[Key(discordId)]
  {
    if Key(discordId) in bindings then Some(bindings[Key(discordId)]) else None
  }

  /** After a set, that user reads the value back and every other user reads what they read before. */
  lemma SetThenGet(f: BindingsFile, d: int, value: string, other: int)
    ensures BindingOf(Load(Bindings(Load(f)[Key(d) := value])), d) == Some(value)
    ensures other != d ==>
      BindingOf(Load(Bindings(Load(f)[Key(d) := value])), other) == BindingOf(Load(f), other)
  {
    if other != d {
      KeysDistinct(d, other);
    }
  }

  /** After a removal, that user is unbound and every other user reads what they read before. */
  lemma RemoveThenGet(f: BindingsFile, d: int, other: int)
    ensures BindingOf(Load(Bindings(Load(f) - {Key(d)})), d) == None
    ensures other != d ==>
      BindingOf(Load(Bindings(Load(f) - {Key(d)})), other) == BindingOf(Load(f), other)
  {
    if other != d {
      KeysDistinct(d, other);
    }
  }

  /** A file that cannot be read binds nobody. */
  lemma UnreadableBindsNobody(f: BindingsFile, d: int)
    requires !f.Bindings?
    ensures BindingOf(Load(f), d) == None
  {
  }
}
