/**
 * The `/copypasta` command: the collection file (language -> named texts),
 * the pool chosen for the user's language with its "EN" fallback, the
 * rejection of an empty pool or a blank pick, and the tracking of the sent
 * message against the user who asked for it.
 */
module CopypastaCog {
  import opened Wrappers
  import opened Text
  import Localization
  import MessageTracker

  /** The language key the pool falls back to. */
  const DefaultKey: string := "EN"

  /** A top-level value of the file: an object of texts (their values, in order), or anything else. */
  datatype JsonValue = Dict(texts: seq<string>) | NotDict

  /** The file: missing, not valid JSON, valid JSON that is not an object, or an object. */
  datatype PastaFile = NoFile | BadJson | NotObject | Object(entries: map<string, JsonValue>)

  /** `load_copypastas`: accepted only as an object of objects; anything else loads as empty. */
  function Validate(f: PastaFile): (r: map<string, seq<string>>)
    ensures r != map[] ==> f.Object? && forall k :: k in f.entries ==> f.entries[k].Dict?
    ensures f.Object? && (forall k :: k in f.entries ==> f.entries[k].Dict?) ==>
      r.Keys == f.entries.Keys && forall k :: k in r ==> r[k] == f.entries[k].texts
  {
    match f
    case Object(entries) =>
      if forall k :: k in entries ==> entries[k].Dict? then
        map k | k in entries :: entries[k].texts
      else map[]
    case _ => map[]
  }

  /** One non-object value anywhere rejects the whole file. */
  lemma OneBadValueRejectsAll(entries: map<string, JsonValue>, k: string)
    requires k in entries && entries[k].NotDict?
    ensures Validate(Object(entries)) == map[]
  {
  }

  /** `self.copypastas.get(lang)` is truthy: the language has at least one text. */
  predicate HasTexts(c: map<string, seq<string>>, lang: string) {
    lang in c && c[lang] != []
  }

  /** The pool: the preferred language's texts, else (for another language) the "EN" texts, else nothing. */
  function Pool(c: map<string, seq<string>>, preferred: string): (r: seq<string>)
    ensures HasTexts(c, preferred) ==> r == c[preferred]
    ensures !HasTexts(c, preferred) && preferred != DefaultKey && HasTexts(c, DefaultKey) ==> r == c[DefaultKey]
    ensures r == [] <==> !HasTexts(c, preferred) && !HasTexts(c, DefaultKey)
  {
    if HasTexts(c, preferred) then c[preferred]
    else if preferred != DefaultKey && HasTexts(c, DefaultKey) then c[DefaultKey]
    else []
  }

  /** Every text the pool offers comes from the preferred language or from "EN". */
  lemma PoolFromPreferredOrDefault(c: map<string, seq<string>>, preferred: string, i: nat)
    requires i < |Pool(c, preferred)|
    ensures (preferred in c && Pool(c, preferred)[i] in c[preferred]) || (DefaultKey in c && Pool(c, preferred)[i] in c[DefaultKey])
  {
  }

  /** What the command does. */
  datatype Outcome = NothingLoaded | NoneEvenInDefault | NoneForPreferred | BlankPick | Sent(text: string)

  /**
   * The reply for a loaded collection: an empty pool is reported (with the
   * message that depends on whether "EN" has texts), a blank pick is
   * refused, otherwise the pick is sent.
   */
  function Reply(c: map<string, seq<string>>, preferred: string, choice: nat): (r: Outcome)
    requires Pool(c, preferred) == [] || choice < |Pool(c, preferred)|
    ensures r.Sent? ==> r.text in Pool(c, preferred) && Strip(r.text) != ""
  {
    var pool := Pool(c, preferred);
    if c == map[] then NothingLoaded
    else if pool == [] then
      if !HasTexts(c, DefaultKey) then NoneEvenInDefault else NoneForPreferred
    else if Strip(pool[choice]) == "" then BlankPick
    else Sent(pool[choice])
  }

  /** An empty pool always means "EN" has no texts, so the other apology is never given. */
  lemma PreferredApologyUnreachable(c: map<string, seq<string>>, preferred: string, choice: nat)
    requires Pool(c, preferred) == [] || choice < |Pool(c, preferred)|
    ensures Reply(c, preferred, choice) != NoneForPreferred
  {
  }

  /** A text is sent exactly when the collection has one for the user's language or "EN" and the pick is not blank. */
  lemma SentIff(c: map<string, seq<string>>, preferred: string, choice: nat)
    requires Pool(c, preferred) == [] || choice < |Pool(c, preferred)|
    ensures Reply(c, preferred, choice).Sent? <==>
      (HasTexts(c, preferred) || HasTexts(c, DefaultKey)) && Strip(Pool(c, preferred)[choice]) != ""
  {
  }

  class CopypastaStore {
    var copypastas: map<string, seq<string>>

    constructor (file: PastaFile)
      ensures copypastas == Validate(file)
    {
      copypastas := Validate(file);
    }

    /**
     * The collection the command works on: the loaded one, or the file as it
     * is when the command runs (`current`), reloaded when nothing is loaded.
     */
    function Effective(current: PastaFile): (r: map<string, seq<string>>)
      reads this
      ensures copypastas != map[] ==> r == copypastas
      ensures copypastas == map[] ==> r == Validate(current)
    {
      if copypastas == map[] then Validate(current) else copypastas
    }

    /**
     * `send_copypasta`: reload the file as it is now (`current`) if the
     * collection is empty, so a file fixed since startup is picked up; choose
     * the pool for the user's language, pick (`choice` is the random index),
     * and track what was sent.
     */
    method Send(current: PastaFile, l10n: Localization.L10n, tracker: MessageTracker.Tracker, userId: int,
                choice: nat, sentId: int) returns (r: Outcome)
      requires tracker.Valid()
      requires var pool := Pool(Effective(current), l10n.UserLanguage(IntToString(userId))); pool == [] || choice < |pool|
      modifies this, tracker
      ensures tracker.Valid()
      ensures copypastas == if old(copypastas) == map[] then Validate(current) else old(copypastas)
      ensures r == Reply(copypastas, l10n.UserLanguage(IntToString(userId)), choice)
      ensures r.Sent? ==> tracker.Model() == MessageTracker.Track(old(tracker.Model()), tracker.maxSize, sentId, userId)
      ensures !r.Sent? ==> tracker.Model() == old(tracker.Model())
    {
      if copypastas == map[] {
        copypastas := Validate(current);
        if copypastas == map[] {
          return NothingLoaded;
        }
      }
      var preferred := l10n.UserLanguage(IntToString(userId));
      r := Reply(copypastas, preferred, choice);
      if r.Sent? {
        tracker.TrackMessage(sentId, userId);
      }
    }
  }
}
