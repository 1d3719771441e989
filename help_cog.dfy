/**
 * The `/help` command: the registered commands in the configured order
 * (commands not listed go last, in their registration order), one line per
 * slash command with its description translated when a translation exists,
 * and the text shown when there is no command at all.
 */
module HelpCog {
  import opened Text
  import Localization

  /** The order the help lists commands in. */
  const Order: seq<string> := ["help", "lang", "setuser", "unsetuser", "profile", "best", "recent", "pp", "copypasta", "mapper"]

  /** A registered application command: a slash command with its description, or a group (never listed). */
  datatype Cmd = Slash(name: string, description: string) | Group(name: string)

  /** `list.index`: the first position of `name`, or `|order|` when it is absent. */
  function IndexOf(order: seq<string>, name: string): (r: nat)
    ensures r <= |order|
    ensures r < |order| ==> order[r] == name
    ensures forall j :: 0 <= j < r ==> order[j] != name
  {
    if order == [] then 0
    else if order[0] == name then 0
    else 1 + IndexOf(order[1..], name)
  }

  /** `sort_key`: the command's position in the order, or one past the end. */
  function Key(order: seq<string>, c: Cmd): (r: nat)
    ensures r <= |order|
    ensures r < |order| <==> c.name in order
  {
    IndexOf(order, c.name)
  }

  // ---------------------------------------------------------------------
  // The stable sort by `sort_key`

  /** The commands whose key is `k`, in their original order. */
  function WithKey(order: seq<string>, cmds: seq<Cmd>, k: nat): (r: seq<Cmd>)
    ensures |r| <= |cmds|
    ensures forall i :: 0 <= i < |r| ==> Key(order, r[i]) == k
  {
    if cmds == [] then []
    else (if Key(order, cmds[0]) == k then [cmds[0]] else []) + WithKey(order, cmds[1..], k)
  }

  /** The commands whose key is at least `k`, in their original order. */
  function AtLeast(order: seq<string>, cmds: seq<Cmd>, k: nat): seq<Cmd> {
    if cmds == [] then []
    else (if k <= Key(order, cmds[0]) then [cmds[0]] else []) + AtLeast(order, cmds[1..], k)
  }

  /** The groups of keys `k`, `k + 1`, ..., `|order|`, one after the other. */
  function Buckets(order: seq<string>, cmds: seq<Cmd>, k: nat): (r: seq<Cmd>)
    ensures forall i :: 0 <= i < |r| ==> k <= Key(order, r[i])
    decreases |order| + 1 - k
  {
    if k > |order| then []
    else WithKey(order, cmds, k) + Buckets(order, cmds, k + 1)
  }

  /** `sorted(all_app_commands, key=sort_key)`. */
  function SortByKey(order: seq<string>, cmds: seq<Cmd>): (r: seq<Cmd>)
    ensures SortedByKey(order, r)
  {
    BucketsSorted(order, cmds, 0);
    Buckets(order, cmds, 0)
  }

  predicate SortedByKey(order: seq<string>, s: seq<Cmd>) {
    forall i, j :: 0 <= i < j < |s| ==> Key(order, s[i]) <= Key(order, s[j])
  }

  lemma {:induction false} BucketsSorted(order: seq<string>, cmds: seq<Cmd>, k: nat)
    ensures SortedByKey(order, Buckets(order, cmds, k))
    decreases |order| + 1 - k
  {
    if k <= |order| {
      BucketsSorted(order, cmds, k + 1);
      var a, b := WithKey(order, cmds, k), Buckets(order, cmds, k + 1);
      assert Buckets(order, cmds, k) == a + b;
      forall i, j | 0 <= i < j < |a + b|
        ensures Key(order, (a + b)[i]) <= Key(order, (a + b)[j])
      {
        if j < |a| {
          assert (a + b)[i] == a[i] && (a + b)[j] == a[j];
        } else if i < |a| {
          assert (a + b)[i] == a[i] && (a + b)[j] == b[j - |a|];
        } else {
          assert (a + b)[i] == b[i - |a|] && (a + b)[j] == b[j - |a|];
        }
      }
    }
  }

  lemma {:induction false} AtLeastSplits(order: seq<string>, cmds: seq<Cmd>, k: nat)
    ensures multiset(AtLeast(order, cmds, k)) == multiset(WithKey(order, cmds, k)) + multiset(AtLeast(order, cmds, k + 1))
  {
    if cmds != [] {
      AtLeastSplits(order, cmds[1..], k);
    }
  }

  lemma {:induction false} AtLeastBeyondAll(order: seq<string>, cmds: seq<Cmd>)
    ensures AtLeast(order, cmds, |order| + 1) == []
  {
    if cmds != [] {
      AtLeastBeyondAll(order, cmds[1..]);
    }
  }

  lemma {:induction false} AtLeastZero(order: seq<string>, cmds: seq<Cmd>)
    ensures AtLeast(order, cmds, 0) == cmds
  {
    if cmds != [] {
      AtLeastZero(order, cmds[1..]);
      assert cmds == [cmds[0]] + cmds[1..];
    }
  }

  lemma {:induction false} BucketsPermute(order: seq<string>, cmds: seq<Cmd>, k: nat)
    ensures multiset(Buckets(order, cmds, k)) == multiset(AtLeast(order, cmds, k))
    decreases |order| + 1 - k
  {
    if k <= |order| {
      BucketsPermute(order, cmds, k + 1);
      AtLeastSplits(order, cmds, k);
      var a, b := WithKey(order, cmds, k), Buckets(order, cmds, k + 1);
      assert Buckets(order, cmds, k) == a + b;
      assert multiset(a + b) == multiset(a) + multiset(b);
    } else {
      AtLeastMonotone(order, cmds, k);
    }
  }

  lemma {:induction false} AtLeastMonotone(order: seq<string>, cmds: seq<Cmd>, k: nat)
    requires k > |order|
    ensures AtLeast(order, cmds, k) == []
  {
    if cmds != [] {
      AtLeastMonotone(order, cmds[1..], k);
    }
  }

  /** The help lists every command exactly once, ordered by its key. */
  lemma SortByKeyIsSortedPermutation(order: seq<string>, cmds: seq<Cmd>)
    ensures SortedByKey(order, SortByKey(order, cmds))
    ensures multiset(SortByKey(order, cmds)) == multiset(cmds)
  {
    BucketsSorted(order, cmds, 0);
    BucketsPermute(order, cmds, 0);
    AtLeastZero(order, cmds);
  }

  lemma {:induction false} WithKeyAppend(order: seq<string>, a: seq<Cmd>, b: seq<Cmd>, k: nat)
    ensures WithKey(order, a + b, k) == WithKey(order, a, k) + WithKey(order, b, k)
  {
    if a != [] {
      WithKeyAppend(order, a[1..], b, k);
      assert (a + b)[1..] == a[1..] + b;
    } else {
      assert a + b == b;
    }
  }

  lemma {:induction false} WithKeyTwice(order: seq<string>, cmds: seq<Cmd>, j: nat, k: nat)
    ensures WithKey(order, WithKey(order, cmds, j), k) == if j == k then WithKey(order, cmds, k) else []
  {
    if cmds != [] {
      WithKeyTwice(order, cmds[1..], j, k);
      var head := if Key(order, cmds[0]) == j then [cmds[0]] else [];
      WithKeyAppend(order, head, WithKey(order, cmds[1..], j), k);
      if head != [] {
        assert WithKey(order, head, k) == (if Key(order, cmds[0]) == k then [cmds[0]] else []) + WithKey(order, [], k);
      }
    }
  }

  lemma BucketsHead(order: seq<string>, cmds: seq<Cmd>, j: nat, k: nat)
    requires j <= |order|
    ensures WithKey(order, Buckets(order, cmds, j), k)
      == WithKey(order, WithKey(order, cmds, j), k) + WithKey(order, Buckets(order, cmds, j + 1), k)
  {
    WithKeyAppend(order, WithKey(order, cmds, j), Buckets(order, cmds, j + 1), k);
  }

  /** The groups from `j` on hold no command of a key below `j`. */
  lemma {:induction false} BucketsOutside(order: seq<string>, cmds: seq<Cmd>, j: nat, k: nat)
    requires k < j || k > |order|
    ensures WithKey(order, Buckets(order, cmds, j), k) == []
    decreases |order| + 1 - j
  {
    if j <= |order| {
      BucketsHead(order, cmds, j, k);
      BucketsOutside(order, cmds, j + 1, k);
      WithKeyTwice(order, cmds, j, k);
    }
  }

  /** The groups from `j` on hold the commands of key `k`, for `j <= k`, in their original order. */
  lemma {:induction false} BucketsStable(order: seq<string>, cmds: seq<Cmd>, j: nat, k: nat)
    requires j <= k <= |order|
    ensures WithKey(order, Buckets(order, cmds, j), k) == WithKey(order, cmds, k)
    decreases |order| + 1 - j
  {
    BucketsHead(order, cmds, j, k);
    WithKeyTwice(order, cmds, j, k);
    var here, later := WithKey(order, WithKey(order, cmds, j), k), WithKey(order, Buckets(order, cmds, j + 1), k);
    if j == k {
      BucketsOutside(order, cmds, j + 1, k);
      assert here + later == here;
    } else {
      BucketsStable(order, cmds, j + 1, k);
      assert here + later == later;
    }
  }

  /** The sort is stable: commands with the same key keep their registration order. */
  lemma SortByKeyStable(order: seq<string>, cmds: seq<Cmd>, k: nat)
    ensures WithKey(order, SortByKey(order, cmds), k) == WithKey(order, cmds, k)
  {
    if k > |order| {
      BucketsOutside(order, cmds, 0, k);
      WithKeyNone(order, cmds, k);
    } else {
      BucketsStable(order, cmds, 0, k);
    }
  }

  lemma {:induction false} WithKeyNone(order: seq<string>, cmds: seq<Cmd>, k: nat)
    requires k > |order|
    ensures WithKey(order, cmds, k) == []
  {
    if cmds != [] {
      WithKeyNone(order, cmds[1..], k);
    }
  }

  // ---------------------------------------------------------------------
  // Descriptions

  /** The translation context of the user who asked: the loaded tables, the default language and the language in use. */
  datatype Ctx = Ctx(translations: map<string, map<string, string>>, defaultLanguage: string, lang: string)

  function NoFormat(s: string): Localization.Formatted {
    Localization.Done(s)
  }

  /** `lstr(user, key, fallback)` without formatting arguments. */
  function Lstr(ctx: Ctx, key: string, fallback: string): string {
    Localization.Localize(ctx.translations, ctx.defaultLanguage, ctx.lang, key, fallback, false, NoFormat)
  }

  const MissingMarker: string := "<translation_missing"

  function NoDescription(ctx: Ctx): string {
    Lstr(ctx, "help_no_description", "No description available.")
  }

  /** The key of a command's translated description. */
  function DescKey(name: string): string {
    "cmd_desc_" + Lower(name)
  }

  /**
   * The description shown for a command, given the description it falls
   * back to: the translation, unless the lookup gave the placeholder or
   * the key itself.
   */
  function Shown(ctx: Ctx, name: string, original: string): (r: string)
    ensures r == original || r == Lstr(ctx, DescKey(name), original)
  {
    var localized := Lstr(ctx, DescKey(name), original);
    if Contains(localized, MissingMarker) || localized == DescKey(name) then original else localized
  }

  /** As written: only an empty description is replaced; the "..." placeholder is kept. */
  function OriginalAsWritten(ctx: Ctx, description: string): (r: string)
    ensures description != "" ==> r == description
    ensures description == "" ==> r == NoDescription(ctx)
  {
    if description != "" then description else NoDescription(ctx)
  }

  /** Corrected: an empty or "..." description is replaced by the no-description text. */
  function OriginalFixed(ctx: Ctx, description: string): (r: string)
    ensures description != "" && description != "..." ==> r == description
    ensures description == "" || description == "..." ==> r == NoDescription(ctx)
  {
    if description != "" && description != "..." then description else NoDescription(ctx)
  }

  lemma {:induction false} PlaceholderIsMarked(key: string)
    ensures Contains(Localization.MissingPlaceholder(key), MissingMarker)
  {
    var p := Localization.MissingPlaceholder(key);
    assert p[..|MissingMarker|] == MissingMarker;
  }

  /** Without a translation in either language, the help shows the fallback description. */
  lemma UntranslatedShowsOriginal(ctx: Ctx, name: string, original: string)
    requires !(ctx.lang in ctx.translations && DescKey(name) in ctx.translations[ctx.lang])
    requires !(ctx.defaultLanguage in ctx.translations && DescKey(name) in ctx.translations[ctx.defaultLanguage])
    ensures Shown(ctx, name, original) == original
  {
    Localization.LookupOrder(ctx.translations, ctx.defaultLanguage, ctx.lang, DescKey(name), original, NoFormat);
    if original == "" {
      PlaceholderIsMarked(DescKey(name));
    }
  }

  /** A real translation in the user's language is shown in place of the description. */
  lemma TranslationShown(ctx: Ctx, name: string, original: string)
    requires ctx.lang in ctx.translations && DescKey(name) in ctx.translations[ctx.lang]
    requires var t := ctx.translations[ctx.lang][DescKey(name)]; !Contains(t, MissingMarker) && t != DescKey(name)
    ensures Shown(ctx, name, original) == ctx.translations[ctx.lang][DescKey(name)]
  {
    Localization.LookupOrder(ctx.translations, ctx.defaultLanguage, ctx.lang, DescKey(name), original, NoFormat);
  }

  /** As written, a command described as "..." with no translation is listed as "...". */
  lemma DotsListedAsWritten(ctx: Ctx, name: string)
    requires !(ctx.lang in ctx.translations && DescKey(name) in ctx.translations[ctx.lang])
    requires !(ctx.defaultLanguage in ctx.translations && DescKey(name) in ctx.translations[ctx.defaultLanguage])
    ensures Shown(ctx, name, OriginalAsWritten(ctx, "...")) == "..."
  {
    UntranslatedShowsOriginal(ctx, name, "...");
  }

  /** Corrected, the same command is listed with the no-description text. */
  lemma DotsReplacedFixed(ctx: Ctx, name: string)
    requires !(ctx.lang in ctx.translations && DescKey(name) in ctx.translations[ctx.lang])
    requires !(ctx.defaultLanguage in ctx.translations && DescKey(name) in ctx.translations[ctx.defaultLanguage])
    ensures Shown(ctx, name, OriginalFixed(ctx, "...")) == NoDescription(ctx)
  {
    UntranslatedShowsOriginal(ctx, name, NoDescription(ctx));
  }

  // ---------------------------------------------------------------------
  // The listing

  function Line(ctx: Ctx, name: string, description: string): (r: string)
    ensures StartsWith(r, "`/" + name + "`: ")
  {
    "`/" + name + "`: " + Shown(ctx, name, OriginalFixed(ctx, description))
  }

  /**
   * The listing uses the corrected description rule; it differs from the
   * code as written only for a command described as "...".
   */
  lemma LineDiffersOnlyOnDots(ctx: Ctx, name: string, description: string)
    ensures description != "..." ==>
      Line(ctx, name, description) == "`/" + name + "`: " + Shown(ctx, name, OriginalAsWritten(ctx, description))
    ensures description == "..." ==>
      Line(ctx, name, description) == "`/" + name + "`: " + Shown(ctx, name, NoDescription(ctx))
  {
  }

  /** The lines of a command list: one per slash command, in list order. */
  function Lines(ctx: Ctx, cmds: seq<Cmd>): (r: seq<string>)
    ensures |r| <= |cmds|
  {
    if cmds == [] then []
    else
      var last := cmds[|cmds| - 1];
      Lines(ctx, cmds[..|cmds| - 1]) + if last.Slash? then [Line(ctx, last.name, last.description)] else []
  }

  function SlashCount(cmds: seq<Cmd>): (r: nat)
    ensures r <= |cmds|
  {
    if cmds == [] then 0
    else SlashCount(cmds[..|cmds| - 1]) + if cmds[|cmds| - 1].Slash? then 1 else 0
  }

  lemma LineStarts(ctx: Ctx, name: string, description: string)
    ensures StartsWith(Line(ctx, name, description), "`/")
  {
    var l := Line(ctx, name, description);
    assert l[..2] == "`/";
  }

  /** One line per slash command, each naming a command. */
  lemma {:induction false} LinesPerSlash(ctx: Ctx, cmds: seq<Cmd>)
    ensures |Lines(ctx, cmds)| == SlashCount(cmds)
    ensures forall i :: 0 <= i < |Lines(ctx, cmds)| ==> StartsWith(Lines(ctx, cmds)[i], "`/")
  {
    if cmds != [] {
      var init := cmds[..|cmds| - 1];
      LinesPerSlash(ctx, init);
      var last := cmds[|cmds| - 1];
      if last.Slash? {
        LineStarts(ctx, last.name, last.description);
        assert Lines(ctx, cmds) == Lines(ctx, init) + [Line(ctx, last.name, last.description)];
      } else {
        assert Lines(ctx, cmds) == Lines(ctx, init) + [];
      }
    }
  }

  /** There are no lines exactly when no command is a slash command. */
  lemma {:induction false} NoLinesIff(ctx: Ctx, cmds: seq<Cmd>)
    ensures Lines(ctx, cmds) == [] <==> forall i :: 0 <= i < |cmds| ==> cmds[i].Group?
  {
    if cmds != [] {
      NoLinesIff(ctx, cmds[..|cmds| - 1]);
      var init := cmds[..|cmds| - 1];
      assert forall i :: 0 <= i < |init| ==> init[i] == cmds[i];
    }
  }

  /** The embed of `/help`: its title and description. */
  datatype Embed = Embed(title: string, description: string)

  /** The loop over the sorted commands: one line per slash command, with its shown description. */
  method ListLines(ctx: Ctx, sorted: seq<Cmd>) returns (lines: seq<string>)
    ensures lines == Lines(ctx, sorted)
  {
    lines := [];
    var i := 0;
    while i < |sorted|
      invariant 0 <= i <= |sorted|
      invariant lines == Lines(ctx, sorted[..i])
    {
      var cmd := sorted[i];
      assert sorted[..i + 1][..i] == sorted[..i];
      if cmd.Slash? {
        var original := OriginalFixed(ctx, cmd.description);
        var localized := Lstr(ctx, DescKey(cmd.name), original);
        if Contains(localized, MissingMarker) || localized == DescKey(cmd.name) {
          localized := original;
        }
        lines := lines + ["`/" + cmd.name + "`: " + localized];
      }
      i := i + 1;
    }
    assert sorted[..|sorted|] == sorted;
  }

  /** The help embed, built as the command builds it: sort, list the slash commands, join or report none. */
  method Help(ctx: Ctx, registered: seq<Cmd>) returns (e: Embed)
    ensures e.title == Lstr(ctx, "help_embed_title", "Available Slash Commands (Fallback)")
    ensures var lines := Lines(ctx, SortByKey(Order, registered));
      e.description == if lines != [] then Join(lines, "\n") else Lstr(ctx, "help_no_commands_found", "No slash commands found.")
  {
    var title := Lstr(ctx, "help_embed_title", "Available Slash Commands (Fallback)");
    var lines := ListLines(ctx, SortByKey(Order, registered));
    if lines != [] {
      e := Embed(title, Join(lines, "\n"));
    } else {
      e := Embed(title, Lstr(ctx, "help_no_commands_found", "No slash commands found."));
    }
  }
}
