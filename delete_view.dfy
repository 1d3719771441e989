/**
 * The reusable "delete" button attached to command replies: who may press
 * it (the user who triggered the command, the server owner, or a member
 * with the administrator permission), what the press answers, and the
 * timeout that disables the view's buttons.
 */
module DeleteView {
  import opened Wrappers

  /** The server the reply was sent in, by its owner. */
  datatype Guild = Guild(ownerId: int)

  /** Who pressed: their id, and their administrator permission when they are a server member. */
  datatype Presser = Presser(id: int, member: Option<bool>)

  /** How `message.delete()` ends: done, already gone, not allowed for the bot, or another error. */
  datatype DeleteResult = Removed | NotFound | Forbidden | OtherError

  /** The answer to a press. */
  datatype Outcome = Denied | Deleted | AlreadyGone | BotForbidden | Failed

  /** `is_admin`: nobody outside a server; the owner; otherwise the administrator permission. */
  function IsAdmin(guild: Option<Guild>, memberId: int, administrator: bool): (r: bool)
    ensures guild.None? ==> !r
    ensures guild.Some? && guild.value.ownerId == memberId ==> r
    ensures guild.Some? && guild.value.ownerId != memberId ==> r == administrator
  {
    match guild
    case None => false
    case Some(g) => if g.ownerId == memberId then true else administrator
  }

  /** The permission check of the button: the trigger user, or an admin if the presser is a member. */
  function MayDelete(trigger: int, guild: Option<Guild>, p: Presser): (r: bool)
    ensures p.id == trigger ==> r
    ensures p.member.None? ==> (r <==> p.id == trigger)
  {
    p.id == trigger || (p.member.Some? && IsAdmin(guild, p.id, p.member.value))
  }

  /** `delete_button`: refuse without permission, otherwise delete and report how it went. */
  function Press(trigger: int, guild: Option<Guild>, p: Presser, attempt: DeleteResult): (r: Outcome)
    ensures r.Denied? <==> !MayDelete(trigger, guild, p)
  {
    if !MayDelete(trigger, guild, p) then Denied
    else
      match attempt
      case Removed => Deleted
      case NotFound => AlreadyGone
      case Forbidden => BotForbidden
      case OtherError => Failed
  }

  /** The message is deleted exactly when a permitted user presses and the deletion succeeds. */
  lemma DeletedIff(trigger: int, guild: Option<Guild>, p: Presser, attempt: DeleteResult)
    ensures Press(trigger, guild, p, attempt) == Deleted <==> MayDelete(trigger, guild, p) && attempt == Removed
  {
  }

  /** Someone who is not a server member can only delete their own command's reply, even if they own the server. */
  lemma NonMemberNeverAdmin(trigger: int, g: Guild, id: int, attempt: DeleteResult)
    requires id != trigger
    ensures Press(trigger, Some(g), Presser(id, None), attempt) == Denied
  {
  }

  /** In a direct message there are no admins: only the trigger user may delete. */
  lemma NoGuildOnlyTrigger(trigger: int, p: Presser, attempt: DeleteResult)
    ensures Press(trigger, None, p, attempt).Denied? <==> p.id != trigger
  {
  }

  /** A component of the view: whether it is a button, and whether it is disabled. */
  datatype Item = Item(isButton: bool, caption: string, disabled: bool)

  function Disable(item: Item): (r: Item)
    ensures r.isButton == item.isButton && r.caption == item.caption
    ensures r.disabled == (item.isButton || item.disabled)
  {
    if item.isButton then item.(disabled := true) else item
  }

  /** The components after the timeout, position by position. */
  function DisableButtons(items: seq<Item>): (r: seq<Item>)
    ensures |r| == |items|
  {
    if items == [] then []
    else DisableButtons(items[..|items| - 1]) + [Disable(items[|items| - 1])]
  }

  lemma {:induction false} DisableButtonsAt(items: seq<Item>, i: int)
    requires 0 <= i < |items|
    ensures DisableButtons(items)[i] == Disable(items[i])
  {
    if i < |items| - 1 {
      DisableButtonsAt(items[..|items| - 1], i);
    }
  }

  /** After the timeout every button is disabled, and other components and captions are as they were. */
  lemma TimeoutDisablesEveryButton(items: seq<Item>)
    ensures forall i :: 0 <= i < |items| ==>
      (items[i].isButton ==> DisableButtons(items)[i].disabled)
      && (!items[i].isButton ==> DisableButtons(items)[i] == items[i])
      && DisableButtons(items)[i].caption == items[i].caption
  {
    forall i | 0 <= i < |items| {
      DisableButtonsAt(items, i);
    }
  }

  /** A second timeout changes nothing. */
  lemma DisableButtonsIdempotent(items: seq<Item>)
    ensures DisableButtons(DisableButtons(items)) == DisableButtons(items)
  {
    var once := DisableButtons(items);
    forall i | 0 <= i < |items|
      ensures DisableButtons(once)[i] == once[i]
    {
      DisableButtonsAt(items, i);
      DisableButtonsAt(once, i);
    }
  }

  /** `DeleteMessageView`: the trigger user, the server, and the view's components. */
  class DeleteMessageView {
    const triggerUserId: int
    const guild: Option<Guild>
    const children: array<Item>

    constructor (triggerUserId: int, guild: Option<Guild>, children: array<Item>)
      ensures this.triggerUserId == triggerUserId && this.guild == guild && this.children == children
    {
      this.triggerUserId := triggerUserId;
      this.guild := guild;
      this.children := children;
    }

    /** `on_timeout`: every button is disabled in place. */
    method OnTimeout()
      modifies children
      ensures children[..] == DisableButtons(old(children[..]))
    {
      ghost var before := children[..];
      var i := 0;
      while i < children.Length
        invariant 0 <= i <= children.Length
        invariant forall j :: 0 <= j < i ==> children[j] == Disable(before[j])
        invariant forall j :: i <= j < children.Length ==> children[j] == before[j]
      {
        if children[i].isButton {
          children[i] := children[i].(disabled := true);
        }
        i := i + 1;
      }
      forall j | 0 <= j < children.Length
        ensures children[..][j] == DisableButtons(before)[j]
      {
        DisableButtonsAt(before, j);
      }
    }
  }
}
