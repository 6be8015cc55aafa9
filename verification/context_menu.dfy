/**
 * The right-click menu: keeping it on screen, which submenu is open, and
 * what a click on an entry does. Actions are opaque names; a click yields
 * the effects it causes, in order.
 */
module ContextMenu {
  import opened Options

  /** The screen strip the taskbar covers at the bottom, and the margin kept from the edges. */
  const TaskbarStrip: real := 48.0
  const EdgeMargin: real := 8.0

  datatype Action = Action(name: string)

  datatype SubItem = SubItem(id: string, title: string, action: Option<Action>)

  datatype MenuItem = MenuItem(
    id: string,
    title: string,
    separator: bool,
    disabled: bool,
    action: Option<Action>,
    submenu: Option<seq<SubItem>>)

  /** What a click causes: run an action, or close the menu. */
  datatype Effect = Run(action: Action) | CloseMenu

  datatype Position = Position(x: real, y: real)

  /**
   * The position adjustment: a menu that would run off the right edge is
   * moved to end 8 px short of it; one that would reach into the taskbar
   * strip is lifted to end 8 px above the strip.
   */
  function AdjustPosition(x: real, y: real, menuWidth: real, menuHeight: real, screenWidth: real, screenHeight: real): (p: Position)
    ensures x + menuWidth <= screenWidth ==> p.x == x
    ensures x + menuWidth > screenWidth ==> p.x == screenWidth - menuWidth - EdgeMargin && p.x < x
    ensures y + menuHeight <= screenHeight - TaskbarStrip ==> p.y == y
    ensures y + menuHeight > screenHeight - TaskbarStrip ==> p.y == screenHeight - menuHeight - TaskbarStrip - EdgeMargin && p.y < y
    ensures p.x + menuWidth <= screenWidth && p.y + menuHeight <= screenHeight - TaskbarStrip
  {
    Position(
      if x + menuWidth > screenWidth then screenWidth - menuWidth - 8.0 else x,
      if y + menuHeight > screenHeight - 48.0 then screenHeight - menuHeight - 56.0 else y)
  }

  /** Adjusting an adjusted position changes nothing more. */
  lemma AdjustIsIdempotent(x: real, y: real, menuWidth: real, menuHeight: real, screenWidth: real, screenHeight: real)
    ensures var p := AdjustPosition(x, y, menuWidth, menuHeight, screenWidth, screenHeight);
      AdjustPosition(p.x, p.y, menuWidth, menuHeight, screenWidth, screenHeight) == p
  {
  }

  /** Entering an entry opens its submenu if it has one; otherwise the open submenu stays. */
  function Enter(item: MenuItem, open: Option<string>): (r: Option<string>)
    ensures item.submenu.Some? ==> r == Some(item.id)
    ensures item.submenu.None? ==> r == open
  {
    if item.submenu.Some? then Some(item.id) else open
  }

  /** Leaving any entry closes the open submenu. */
  function Leave(open: Option<string>): (r: Option<string>)
    ensures r.None?
  {
    None
  }

  /** A submenu is shown exactly for an entry that has one and is the open entry. */
  predicate SubmenuShown(item: MenuItem, open: Option<string>) {
    item.submenu.Some? && open == Some(item.id)
  }

  /** Entering an entry with a submenu shows it. */
  lemma EnterShowsSubmenu(item: MenuItem, open: Option<string>)
    requires item.submenu.Some?
    ensures SubmenuShown(item, Enter(item, open))
    ensures !SubmenuShown(item, Leave(Enter(item, open)))
  {
  }

  function RunAction(action: Option<Action>): (r: seq<Effect>)
    ensures action.None? ==> r == []
    ensures action.Some? ==> r == [Run(action.value)]
  {
    match action
    case Some(a) => [Run(a)]
    case None => []
  }

  /**
   * A click on a top-level entry: a separator has no button and a disabled
   * button fires nothing; otherwise the entry's action, if any, runs and the
   * menu stays open.
   */
  function ClickItem(item: MenuItem): (r: seq<Effect>)
    ensures CloseMenu !in r
    ensures |r| <= 1
    ensures item.separator || item.disabled ==> r == []
    ensures !item.separator && !item.disabled && item.action.Some? ==> r == [Run(item.action.value)]
  {
    if item.separator || item.disabled then [] else RunAction(item.action)
  }

  /** A click on a submenu entry: its action, if any, runs, and then the menu closes. */
  function ClickSubItem(sub: SubItem): (r: seq<Effect>)
    ensures |r| >= 1 && r[|r| - 1] == CloseMenu
    ensures sub.action.Some? ==> r == [Run(sub.action.value), CloseMenu]
    ensures sub.action.None? ==> r == [CloseMenu]
  {
    RunAction(sub.action) + [CloseMenu]
  }
}
