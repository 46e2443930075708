/** The event blockers of js/security.js: each handler decides whether
    `preventDefault` is called for a context menu, a key press, a selection
    start or a drag start. */
module Security {

  datatype Decision = Allow | Prevent

  const KEY_F12: int := 123
  const KEY_I: int := 73
  const KEY_J: int := 74
  const KEY_S: int := 83
  const KEY_U: int := 85

  /** The fields of a `keydown` event the handler reads, and `metaKey`,
      which it does not. */
  datatype KeyEvent = KeyEvent(keyCode: int, ctrlKey: bool, shiftKey: bool, metaKey: bool)

  /** The element an event is aimed at: its `tagName` and its `type`. */
  datatype Target = Target(tagName: string, inputType: string)

  /** The shortcuts the site means to block, stated as one condition:
      F12, developer tools (Ctrl+Shift+I, Ctrl+Shift+J), view source
      (Ctrl+U) and save (Ctrl+S). */
  predicate BlockedShortcut(e: KeyEvent) {
    || e.keyCode == KEY_F12
    || (e.ctrlKey && e.shiftKey && (e.keyCode == KEY_I || e.keyCode == KEY_J))
    || (e.ctrlKey && (e.keyCode == KEY_U || e.keyCode == KEY_S))
  }

  /** The `keydown` handler, its tests in source order. */
  function Keydown(e: KeyEvent): (r: Decision)
    ensures r == Prevent <==> BlockedShortcut(e)
    ensures e.keyCode == KEY_F12 ==> r == Prevent
    ensures e.ctrlKey && e.shiftKey && (e.keyCode == KEY_I || e.keyCode == KEY_J) ==> r == Prevent
    ensures e.ctrlKey && (e.keyCode == KEY_U || e.keyCode == KEY_S) ==> r == Prevent
    ensures !e.ctrlKey && e.keyCode != KEY_F12 ==> r == Allow
    ensures !e.shiftKey && (e.keyCode == KEY_I || e.keyCode == KEY_J) ==> r == Allow
  {
    if e.keyCode == 123 then Prevent
    else if e.ctrlKey && e.shiftKey && e.keyCode == 73 then Prevent
    else if e.ctrlKey && e.shiftKey && e.keyCode == 74 then Prevent
    else if e.ctrlKey && e.keyCode == 85 then Prevent
    else if e.ctrlKey && e.keyCode == 83 then Prevent
    else Allow
  }

  /** The `contextmenu` handler prevents every context menu. */
  function ContextMenu(target: Target): (r: Decision)
    ensures r == Prevent
  {
    Prevent
  }

  /** The `selectstart` handler: selection only inside inputs and text
      areas. */
  function SelectStart(target: Target): (r: Decision)
    ensures r == Allow <==> target.tagName == "INPUT" || target.tagName == "TEXTAREA"
  {
    if target.tagName == "INPUT" || target.tagName == "TEXTAREA" then Allow else Prevent
  }

  /** The `dragstart` handler: dragging only from a file input. */
  function DragStart(target: Target): (r: Decision)
    ensures r == Allow <==> target.tagName == "INPUT" && target.inputType == "file"
    ensures r == Allow ==> SelectStart(target) == Allow
  {
    if target.tagName == "INPUT" && target.inputType == "file" then Allow else Prevent
  }
}
