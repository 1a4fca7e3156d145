/** What the API sends to the host application, recorded as a log of
    commands: menu injections (`injectMenuItem`, `addMenuItem`), keyboard
    shortcut registrations, `App.sendMessage` / `App.triggerAction` calls and
    the manual call of the host's `scrollToNode` listener. Functions, objects
    and key combinations the host receives are opaque names here. */
module HostLog {
  import opened Wrappers

  /** A callback: the no-op `() => {}` put in place of a missing action, or a caller's function. */
  datatype Callback = NoOp | Fn(name: string)

  /** A truthy `condition` value: a predicate function, or some other value
      (which `typeof condition === 'function'` does not accept). */
  datatype Condition = Predicate(name: string) | NonFunction(text: string)

  /** A keyboard shortcut descriptor (an object, so always truthy). */
  datatype Shortcut = Shortcut(keys: string)

  /** A `submenu` entry. */
  datatype MenuItem = MenuItem(caption: string, action: Option<Callback>, condition: Option<Condition>, shortcut: Option<Shortcut>)

  /** The host context menus: `DROPDOWN_TYPE_CANVAS_CONTEXT_MENU`,
      `DROPDOWN_TYPE_SELECTION_CONTEXT_MENU`, `DROPDOWN_TYPE_OBJECTS_PANEL_CONTEXT_MENU`. */
  datatype ContextMenu = CanvasContextMenu | SelectionContextMenu | ObjectsPanelContextMenu

  /** A node reference given by a caller: a node id string, or a node object with an `id`. */
  datatype NodeRef = Id(key: string) | Obj(id: string)

  /** A value placed in a message: a string, a node object, or `undefined`. */
  datatype Value = Str(s: string) | NodeObject(id: string) | Undefined

  /** One call into the host, in the order the API makes them. */
  datatype Cmd =
    | InjectMainMenuItem(caption: string, action: Callback, shortcut: Option<Shortcut>, submenu: Option<seq<MenuItem>>)
      // an item injected into the main `fullscreen-menu-dropdown` menu
    | AddMenuItem(menu: ContextMenu, caption: string, action: Callback, condition: Option<Condition>,
                  shortcut: Option<Shortcut>, submenu: Option<seq<MenuItem>>)
      // an item added to one of the context menus
    | RegisterShortcut(keys: Shortcut, handler: Option<Callback>, condition: Option<Condition>)
    | ClearSelection                      // the `clearSelection` message
    | AddToSelection(nodeIds: seq<Value>) // the `addToSelection` message with its `nodeIds`
    | TriggerAction(name: string)         // a host action such as `zoom-to-selection`
    | ScrollToNode(nodeId: Value)         // the first `scrollToNode` listener, called by hand

  predicate IsMainMenuInjection(c: Cmd) { c.InjectMainMenuItem? }
  predicate IsShortcutRegistration(c: Cmd) { c.RegisterShortcut? }
  predicate IsZoom(c: Cmd) { c == TriggerAction("zoom-to-selection") }
  predicate IsScrollToNode(c: Cmd) { c.ScrollToNode? }
  predicate IsCanvasMenuItem(c: Cmd) { c.AddMenuItem? && c.menu == CanvasContextMenu }
  predicate IsSelectionMenuItem(c: Cmd) { c.AddMenuItem? && c.menu == SelectionContextMenu }
  predicate IsObjectsPanelMenuItem(c: Cmd) { c.AddMenuItem? && c.menu == ObjectsPanelContextMenu }

  /** The host's selection as the selection messages change it: `clearSelection`
      empties it, `addToSelection` adds the given ids; other commands leave it alone. */
  function Apply(selection: seq<Value>, c: Cmd): seq<Value> {
    match c
    case ClearSelection => []
    case AddToSelection(ids) => selection + ids
    case _ => selection
  }

  function Replay(selection: seq<Value>, cmds: seq<Cmd>): seq<Value>
    decreases cmds
  {
    if cmds == [] then selection else Replay(Apply(selection, cmds[0]), cmds[1..])
  }

  lemma {:induction false} ReplayAppend(selection: seq<Value>, a: seq<Cmd>, b: seq<Cmd>)
    ensures Replay(selection, a + b) == Replay(Replay(selection, a), b)
    decreases a
  {
    if a != [] {
      assert (a + b)[0] == a[0];
      assert (a + b)[1..] == a[1..] + b;
      ReplayAppend(Apply(selection, a[0]), a[1..], b);
    } else {
      assert a + b == b;
    }
  }

  lemma ReplayOne(selection: seq<Value>, c: Cmd)
    ensures Replay(selection, [c]) == Apply(selection, c)
  {
    assert [c][1..] == [];
  }

  /** `clearSelection` followed by `addToSelection(ids)` selects exactly `ids`. */
  lemma ReplayClearThenAdd(selection: seq<Value>, ids: seq<Value>)
    ensures Replay(selection, [ClearSelection, AddToSelection(ids)]) == ids
  {
    assert [ClearSelection, AddToSelection(ids)] == [ClearSelection] + [AddToSelection(ids)];
    ReplayAppend(selection, [ClearSelection], [AddToSelection(ids)]);
    ReplayOne(selection, ClearSelection);
    ReplayOne([], AddToSelection(ids));
    assert [] + ids == ids;
  }

  /** String ids as message values. */
  function Strs(ids: seq<string>): (r: seq<Value>)
    ensures |r| == |ids|
    ensures forall i :: 0 <= i < |ids| ==> r[i] == Str(ids[i])
  {
    seq(|ids|, i requires 0 <= i < |ids| => Str(ids[i]))
  }
}
