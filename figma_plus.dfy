/** The stateful side of the API: everything it sends to the host goes into
    an append-only `log`, and the `pluginOptionsFound` listeners that
    `addCommand` registers are kept, in registration order, until the host
    fires that event. */
module FigmaPlus {
  import opened Wrappers
  import opened HostLog
  import opened Commands
  import opened Selection

  class Host {
    /** The calls made into the host so far, oldest first. */
    var log: seq<Cmd>
    /** The `pluginOptionsFound` listeners registered so far, oldest first. */
    var listeners: seq<Listener>

    constructor ()
      ensures log == [] && listeners == []
    {
      log := [];
      listeners := [];
    }

    /** `addCommand`: registers the deferred main-menu listener (unless hidden),
        then the context-menu items, then the shortcuts. */
    method AddCommand(cfg: CommandConfig)
      modifies this
      ensures listeners == old(listeners) + DeferredListeners(cfg)
      ensures log == old(log) + Registrations(cfg)
    {
      var action := if cfg.action.None? then NoOp else cfg.action.value;
      if !cfg.hideInMainMenu {
        listeners := listeners + [MainMenuListener(cfg.caption, action, cfg.condition, cfg.shortcut, cfg.submenu)];
      }
      AddContextMenuItems(cfg, action);
      RegisterShortcuts(cfg, action);
    }

    /** The immediate context-menu items of `addCommand`. */
    method AddContextMenuItems(cfg: CommandConfig, action: Callback)
      requires action == ActionOf(cfg)
      modifies this`log
      ensures log == old(log) + ContextMenuItems(cfg)
    {
      if cfg.showInCanvasMenu {
        log := log + [AddMenuItem(CanvasContextMenu, cfg.caption, action, cfg.condition, cfg.shortcut, cfg.submenu)];
      }
      if cfg.showInSelectionMenu {
        log := log + [AddMenuItem(SelectionContextMenu, cfg.caption, action, cfg.condition, cfg.shortcut, cfg.submenu)];
        log := log + [AddMenuItem(ObjectsPanelContextMenu, cfg.caption, action, cfg.condition, cfg.shortcut, cfg.submenu)];
      }
    }

    /** The immediate shortcut registrations of `addCommand`. */
    method RegisterShortcuts(cfg: CommandConfig, action: Callback)
      requires action == ActionOf(cfg)
      modifies this`log
      ensures log == old(log) + ShortcutRegistrations(cfg)
    {
      if cfg.shortcut.Some? && cfg.submenu.None? {
        log := log + [RegisterShortcut(cfg.shortcut.value, Some(action), cfg.condition)];
      }
      if cfg.submenu.Some? {
        RegisterSubmenuShortcuts(cfg.submenu.value);
      }
    }

    /** The `forEach` over the submenu: each entry's own shortcut, in order. */
    method RegisterSubmenuShortcuts(items: seq<MenuItem>)
      modifies this`log
      ensures log == old(log) + SubmenuShortcuts(items)
    {
      var i := 0;
      while i < |items|
        invariant 0 <= i <= |items|
        invariant log == old(log) + SubmenuShortcuts(items[..i])
      {
        assert items[..i + 1][..i] == items[..i];
        if items[i].shortcut.Some? {
          log := log + [RegisterShortcut(items[i].shortcut.value, items[i].action, items[i].condition)];
        }
        i := i + 1;
      }
      assert items[..|items|] == items;
    }

    /** The host fires `pluginOptionsFound`: every registered listener runs, in
        registration order; `verdicts[i]` is what the `i`-th listener's
        `condition()` answers when it is called. */
    method FirePluginOptionsFound(verdicts: seq<bool>)
      requires |verdicts| == |listeners|
      modifies this`log
      ensures log == old(log) + FireAll(listeners, verdicts)
    {
      var ls := listeners;
      var i := 0;
      while i < |ls|
        invariant 0 <= i <= |ls|
        invariant log == old(log) + FireAll(ls[..i], verdicts[..i])
      {
        var l := ls[i];
        assert ls[..i + 1][..i] == ls[..i] && ls[..i + 1][i] == l;
        assert verdicts[..i + 1][..i] == verdicts[..i];
        assert FireAll(ls[..i + 1], verdicts[..i + 1]) == FireAll(ls[..i], verdicts[..i]) + Fire(l, verdicts[i]);
        if l.condition.Some? && l.condition.value.Predicate? {
          if verdicts[i] {
            log := log + [InjectMainMenuItem(l.caption, l.action, l.shortcut, l.submenu)];
          }
        } else {
          log := log + [InjectMainMenuItem(l.caption, l.action, l.shortcut, l.submenu)];
        }
        i := i + 1;
      }
      assert ls[..|ls|] == ls;
      assert verdicts[..|verdicts|] == verdicts;
    }

    /** The `currentPage.selection` setter; `scrollToNodeListener` says whether
        the host has a `scrollToNode` listener. */
    method SetSelection(selections: seq<NodeRef>, scrollToNodeListener: bool)
      modifies this`log
      ensures log == old(log) + SelectionMessages(selections, scrollToNodeListener)
    {
      if |selections| == 0 {
        log := log + [ClearSelection];
        return;
      }
      var ids := ExtractIds(selections);
      log := log + [ClearSelection];
      log := log + [AddToSelection(ids)];
      if scrollToNodeListener {
        log := log + [ScrollToNode(ids[0])];
      }
    }

    /** `viewport.scrollAndZoomIntoView`; `selected` holds the ids of the host's
        selection when the call starts. */
    method ScrollAndZoomIntoView(nodes: seq<NodeRef>, selected: seq<string>)
      modifies this`log
      ensures log == old(log) + ScrollMessages(nodes, selected)
    {
      if |nodes| == 0 {
        return;
      }
      var ids := ExtractIds(nodes);
      log := log + [ClearSelection];
      log := log + [AddToSelection(ids)];
      log := log + [TriggerAction("zoom-to-selection")];
      log := log + [ClearSelection];
      if |selected| > 0 {
        log := log + [AddToSelection(Strs(selected))];
      }
    }
  }
}
