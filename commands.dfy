/** What `addCommand` registers with the host. The context-menu items and the
    keyboard shortcuts are registered at once; the main-menu item is deferred
    to a listener on the host's `pluginOptionsFound` event, which injects it
    only when the command's `condition` lets it. */
module Commands {
  import opened Wrappers
  import opened HostLog
  import Seqs

  /** The options object `addCommand` receives. */
  datatype CommandConfig = CommandConfig(
    caption: string,
    action: Option<Callback>,
    condition: Option<Condition>,
    shortcut: Option<Shortcut>,
    submenu: Option<seq<MenuItem>>,
    showInCanvasMenu: bool,
    showInSelectionMenu: bool,
    hideInMainMenu: bool)

  /** A registered `pluginOptionsFound` listener, with what its closure captured. */
  datatype Listener = MainMenuListener(
    caption: string,
    action: Callback,
    condition: Option<Condition>,
    shortcut: Option<Shortcut>,
    submenu: Option<seq<MenuItem>>)

  /** The action the command runs: a missing action becomes the no-op callback. */
  function ActionOf(cfg: CommandConfig): Callback {
    cfg.action.GetOr(NoOp)
  }

  /** The listeners `addCommand` adds: one, unless the command is hidden from the main menu. */
  function DeferredListeners(cfg: CommandConfig): (r: seq<Listener>)
    ensures |r| == if cfg.hideInMainMenu then 0 else 1
    ensures forall l :: l in r ==>
      && l.caption == cfg.caption && l.action == ActionOf(cfg) && l.condition == cfg.condition
      && l.shortcut == cfg.shortcut && l.submenu == cfg.submenu
  {
    if cfg.hideInMainMenu then []
    else [MainMenuListener(cfg.caption, ActionOf(cfg), cfg.condition, cfg.shortcut, cfg.submenu)]
  }

  /** The canvas context-menu item `addCommand` adds right away. */
  function CanvasMenuItems(cfg: CommandConfig): seq<Cmd> {
    if cfg.showInCanvasMenu
    then [AddMenuItem(CanvasContextMenu, cfg.caption, ActionOf(cfg), cfg.condition, cfg.shortcut, cfg.submenu)]
    else []
  }

  /** The selection and objects-panel context-menu items `addCommand` adds right away. */
  function SelectionMenuItems(cfg: CommandConfig): seq<Cmd> {
    if cfg.showInSelectionMenu
    then [AddMenuItem(SelectionContextMenu, cfg.caption, ActionOf(cfg), cfg.condition, cfg.shortcut, cfg.submenu),
          AddMenuItem(ObjectsPanelContextMenu, cfg.caption, ActionOf(cfg), cfg.condition, cfg.shortcut, cfg.submenu)]
    else []
  }

  function ContextMenuItems(cfg: CommandConfig): seq<Cmd> {
    CanvasMenuItems(cfg) + SelectionMenuItems(cfg)
  }

  /** The registration of one submenu entry's own shortcut, if it has one. */
  function ChildShortcut(item: MenuItem): seq<Cmd> {
    if item.shortcut.Some? then [RegisterShortcut(item.shortcut.value, item.action, item.condition)] else []
  }

  /** The shortcut registrations of the submenu entries, in submenu order. */
  function SubmenuShortcuts(items: seq<MenuItem>): (r: seq<Cmd>)
    ensures forall c :: c in r ==> c.RegisterShortcut?
  {
    if items == [] then []
    else SubmenuShortcuts(items[..|items| - 1]) + ChildShortcut(items[|items| - 1])
  }

  /** The shortcut registrations of `addCommand`: the command's own shortcut
      when it has no submenu, otherwise those of its submenu entries. */
  function ShortcutRegistrations(cfg: CommandConfig): (r: seq<Cmd>)
    ensures forall c :: c in r ==> c.RegisterShortcut?
    ensures cfg.submenu.None? ==> |r| == if cfg.shortcut.Some? then 1 else 0
    ensures cfg.submenu.None? && cfg.shortcut.Some? ==>
      r[0] == RegisterShortcut(cfg.shortcut.value, Some(ActionOf(cfg)), cfg.condition)
  {
    if cfg.submenu.Some? then SubmenuShortcuts(cfg.submenu.value)
    else if cfg.shortcut.Some? then [RegisterShortcut(cfg.shortcut.value, Some(ActionOf(cfg)), cfg.condition)]
    else []
  }

  /** Everything `addCommand` sends to the host at once. */
  function Registrations(cfg: CommandConfig): (r: seq<Cmd>)
    ensures forall c :: c in r ==> c.AddMenuItem? || c.RegisterShortcut?
    ensures forall c :: c in r && c.AddMenuItem? ==> c.caption == cfg.caption && c.action == ActionOf(cfg)
  {
    ContextMenuItems(cfg) + ShortcutRegistrations(cfg)
  }

  /** Whether a listener's condition lets the main-menu item in, given what
      calling `condition()` would answer: only a function is ever consulted. */
  predicate Passes(condition: Option<Condition>, verdict: bool)
    ensures Passes(condition, verdict) <==> condition.None? || condition.value.NonFunction? || verdict
  {
    match condition
    case Some(Predicate(_)) => verdict
    case _ => true
  }

  /** What one listener does when `pluginOptionsFound` fires. */
  function Fire(l: Listener, verdict: bool): (r: seq<Cmd>)
    ensures |r| == if l.condition.None? || l.condition.value.NonFunction? || verdict then 1 else 0
    ensures forall c :: c in r ==> c == InjectMainMenuItem(l.caption, l.action, l.shortcut, l.submenu)
  {
    if Passes(l.condition, verdict) then [InjectMainMenuItem(l.caption, l.action, l.shortcut, l.submenu)] else []
  }

  /** What the listeners do, in registration order, when the event fires once;
      `verdicts[i]` is what the `i`-th listener's `condition()` would answer. */
  function FireAll(listeners: seq<Listener>, verdicts: seq<bool>): (r: seq<Cmd>)
    requires |verdicts| == |listeners|
    ensures |r| <= |listeners|
    ensures forall c :: c in r ==> c.InjectMainMenuItem?
  {
    if listeners == [] then []
    else
      var n := |listeners| - 1;
      FireAll(listeners[..n], verdicts[..n]) + Fire(listeners[n], verdicts[n])
  }

  /** Number of submenu entries that carry a shortcut. */
  function CountWithShortcut(items: seq<MenuItem>): nat {
    Seqs.Count(items, (m: MenuItem) => m.shortcut.Some?)
  }

  /** `addCommand` adds exactly one canvas context-menu item when `showInCanvasMenu`
      is set, exactly one selection and one objects-panel item when
      `showInSelectionMenu` is set, whatever the `condition`, and never
      touches the main menu itself. */
  lemma AddCommandMenuCounts(cfg: CommandConfig)
    ensures Seqs.Count(Registrations(cfg), IsCanvasMenuItem) == if cfg.showInCanvasMenu then 1 else 0
    ensures Seqs.Count(Registrations(cfg), IsSelectionMenuItem) == if cfg.showInSelectionMenu then 1 else 0
    ensures Seqs.Count(Registrations(cfg), IsObjectsPanelMenuItem) == if cfg.showInSelectionMenu then 1 else 0
    ensures Seqs.Count(Registrations(cfg), IsMainMenuInjection) == 0
  {
    MenuItemsCount(cfg, IsCanvasMenuItem);
    MenuItemsCount(cfg, IsSelectionMenuItem);
    MenuItemsCount(cfg, IsObjectsPanelMenuItem);
    MenuItemsCount(cfg, IsMainMenuInjection);
  }

  /** Counting any kind of command other than a shortcut registration only looks at the context-menu items. */
  lemma MenuItemsCount(cfg: CommandConfig, p: Cmd -> bool)
    requires forall c: Cmd :: c.RegisterShortcut? ==> !p(c)
    ensures Seqs.Count(Registrations(cfg), p) ==
      (if cfg.showInCanvasMenu && p(CanvasMenuItems(cfg)[0]) then 1 else 0) +
      (if cfg.showInSelectionMenu && p(SelectionMenuItems(cfg)[0]) then 1 else 0) +
      (if cfg.showInSelectionMenu && p(SelectionMenuItems(cfg)[1]) then 1 else 0)
  {
    var canvas, selection, shortcuts := CanvasMenuItems(cfg), SelectionMenuItems(cfg), ShortcutRegistrations(cfg);
    Seqs.CountAppend(canvas + selection, shortcuts, p);
    Seqs.CountAppend(canvas, selection, p);
    NoneCounted(shortcuts, p);
    if cfg.showInCanvasMenu {
      assert canvas[1..] == [];
    }
    if cfg.showInSelectionMenu {
      assert selection[1..] == [selection[1]] && selection[1..][1..] == [];
    }
  }

  lemma {:induction false} NoneCounted(s: seq<Cmd>, p: Cmd -> bool)
    requires forall c :: c in s ==> !p(c)
    ensures Seqs.Count(s, p) == 0
  {
    if s != [] {
      assert s[0] in s;
      assert forall c :: c in s[1..] ==> c in s;
      NoneCounted(s[1..], p);
    }
  }

  /** With `showInSelectionMenu`, the selection-menu item is added immediately
      before the objects-panel item. */
  lemma SelectionMenuOrder(cfg: CommandConfig)
    requires cfg.showInSelectionMenu
    ensures exists k ::
      && 0 <= k < |Registrations(cfg)| - 1
      && IsSelectionMenuItem(Registrations(cfg)[k])
      && IsObjectsPanelMenuItem(Registrations(cfg)[k + 1])
  {
    var k := |CanvasMenuItems(cfg)|;
    assert Registrations(cfg) == CanvasMenuItems(cfg) + SelectionMenuItems(cfg) + ShortcutRegistrations(cfg);
    assert Registrations(cfg)[k] == SelectionMenuItems(cfg)[0];
    assert Registrations(cfg)[k + 1] == SelectionMenuItems(cfg)[1];
  }

  /** The top-level shortcut is registered exactly when there is one and no
      submenu (an empty submenu still counts as one); with a submenu, one
      shortcut is registered per entry that carries one. */
  lemma AddCommandShortcutCount(cfg: CommandConfig)
    ensures Seqs.Count(Registrations(cfg), IsShortcutRegistration) ==
      if cfg.submenu.Some? then CountWithShortcut(cfg.submenu.value)
      else if cfg.shortcut.Some? then 1 else 0
    ensures cfg.submenu.None? && cfg.shortcut.Some? ==>
      RegisterShortcut(cfg.shortcut.value, Some(ActionOf(cfg)), cfg.condition) in Registrations(cfg)
  {
    var items := ContextMenuItems(cfg);
    var shortcuts := ShortcutRegistrations(cfg);
    Seqs.CountAppend(items, shortcuts, IsShortcutRegistration);
    NoneCounted(items, IsShortcutRegistration);
    if cfg.submenu.Some? {
      SubmenuShortcutsInOrder(cfg.submenu.value);
      AllCounted(shortcuts, IsShortcutRegistration);
    } else if cfg.shortcut.Some? {
      assert Registrations(cfg)[|items|] == shortcuts[0];
      assert shortcuts[1..] == [];
    }
  }

  lemma {:induction false} AllCounted(s: seq<Cmd>, p: Cmd -> bool)
    requires forall c :: c in s ==> p(c)
    ensures Seqs.Count(s, p) == |s|
  {
    if s != [] {
      assert s[0] in s;
      assert forall c :: c in s[1..] ==> c in s;
      AllCounted(s[1..], p);
    }
  }

  /** The submenu shortcuts are one registration per entry that carries a
      shortcut, in submenu order, each with that entry's own action and condition. */
  lemma {:induction false} SubmenuShortcutsInOrder(items: seq<MenuItem>)
    ensures |SubmenuShortcuts(items)| == CountWithShortcut(items)
    ensures forall i :: 0 <= i < |items| && items[i].shortcut.Some? ==>
      CountWithShortcut(items[..i]) < |SubmenuShortcuts(items)| &&
      SubmenuShortcuts(items)[CountWithShortcut(items[..i])] ==
        RegisterShortcut(items[i].shortcut.value, items[i].action, items[i].condition)
  {
    if items != [] {
      var n := |items| - 1;
      var init := items[..n];
      assert items == init + [items[n]];
      SubmenuShortcutsInOrder(init);
      Seqs.CountAppend(init, [items[n]], (m: MenuItem) => m.shortcut.Some?);
      forall i | 0 <= i < |items| && items[i].shortcut.Some?
        ensures CountWithShortcut(items[..i]) < |SubmenuShortcuts(items)|
        ensures SubmenuShortcuts(items)[CountWithShortcut(items[..i])] ==
          RegisterShortcut(items[i].shortcut.value, items[i].action, items[i].condition)
      {
        if i < n {
          assert items[..i] == init[..i];
          assert init[i] == items[i];
        } else {
          assert items[..i] == init;
        }
      }
    }
  }

  /** The main-menu item: with `hideInMainMenu` no listener is registered, so
      it is never injected; otherwise, when `pluginOptionsFound` fires, exactly
      one injection happens iff `condition` is not a function or answers true. */
  lemma MainMenuInjectionGate(cfg: CommandConfig, verdict: bool)
    ensures cfg.hideInMainMenu <==> DeferredListeners(cfg) == []
    ensures !cfg.hideInMainMenu ==> |DeferredListeners(cfg)| == 1
    ensures !cfg.hideInMainMenu ==>
      FireAll(DeferredListeners(cfg), [verdict]) ==
        if cfg.condition.None? || cfg.condition.value.NonFunction? || verdict
        then [InjectMainMenuItem(cfg.caption, ActionOf(cfg), cfg.shortcut, cfg.submenu)]
        else []
  {
    if !cfg.hideInMainMenu {
      var ls := DeferredListeners(cfg);
      assert ls[..0] == [] && [verdict][..0] == [];
    }
  }

  /** Firing the event runs each listener on its own, in registration order:
      the listeners registered first inject first. */
  lemma {:induction false} FireAllAppend(a: seq<Listener>, va: seq<bool>, b: seq<Listener>, vb: seq<bool>)
    requires |va| == |a| && |vb| == |b|
    ensures FireAll(a + b, va + vb) == FireAll(a, va) + FireAll(b, vb)
    decreases |b|
  {
    if b == [] {
      assert a + b == a && va + vb == va;
    } else {
      var n := |b| - 1;
      assert (a + b)[..|a + b| - 1] == a + b[..n];
      assert (va + vb)[..|va + vb| - 1] == va + vb[..n];
      assert (a + b)[|a + b| - 1] == b[n] && (va + vb)[|va + vb| - 1] == vb[n];
      FireAllAppend(a, va, b[..n], vb[..n]);
    }
  }

  /** A missing `action` becomes the no-op callback, and that one action is
      what every context-menu item, the main-menu listener and the command's
      own shortcut carry. */
  lemma AddCommandDefaultsAction(cfg: CommandConfig)
    ensures ActionOf(cfg) == if cfg.action.None? then NoOp else cfg.action.value
    ensures forall c :: c in ContextMenuItems(cfg) ==> c.AddMenuItem? && c.action == ActionOf(cfg)
    ensures forall l :: l in DeferredListeners(cfg) ==> l.action == ActionOf(cfg)
    ensures cfg.submenu.None? && cfg.shortcut.Some? ==> ShortcutRegistrations(cfg)[0].handler == Some(ActionOf(cfg))
  {
  }
}
