# figma-plus API core, modelled in Dafny

`figmaPlus` is a convenience layer that plugin authors use on top of the
Figma web application's internal `App` object. Most of `src/api/figmaPlus.js`
forwards calls to the host. This project models the parts that contain logic
of their own:

- **Style catalog** (module `Styles`). `styles.local` turns the file's host
  style records into public descriptors. `styles.published` flattens the
  organisation → team → style nesting of the published libraries into one
  ordered sequence. `getStyleById` returns the first descriptor with a given id
  in `local` followed by `published`. A descriptor gets `thumbnailUrl` only
  when the record's `thumbnail_url` is truthy. It gets `fills`, `effects` or
  `layoutGrids` only when its `style_type` is `FILL`, `EFFECT` or `GRID` and
  the record has `meta`. Only published descriptors carry `canvasUrl`. Host
  collections are sequences in `Object.values` order.
- **`addCommand`** (modules `Commands` and `FigmaPlus`). The host is a
  `Host` object with two fields. `log` is an append-only list of the calls
  the API makes into the host. `listeners` holds the `pluginOptionsFound`
  listeners registered so far. `addCommand` adds a listener unless
  `hideInMainMenu` is set. It then adds the context-menu items at once,
  followed by the shortcut registrations. `FirePluginOptionsFound` plays the
  host firing that event. It is given the answer each listener's
  `condition()` would return.
- **Selection and viewport** (modules `Selection` and `FigmaPlus`). These
  are the `currentPage.selection` setter and
  `viewport.scrollAndZoomIntoView`. Both turn a list of node references into
  a fixed sequence of host messages. Node references are
  `NodeRef = Id(key) | Obj(id)`. Ids are extracted only when the *first*
  reference is an object. Two host readings become parameters: whether a
  `scrollToNode` listener exists, and the ids selected before the call. The
  effect of the messages on the host's selection is given by
  `HostLog.Replay`. `clearSelection` empties the selection and
  `addToSelection` adds the given ids.

JavaScript truthiness is modelled with `Option`. `None` stands for a missing
or falsy value; a `thumbnail_url` of `""` is also falsy. A `condition` is
either a function (`Predicate`) or some other truthy value (`NonFunction`).
The main-menu gate consults a `condition` only when it is a function, as
`typeof condition === 'function'` does. A `submenu` array is truthy even when
it is empty, so `Some([])` still suppresses the top-level shortcut.

The main-menu listener is added with a plain `addEventListener` and is never
removed, so it injects the item again every time `pluginOptionsFound` fires.
`FirePluginOptionsFound` keeps the listeners for that reason.

## Model

| member | source | states |
|---|---|---|
| `Styles.Describe` | src/api/figmaPlus.js:265-269 | descriptor copies key/name/type/description; `canvasUrl` only when published; `thumbnailUrl` iff `thumbnail_url` truthy; `fills`/`effects`/`layoutGrids` each iff the type is `FILL`/`EFFECT`/`GRID` and `meta` is present |
| `Styles.DescribeCarriesPayload` | src/api/figmaPlus.js:289-292 | the optional payload fields agree exactly with the record's payload as a closed sum (`PayloadOf`), so at most one of them is present and it holds the thumbnail's list |
| `Styles.DescribeAll` | src/api/figmaPlus.js:281-294 | mapping yields one descriptor per record, at the same index |
| `Styles.Local` | src/api/figmaPlus.js:264-271 | `local` has one descriptor per host record in input order, none with `canvasUrl` |
| `Styles.Published` | src/api/figmaPlus.js:276-294 | `published` describes the flattened records one by one, each with `canvasUrl` |
| `Styles.PublishedLength` | src/api/figmaPlus.js:276-280 | number of published descriptors is the sum of all team sizes across all organisations |
| `Styles.PublishedOrder` | src/api/figmaPlus.js:276-281 | organisation-major, then team, then style order: style k of team t of org o sits at `TeamOffset(o, t) + k` |
| `Styles.PublishedRecordsContain` | src/api/figmaPlus.js:276-280 | a record is published iff it is a style of some team of some organisation |
| `Styles.FindById` | src/api/figmaPlus.js:20 | `find`: `None` iff no descriptor has the id; otherwise the first descriptor with that id |
| `Styles.StyleById` | src/api/figmaPlus.js:18-21 | a returned descriptor has the requested id |
| `Styles.StyleByIdPrefersLocal` | src/api/figmaPlus.js:19-20 | a local match wins; published descriptors are searched only when no local one has the id |
| `Styles.StyleByIdFound` | src/api/figmaPlus.js:18-21 | a descriptor is found iff some local record or some published record has that key |
| `Commands.DeferredListeners` | src/api/figmaPlus.js:93-94 | one `pluginOptionsFound` listener unless `hideInMainMenu`, capturing the caption, the resolved action, the condition, the shortcut and the submenu |
| `Commands.Passes` | src/api/figmaPlus.js:95-99 | the main-menu gate passes iff `condition` is absent, not a function, or answers true |
| `Commands.Fire` | src/api/figmaPlus.js:95-99 | one listener injects exactly one main-dropdown item with its captured arguments when the gate passes, and nothing otherwise |
| `Commands.Registrations` | src/api/figmaPlus.js:102-111 | the immediate effects of `addCommand` are only context-menu items (with the command's caption and resolved action) and shortcut registrations |
| `Commands.ShortcutRegistrations` | src/api/figmaPlus.js:107-111 | only shortcut registrations; without a submenu, exactly the command's own shortcut with its resolved action and condition when it has one, none otherwise |
| `Commands.AddCommandMenuCounts` | src/api/figmaPlus.js:102-106 | exactly one canvas item iff `showInCanvasMenu`, one selection and one objects-panel item iff `showInSelectionMenu`, independent of `condition`; no main-menu injection at registration time |
| `Commands.SelectionMenuOrder` | src/api/figmaPlus.js:103-106 | the selection-menu item comes immediately before the objects-panel item |
| `Commands.AddCommandShortcutCount` | src/api/figmaPlus.js:107-111 | top-level shortcut registered iff `shortcut` set and no `submenu` (with its resolved action); with a submenu, one registration per child carrying a shortcut |
| `Commands.SubmenuShortcuts` | src/api/figmaPlus.js:108-111 | the submenu loop only registers shortcuts |
| `Commands.SubmenuShortcutsInOrder` | src/api/figmaPlus.js:108-111 | one registration per child with a shortcut, in submenu order, each with that child's own shortcut, action and condition |
| `Commands.MainMenuInjectionGate` | src/api/figmaPlus.js:93-100 | no listener iff `hideInMainMenu`; otherwise firing `pluginOptionsFound` injects exactly one main-dropdown item iff `condition` is absent, not a function, or answers true |
| `Commands.FireAll` | src/api/figmaPlus.js:94-100 | firing the event only injects main-dropdown items, at most one per listener |
| `Commands.FireAllAppend` | src/api/figmaPlus.js:94-100 | listeners fire independently, in registration order |
| `Commands.AddCommandDefaultsAction` | src/api/figmaPlus.js:92-105 | a missing `action` becomes the no-op; every context-menu item, the listener and the top-level shortcut carry that action |
| `Selection.ExtractIds` | src/api/figmaPlus.js:246 | one value per reference, each decided by the first reference's kind: after an object first, objects give their `.id` and strings become `undefined`; after a string first, strings stay and objects pass through unchanged; uniform references give their ids |
| `Selection.SelectionMessages` | src/api/figmaPlus.js:242-250 | the setter's messages: `clearSelection` alone on empty input, otherwise `clearSelection`, `addToSelection` with the extracted ids and, when the listener exists, `scrollToNode` with the first id |
| `Selection.ScrollMessages` | src/api/figmaPlus.js:186-192 | nothing on empty input, otherwise `clearSelection`, `addToSelection` of the extracted ids, `zoom-to-selection`, `clearSelection`, then `addToSelection` of the previous selection only when it was non-empty |
| `Selection.SelectionWriteSelects` | src/api/figmaPlus.js:242-248 | whatever was selected before, the setter leaves exactly the extracted ids selected (nothing for an empty list) |
| `Selection.SelectionWriteScrolls` | src/api/figmaPlus.js:242-250 | always starts with `clearSelection`; an empty list sends only that; `scrollToNode` is called once, last, with the first id, iff the listener exists and the list is non-empty |
| `Selection.ScrollAndZoomTargetsNodes` | src/api/figmaPlus.js:186-190 | empty input sends nothing; otherwise exactly one `zoom-to-selection`, sent while exactly the requested nodes are selected |
| `Selection.ScrollAndZoomRestoresSelection` | src/api/figmaPlus.js:185-192 | the selection after the call equals the selection before it |
| `FigmaPlus.Host.AddCommand` | src/api/figmaPlus.js:82-112 | appends `Registrations(cfg)` to the log and `DeferredListeners(cfg)` to the listeners, nothing else |
| `FigmaPlus.Host.AddContextMenuItems` | src/api/figmaPlus.js:102-106 | appends the canvas item, then the selection and objects-panel items |
| `FigmaPlus.Host.RegisterShortcuts` | src/api/figmaPlus.js:107-111 | appends the top-level or submenu shortcut registrations |
| `FigmaPlus.Host.RegisterSubmenuShortcuts` | src/api/figmaPlus.js:108-111 | the `forEach` loop appends exactly `SubmenuShortcuts(items)` |
| `FigmaPlus.Host.FirePluginOptionsFound` | src/api/figmaPlus.js:94-100 | running the listeners in order appends exactly `FireAll(listeners, verdicts)`; listeners stay registered |
| `FigmaPlus.Host.SetSelection` | src/api/figmaPlus.js:241-251 | appends exactly `SelectionMessages(selections, listener)` |
| `FigmaPlus.Host.ScrollAndZoomIntoView` | src/api/figmaPlus.js:184-193 | appends exactly `ScrollMessages(nodes, selected)` |

## Left out

- The `on*` event registrations (lines 22-81) are left out. They are DOM `addEventListener` plumbing that only extracts payload fields.
- These members are one-line forwarders to host functions or to `./scene`, `./keyboardShortcut`, `./ui` and `./menuItem`, which are not part of this model: `getNodeById`, `root`, the `currentPage` and `selection` getters, `panToNode`, `toggleShowNodeId`, `isDesktop`, `getOrgs`, `getMyOrgId`, `getTeams`, `getMyTeams`, `getFileKey`, `registerKeyboardShortcut`, `showUI` and `hideUI`. What `addMenuItem`, `injectMenuItem` and `registerKeyboardShortcut` do with a registration is not modelled; the model records only that the call was made, with which arguments.
- The `viewport.center` and `viewport.zoom` getters and setters are left out. They pass floating-point host values straight through.
- `addTooltip` is left out. Its branch compares `JSON.stringify` of DOM rectangles, and its state codes and timers belong to the host.
- `showToast` is left out. It multiplies by 1000 in floating point and then dispatches to the host.
- The Vue, React and ReactDOM re-exports and all rendering are left out.
- Callbacks, conditions, shortcuts and thumbnail payloads are opaque names. Running a callback is not modelled.
- A `condition()` result is given to `FirePluginOptionsFound` as a boolean verdict. Side effects of calling it are not modelled, and neither are truthy non-boolean results.
- `Styles.Describe`: every `meta` holds a `style_thumbnail` with all three lists. Two source behaviours are therefore not modelled. A `FILL`, `EFFECT` or `GRID` record whose `meta` has no `style_thumbnail` makes the JavaScript throw a TypeError, which aborts the whole `local` or `published` getter and with it `getStyleById`. A `style_thumbnail` that lacks the list for its type gives the descriptor a property whose value is `undefined`.
- `Styles.Describe`: published records always carry a `canvas_url` string. A missing one, which the JavaScript would copy as an `undefined` property, is not modelled.
- `Selection.SelectionMessages`: a `scrollToNode` entry that exists but holds an empty listener array, which would throw in the JavaScript, is not modelled. The listener's existence is a boolean.
- `HostLog.Replay`: the host's selection is a sequence, and `addToSelection` appends to it. Duplicate ids and the ordering of the host's selection map are not modelled.
- Reading a projection twice gives the same result because every projection is a function. Host mutation between reads is not modelled.
