# Context menu of the exo_browser GTK view delegate, in Dafny

This project models the context-menu policy of `ExoBrowserWebContentsViewDelegate`
(`src/browser/ui/web_contents_view_delegate_gtk.cc`), the object that sits between
the embedded browser engine and the GTK toolkit:

- **ShowContextMenu** stores the engine's parameter snapshot (media type under the
  cursor, link URL, selected text, whether the region is editable, the edit-flag
  bits) and builds the popup menu entry by entry: Back / Forward / Reload and a
  separator for plain page content; Cut / Copy / Paste / Delete and a separator in an
  editable region, or else a lone Copy and a separator when text is selected; and
  always a final Inspect item.
- **The activation handlers** turn an item into engine calls: Back, Forward and
  Reload move through or reload history and then refocus the view; Cut, Copy,
  Paste and Delete issue the matching render-view-host command; Inspect does nothing.
- **Focus** focuses the content widget when the view has one;
  **OnNativeViewFocusEvent** never handles focus traversal.

Layout:

- `menu_policy.dfy` (module `MenuPolicy`): the snapshot, navigation state, menu
  entries, the guard predicates of the source's `if` tests, and `ContextMenu`, the
  menu a snapshot calls for, written group by group.
- `menu_properties.dfy` (module `MenuProperties`): lemmas on `ContextMenu`, namely
  which group appears when, how items are enabled, where the separator is, and
  that Inspect ends every menu.
- `view_delegate.dfy` (module `ViewDelegate`): the class
  `WebContentsViewDelegate` with the fields `params`, `menu` and a `commands` log
  of engine calls, the imperative `ShowContextMenu` proved to build exactly
  `ContextMenu`, the handlers, `Dispatch`, `Focus`, and lemmas on what activation does.

Engine calls are not executed: each becomes a `Command` appended to `commands`.
`CanGoBack()` / `CanGoForward()` are the `NavState` argument of `ShowContextMenu`.
The content view's native widget, which may be null, is the `Option<NativeView>`
argument of `Focus`.

The edit-flag bits are WebKit's `WebContextMenuData::EditFlags` values (`CanCut`
0x4, `CanCopy` 0x8, `CanPaste` 0x10, `CanDelete` 0x20). That header is not part of
this model. The toolkit makes an item sensitive for any non-zero value, so an item
is enabled iff its bit is set. An item whose sensitivity the source never sets
(Reload, the lone Copy, Inspect) stays enabled.

Reload passes `false` to the controller's `Reload(check_for_repost)`. The model
records exactly that call as `ReloadPage(false)` and does not model what the flag
does inside the engine.

## Model

| member | source | states |
|---|---|---|
| `MenuPolicy.ContextMenu` | src/browser/ui/web_contents_view_delegate_gtk.cc:44-152 | every menu is non-empty and ends with an enabled Inspect item |
| `MenuProperties.NavigationMenu` | src/browser/ui/web_contents_view_delegate_gtk.cc:53-84 | for plain page content the menu is exactly Back (enabled iff can go back), Forward (enabled iff can go forward), Reload (enabled), separator, Inspect |
| `MenuProperties.EditMenu` | src/browser/ui/web_contents_view_delegate_gtk.cc:86-128 | in an editable region the menu is exactly Cut, Copy, Paste, Delete, each enabled iff its edit-flag bit is set, then separator, Inspect |
| `MenuProperties.CopyMenu` | src/browser/ui/web_contents_view_delegate_gtk.cc:129-140 | a selection outside an editable region gives exactly an enabled Copy, separator, Inspect |
| `MenuProperties.InspectOnlyMenu` | src/browser/ui/web_contents_view_delegate_gtk.cc:50-56 | with no group shown the menu is Inspect alone, and then the cursor is over media or a link |
| `MenuProperties.NavigationGroupCondition` | src/browser/ui/web_contents_view_delegate_gtk.cc:50-84 | Back, Forward and Reload are each present iff the media type is None, there is no link, no selection and the region is not editable; they then open the menu in that order, followed by one separator |
| `MenuProperties.NavigationEnabling` | src/browser/ui/web_contents_view_delegate_gtk.cc:63-80 | wherever they occur, Back is enabled iff the controller can go back, Forward iff it can go forward, and Reload is always enabled |
| `MenuProperties.EditGroupContents` | src/browser/ui/web_contents_view_delegate_gtk.cc:86-128 | editable region: the menu starts with Cut, Copy, Paste, Delete (each enabled iff its bit is set) and one separator; Cut, Paste and Delete are each present iff the region is editable |
| `MenuProperties.CopyOnlyGroup` | src/browser/ui/web_contents_view_delegate_gtk.cc:129-140 | the menu is the lone enabled Copy plus separator plus Inspect iff not editable and text is selected; Copy is present iff editable or selected; no action ever appears twice, so the lone Copy never joins the edit group |
| `MenuProperties.GroupsExclusive` | src/browser/ui/web_contents_view_delegate_gtk.cc:53-140 | navigation never appears with Copy or Cut; a separator can only sit right before the final Inspect; it is there iff some group is shown; every entry before it is an item |
| `MenuProperties.InspectLast` | src/browser/ui/web_contents_view_delegate_gtk.cc:142-147 | Inspect is the last entry, enabled, and occurs nowhere else; the menu is Inspect alone iff nothing is selected, nothing is editable and the cursor is over media or a link |
| `MenuProperties.LabelsDistinct` | src/browser/ui/web_contents_view_delegate_gtk.cc:57-142 | the eight item labels are pairwise different, so a menu entry is identified by its action (the two Copy items share label and handler and never appear together) |
| `MenuProperties.ContextMenuExamples` | src/browser/ui/web_contents_view_delegate_gtk.cc:44-152 | four concrete menus: plain page, editable field with Copy and Paste allowed, plain selection, image |
| `ViewDelegate.WebContentsViewDelegate.ShowContextMenu` | src/browser/ui/web_contents_view_delegate_gtk.cc:44-152 | stores the snapshot and replaces the menu with exactly `ContextMenu(p, nav)`, built by successive appends; the command log is unchanged and the object invariant holds |
| `ViewDelegate.WebContentsViewDelegate.OnBackMenuActivated` | src/browser/ui/web_contents_view_delegate_gtk.cc:193-199 | appends a move of -1 through history, then a refocus of the view |
| `ViewDelegate.WebContentsViewDelegate.OnForwardMenuActivated` | src/browser/ui/web_contents_view_delegate_gtk.cc:201-207 | appends a move of +1 through history, then a refocus of the view |
| `ViewDelegate.WebContentsViewDelegate.OnReloadMenuActivated` | src/browser/ui/web_contents_view_delegate_gtk.cc:209-215 | appends a reload with argument false, then a refocus of the view |
| `ViewDelegate.WebContentsViewDelegate.OnCutMenuActivated` | src/browser/ui/web_contents_view_delegate_gtk.cc:217-222 | appends only the render-view-host Cut |
| `ViewDelegate.WebContentsViewDelegate.OnCopyMenuActivated` | src/browser/ui/web_contents_view_delegate_gtk.cc:224-229 | appends only the render-view-host Copy |
| `ViewDelegate.WebContentsViewDelegate.OnPasteMenuActivated` | src/browser/ui/web_contents_view_delegate_gtk.cc:231-236 | appends only the render-view-host Paste |
| `ViewDelegate.WebContentsViewDelegate.OnDeleteMenuActivated` | src/browser/ui/web_contents_view_delegate_gtk.cc:238-243 | appends only the render-view-host Delete |
| `ViewDelegate.WebContentsViewDelegate.OnInspectMenuActivated` | src/browser/ui/web_contents_view_delegate_gtk.cc:245-251 | issues nothing |
| `ViewDelegate.WebContentsViewDelegate.Dispatch` | src/browser/ui/web_contents_view_delegate_gtk.cc:193-251 | runs the handler an item is wired to: the log grows by exactly that item's commands, and the menu, snapshot and invariant are untouched; activating an item the shown menu has enabled issues only commands permitted by the state the menu was built from |
| `ViewDelegate.WebContentsViewDelegate.Focus` | src/browser/ui/web_contents_view_delegate_gtk.cc:177-183 | grabs focus on the content widget iff the view has one, otherwise changes nothing |
| `ViewDelegate.WebContentsViewDelegate.OnNativeViewFocusEvent` | src/browser/ui/web_contents_view_delegate_gtk.cc:185-191 | always reports the focus event as not handled |
| `ViewDelegate.RefocusOnlyAfterNavigation` | src/browser/ui/web_contents_view_delegate_gtk.cc:193-215 | an item refocuses the view iff it is Back, Forward or Reload, and then as its second and last command |
| `ViewDelegate.BackForwardCancel` | src/browser/ui/web_contents_view_delegate_gtk.cc:193-207 | Back requests a history offset of -1 and Forward +1. After any earlier commands, the two in either order leave the net requested history offset unchanged. No other item requests a history move |
| `ViewDelegate.DispatchDistinguishesItems` | src/browser/ui/web_contents_view_delegate_gtk.cc:217-251 | two items issue the same commands iff they are the same item; an editing item issues exactly one render-view-host command; only Inspect issues nothing |
| `ViewDelegate.EnabledIffPermitted` | src/browser/ui/web_contents_view_delegate_gtk.cc:63-125 | an item of the menu is enabled iff every command its activation would issue is allowed by the engine state reported when the menu was built (history entry exists, edit bit set or, outside an editable region, a selection to copy) |

## Left out

- GTK plumbing (`gtk_menu_new`, `g_signal_connect` and the thunks, `gtk_widget_show_all`, `gtk_menu_popup`): foreign toolkit calls. Only the resulting ordered entry list is modelled. The item-to-handler wiring is `Dispatch`.
- When the toolkit fires activation callbacks relative to `ShowContextMenu` is event-loop timing. `Dispatch` is a separate call, and nothing stops it being called for a disabled or absent item, just as nothing in the handlers checks for that.
- Constructor, destructor, `Initialize` and `GetNativeView`: floating-container lifetime and parenting, with no behaviour to check. The Dafny constructor only sets up an empty menu and log. The initial snapshot it stores is never read.
- `GetDragDestDelegate` and `CreateExoBrowserWebContentsViewDelegate` are a constant `NULL` return and an allocation.
- Engine internals: the navigation controller, the render view host and the contents view's `Focus` are recorded as commands. Their effect on history, the document or focus is not modelled. `CanGoBack`/`CanGoForward` and the content widget are inputs.
- `OnNativeViewFocusEvent`: its widget, direction and out-parameter arguments are not modelled, since the source never reads them.
- `src/renderer/content_renderer_client.h` holds only declarations of engine hooks with no visible logic.
- `ViewDelegate.BackForwardCancel`: speaks of the history offsets the commands request. A request the controller would refuse (Back when it cannot go back) is still counted, since the controller's history is not modelled.
- The inspector: `OnInspectMenuActivated` is an empty stub in the source and is modelled as such.
