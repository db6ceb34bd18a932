/**
 * The context-menu decision rule of the GTK web-contents view delegate.
 *
 * When the engine asks for a context menu it hands over a parameter snapshot
 * (what is under the cursor, the link, the selection, whether the region is
 * editable and which edit operations it allows). Together with the two facts
 * the navigation controller reports (can go back, can go forward) this fully
 * determines the ordered list of entries of the popup menu.
 */
module MenuPolicy {

  /** How the engine classifies the element under the cursor. */
  datatype MediaType =
    | MediaTypeNone
    | MediaTypeImage
    | MediaTypeVideo
    | MediaTypeAudio
    | MediaTypeFile
    | MediaTypePlugin

  /**
   * Bits of the engine's edit-capability set for the focused editable region
   * (the values of WebKit's WebContextMenuData::EditFlags).
   */
  const CanCut: bv32 := 0x4
  const CanCopy: bv32 := 0x8
  const CanPaste: bv32 := 0x10
  const CanDelete: bv32 := 0x20

  /** The snapshot the delegate copies into its params_ field. */
  datatype ContextMenuParams = ContextMenuParams(
    mediaType: MediaType,
    linkUrl: string,        // the unfiltered link URL; empty when not over a link
    selectionText: string,  // empty when nothing is selected
    isEditable: bool,
    editFlags: bv32)

  /** What the navigation controller reports when the menu is built. */
  datatype NavState = NavState(canGoBack: bool, canGoForward: bool)

  /** The items the delegate can put in a menu; each is wired to one handler. */
  datatype MenuAction = Back | Forward | Reload | Cut | Copy | Paste | Delete | Inspect

  /** A menu entry: a labelled item with its sensitivity, or a separator. */
  datatype MenuEntry = Item(action: MenuAction, enabled: bool) | Separator

  /** The label the toolkit shows for an item. */
  function Label(a: MenuAction): string
  {
    match a
    case Back => "Back"
    case Forward => "Forward"
    case Reload => "Reload"
    case Cut => "Cut"
    case Copy => "Copy"
    case Paste => "Paste"
    case Delete => "Delete"
    case Inspect => "Inspect"
  }

  predicate HasLink(p: ContextMenuParams)
  {
    p.linkUrl != []
  }

  predicate HasSelection(p: ContextMenuParams)
  {
    p.selectionText != []
  }

  /** The toolkit treats any non-zero value as "sensitive". */
  predicate HasEditFlag(flags: bv32, bit: bv32)
  {
    flags & bit != 0
  }

  /** The cursor is over plain page content: nothing to edit, copy or follow. */
  predicate ShowsNavigationGroup(p: ContextMenuParams)
  {
    p.mediaType == MediaTypeNone && !HasLink(p) && !HasSelection(p) && !p.isEditable
  }

  predicate ShowsEditGroup(p: ContextMenuParams)
  {
    p.isEditable
  }

  /** A lone Copy is offered for a selection, unless the edit group already has one. */
  predicate ShowsCopyGroup(p: ContextMenuParams)
  {
    !p.isEditable && HasSelection(p)
  }

  function NavigationGroup(nav: NavState): seq<MenuEntry>
  {
    [Item(Back, nav.canGoBack), Item(Forward, nav.canGoForward), Item(Reload, true), Separator]
  }

  function EditGroup(flags: bv32): seq<MenuEntry>
  {
    [Item(Cut, HasEditFlag(flags, CanCut)),
     Item(Copy, HasEditFlag(flags, CanCopy)),
     Item(Paste, HasEditFlag(flags, CanPaste)),
     Item(Delete, HasEditFlag(flags, CanDelete)),
     Separator]
  }

  function CopyGroup(): seq<MenuEntry>
  {
    [Item(Copy, true), Separator]
  }

  /**
   * The menu built for a snapshot: the navigation group, then the edit group
   * or (failing that) the copy group, then the Inspect item, which ends every menu.
   */
  function ContextMenu(p: ContextMenuParams, nav: NavState): (m: seq<MenuEntry>)
    ensures 1 <= |m| && m[|m| - 1] == Item(Inspect, true)
  {
    (if ShowsNavigationGroup(p) then NavigationGroup(nav) else [])
    + (if ShowsEditGroup(p) then EditGroup(p.editFlags)
       else if ShowsCopyGroup(p) then CopyGroup()
       else [])
    + [Item(Inspect, true)]
  }
}
