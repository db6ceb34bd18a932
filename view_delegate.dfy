/**
 * The GTK web-contents view delegate: it records the parameter snapshot,
 * builds the context menu entry by entry, and turns an activated item into
 * calls on the engine. Engine calls are recorded, in order, in a command log;
 * what the navigation controller and the view report is passed in.
 */
module ViewDelegate {
  import opened MenuPolicy
  import opened MenuProperties

  datatype Option<T> = None | Some(value: T)

  /** A native widget handle of the engine's content view. */
  datatype NativeView = NativeView(handle: nat)

  /** The calls the delegate makes on the engine. */
  datatype Command =
    | GoToOffset(offset: int)            // navigation controller: move in history
    | ReloadPage(checkForRepost: bool)   // navigation controller: reload
    | FocusView                          // the contents view takes focus
    | HostCut                            // render view host editing commands
    | HostCopy
    | HostPaste
    | HostDelete
    | GrabFocus(widget: NativeView)      // toolkit: focus the content widget

  /** The commands activating an item issues, in order. */
  function ActivationCommands(a: MenuAction): seq<Command>
  {
    match a
    case Back => [GoToOffset(-1), FocusView]
    case Forward => [GoToOffset(1), FocusView]
    case Reload => [ReloadPage(false), FocusView]
    case Cut => [HostCut]
    case Copy => [HostCopy]
    case Paste => [HostPaste]
    case Delete => [HostDelete]
    case Inspect => []
  }

  /**
   * Whether the engine, in the state it reported when the menu was built,
   * allows a command: history moves only one step towards an existing entry,
   * editing commands only where the edit flags (or, outside an editable
   * region, a selection to copy) say so.
   */
  predicate Permitted(c: Command, p: ContextMenuParams, nav: NavState)
  {
    match c
    case GoToOffset(d) => (d == -1 && nav.canGoBack) || (d == 1 && nav.canGoForward)
    case ReloadPage(_) => true
    case FocusView => true
    case HostCut => p.isEditable && HasEditFlag(p.editFlags, CanCut)
    case HostCopy =>
      if p.isEditable then HasEditFlag(p.editFlags, CanCopy) else HasSelection(p)
    case HostPaste => p.isEditable && HasEditFlag(p.editFlags, CanPaste)
    case HostDelete => p.isEditable && HasEditFlag(p.editFlags, CanDelete)
    case GrabFocus(_) => true
  }

  class WebContentsViewDelegate {
    /** The snapshot of the last context-menu request. */
    var params: ContextMenuParams
    /** The entries of the last menu shown, in order. */
    var menu: seq<MenuEntry>
    /** Every engine call made so far, in order. */
    var commands: seq<Command>
    /** The navigation state the last menu was built from. */
    ghost var shownNav: NavState

    /** The menu on show is the one the policy gives for the stored snapshot. */
    ghost predicate Valid()
      reads this
    {
      menu == [] || menu == ContextMenu(params, shownNav)
    }

    constructor ()
      ensures Valid()
      ensures menu == [] && commands == []
    {
      params := ContextMenuParams(MediaTypeNone, [], [], false, 0);
      menu := [];
      commands := [];
      shownNav := NavState(false, false);
    }

    /**
     * Stores the snapshot and builds a fresh menu by appending entries: the
     * navigation group for plain page content, then the edit group or a lone
     * Copy, then Inspect.
     */
    method ShowContextMenu(p: ContextMenuParams, nav: NavState)
      modifies this
      ensures Valid()
      ensures params == p && shownNav == nav
      ensures menu == ContextMenu(p, nav)
      ensures commands == old(commands)
    {
      menu := [];
      params := p;
      var hasLink := params.linkUrl != [];
      var hasSelection := params.selectionText != [];

      if params.mediaType == MediaTypeNone && !hasLink && !hasSelection && !params.isEditable {
        menu := menu + [Item(Back, nav.canGoBack)];
        menu := menu + [Item(Forward, nav.canGoForward)];
        menu := menu + [Item(Reload, true)];
        menu := menu + [Separator];
      }
      assert menu == if ShowsNavigationGroup(p) then NavigationGroup(nav) else [];
      ghost var navigationPart := menu;

      if params.isEditable {
        menu := menu + [Item(Cut, params.editFlags & CanCut != 0)];
        menu := menu + [Item(Copy, params.editFlags & CanCopy != 0)];
        menu := menu + [Item(Paste, params.editFlags & CanPaste != 0)];
        menu := menu + [Item(Delete, params.editFlags & CanDelete != 0)];
        menu := menu + [Separator];
      } else if hasSelection {
        menu := menu + [Item(Copy, true)];
        menu := menu + [Separator];
      }
      assert menu == navigationPart +
        if ShowsEditGroup(p) then EditGroup(p.editFlags)
        else if ShowsCopyGroup(p) then CopyGroup()
        else [];

      menu := menu + [Item(Inspect, true)];
      shownNav := nav;
    }

    method OnBackMenuActivated()
      modifies this`commands
      ensures commands == old(commands) + [GoToOffset(-1), FocusView]
    {
      commands := commands + [GoToOffset(-1)];
      commands := commands + [FocusView];
    }

    method OnForwardMenuActivated()
      modifies this`commands
      ensures commands == old(commands) + [GoToOffset(1), FocusView]
    {
      commands := commands + [GoToOffset(1)];
      commands := commands + [FocusView];
    }

    method OnReloadMenuActivated()
      modifies this`commands
      ensures commands == old(commands) + [ReloadPage(false), FocusView]
    {
      commands := commands + [ReloadPage(false)];
      commands := commands + [FocusView];
    }

    method OnCutMenuActivated()
      modifies this`commands
      ensures commands == old(commands) + [HostCut]
    {
      commands := commands + [HostCut];
    }

    method OnCopyMenuActivated()
      modifies this`commands
      ensures commands == old(commands) + [HostCopy]
    {
      commands := commands + [HostCopy];
    }

    method OnPasteMenuActivated()
      modifies this`commands
      ensures commands == old(commands) + [HostPaste]
    {
      commands := commands + [HostPaste];
    }

    method OnDeleteMenuActivated()
      modifies this`commands
      ensures commands == old(commands) + [HostDelete]
    {
      commands := commands + [HostDelete];
    }

    /** The inspector is not wired up: activating Inspect does nothing. */
    method OnInspectMenuActivated()
      ensures commands == old(commands)
    {
    }

    /**
     * Runs the handler an item is connected to. Only the command log changes;
     * the menu and the snapshot stay as they are. Activating an item the menu
     * on show has enabled issues only commands the engine's reported state
     * permits.
     */
    method Dispatch(a: MenuAction)
      requires Valid()
      modifies this`commands
      ensures Valid()
      ensures commands == old(commands) + ActivationCommands(a)
      ensures Item(a, true) in menu ==>
        forall c | c in ActivationCommands(a) :: Permitted(c, params, shownNav)
    {
      if Item(a, true) in menu {
        var i :| 0 <= i < |menu| && menu[i] == Item(a, true);
        EnabledIffPermitted(params, shownNav, i);
      }
      match a
      case Back => OnBackMenuActivated();
      case Forward => OnForwardMenuActivated();
      case Reload => OnReloadMenuActivated();
      case Cut => OnCutMenuActivated();
      case Copy => OnCopyMenuActivated();
      case Paste => OnPasteMenuActivated();
      case Delete => OnDeleteMenuActivated();
      case Inspect => OnInspectMenuActivated();
    }

    /** Gives focus to the content widget, if the view has one. */
    method Focus(contentView: Option<NativeView>)
      modifies this`commands
      ensures contentView.Some? ==> commands == old(commands) + [GrabFocus(contentView.value)]
      ensures contentView.None? ==> commands == old(commands)
    {
      if contentView.Some? {
        commands := commands + [GrabFocus(contentView.value)];
      }
    }

    /** Never handles focus traversal itself, so the toolkit's default order applies. */
    method OnNativeViewFocusEvent() returns (handled: bool)
      ensures !handled
    {
      handled := false;
    }
  }

  /**
   * Refocusing: an item gives focus back to the view iff it navigates (Back,
   * Forward, Reload), and then as its last command, after the engine call.
   */
  lemma RefocusOnlyAfterNavigation(a: MenuAction)
    ensures FocusView in ActivationCommands(a) <==> a == Back || a == Forward || a == Reload
    ensures FocusView in ActivationCommands(a) ==>
      |ActivationCommands(a)| == 2 && ActivationCommands(a)[1] == FocusView
      && ActivationCommands(a)[0] != FocusView
  {
  }

  /**
   * The net history offset a run of commands requests: the sum of the
   * offsets passed to the navigation controller. Whether the controller
   * honours a request is not modelled.
   */
  function HistoryOffset(cs: seq<Command>): int
  {
    if cs == [] then 0
    else (if cs[0].GoToOffset? then cs[0].offset else 0) + HistoryOffset(cs[1..])
  }

  lemma {:induction false} HistoryOffsetAppend(xs: seq<Command>, ys: seq<Command>)
    ensures HistoryOffset(xs + ys) == HistoryOffset(xs) + HistoryOffset(ys)
  {
    if xs == [] {
      assert xs + ys == ys;
    } else {
      assert (xs + ys)[1..] == xs[1..] + ys;
      HistoryOffsetAppend(xs[1..], ys);
    }
  }

  /**
   * Back requests a move one entry back and Forward one entry forward, so
   * activating one after the other, after any earlier commands, leaves the net
   * requested offset where it was; no other item requests a history move.
   */
  lemma BackForwardCancel(log: seq<Command>)
    ensures HistoryOffset(ActivationCommands(Back)) == -1
    ensures HistoryOffset(ActivationCommands(Forward)) == 1
    ensures HistoryOffset(log + ActivationCommands(Back) + ActivationCommands(Forward)) == HistoryOffset(log)
    ensures HistoryOffset(log + ActivationCommands(Forward) + ActivationCommands(Back)) == HistoryOffset(log)
    ensures forall a | a != Back && a != Forward :: HistoryOffset(ActivationCommands(a)) == 0
  {
    var back, forward := ActivationCommands(Back), ActivationCommands(Forward);
    HistoryOffsetAppend(log + back, forward);
    HistoryOffsetAppend(log, back);
    HistoryOffsetAppend(log + forward, back);
    HistoryOffsetAppend(log, forward);
  }

  /**
   * Each item has its own effect: no two items issue the same commands.
   * Editing items issue exactly one render-view-host command and do not
   * refocus; Inspect issues nothing.
   */
  lemma DispatchDistinguishesItems(a: MenuAction, b: MenuAction)
    ensures ActivationCommands(a) == ActivationCommands(b) <==> a == b
    ensures a in {Cut, Copy, Paste, Delete} ==>
      |ActivationCommands(a)| == 1 &&
      ActivationCommands(a)[0] in {HostCut, HostCopy, HostPaste, HostDelete}
    ensures ActivationCommands(a) == [] <==> a == Inspect
  {
  }

  /**
   * An item is enabled exactly when every command its activation would issue
   * is allowed by the state the engine reported: the enabled flags of the menu
   * agree with Permitted, in both directions.
   */
  lemma EnabledIffPermitted(p: ContextMenuParams, nav: NavState, i: nat)
    requires i < |ContextMenu(p, nav)| && ContextMenu(p, nav)[i].Item?
    ensures ContextMenu(p, nav)[i].enabled <==>
      forall c | c in ActivationCommands(ContextMenu(p, nav)[i].action) :: Permitted(c, p, nav)
  {
    var commands := ActivationCommands(ContextMenu(p, nav)[i].action);
    assert commands != [] ==> commands[0] in commands;
    if ShowsNavigationGroup(p) {
      NavigationMenu(p, nav);
    } else if p.isEditable {
      EditMenu(p, nav);
    } else if HasSelection(p) {
      CopyMenu(p, nav);
    } else {
      InspectOnlyMenu(p, nav);
    }
  }
}
