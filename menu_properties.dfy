/**
 * What the menu built by MenuPolicy.ContextMenu looks like, for every
 * snapshot and navigation state: which group appears when, how its items are
 * enabled, where the separator goes and that Inspect always ends the menu.
 */
module MenuProperties {
  import opened MenuPolicy

  /** Some item of the menu is wired to `a`. */
  predicate HasAction(m: seq<MenuEntry>, a: MenuAction)
  {
    exists i :: 0 <= i < |m| && m[i].Item? && m[i].action == a
  }

  /** No action is offered by two items of the menu. */
  predicate ActionsDistinct(m: seq<MenuEntry>)
  {
    forall i, j | 0 <= i < j < |m| && m[i].Item? && m[j].Item? :: m[i].action != m[j].action
  }

  /** Plain page content: the navigation group, its separator, Inspect. */
  lemma NavigationMenu(p: ContextMenuParams, nav: NavState)
    requires ShowsNavigationGroup(p)
    ensures ContextMenu(p, nav) ==
      [Item(Back, nav.canGoBack), Item(Forward, nav.canGoForward), Item(Reload, true),
       Separator, Item(Inspect, true)]
  {
  }

  /** An editable region: the four edit items, their separator, Inspect. */
  lemma EditMenu(p: ContextMenuParams, nav: NavState)
    requires p.isEditable
    ensures ContextMenu(p, nav) ==
      [Item(Cut, HasEditFlag(p.editFlags, CanCut)),
       Item(Copy, HasEditFlag(p.editFlags, CanCopy)),
       Item(Paste, HasEditFlag(p.editFlags, CanPaste)),
       Item(Delete, HasEditFlag(p.editFlags, CanDelete)),
       Separator, Item(Inspect, true)]
  {
  }

  /** A selection outside an editable region: a lone enabled Copy, its separator, Inspect. */
  lemma CopyMenu(p: ContextMenuParams, nav: NavState)
    requires ShowsCopyGroup(p)
    ensures ContextMenu(p, nav) == [Item(Copy, true), Separator, Item(Inspect, true)]
  {
  }

  /** Media or a link, with nothing selected or editable: Inspect alone. */
  lemma InspectOnlyMenu(p: ContextMenuParams, nav: NavState)
    requires !ShowsNavigationGroup(p) && !p.isEditable && !HasSelection(p)
    ensures ContextMenu(p, nav) == [Item(Inspect, true)]
    ensures p.mediaType != MediaTypeNone || HasLink(p)
  {
  }

  /**
   * Back, Forward and Reload appear exactly for plain page content (no media,
   * no link, no selection, not editable); they open the menu, in that order,
   * followed by one separator.
   */
  lemma NavigationGroupCondition(p: ContextMenuParams, nav: NavState)
    ensures ShowsNavigationGroup(p) <==> HasAction(ContextMenu(p, nav), Back)
    ensures ShowsNavigationGroup(p) <==> HasAction(ContextMenu(p, nav), Forward)
    ensures ShowsNavigationGroup(p) <==> HasAction(ContextMenu(p, nav), Reload)
    ensures ShowsNavigationGroup(p) ==>
      ContextMenu(p, nav)[..4] ==
        [Item(Back, nav.canGoBack), Item(Forward, nav.canGoForward), Item(Reload, true), Separator]
  {
    var m := ContextMenu(p, nav);
    if ShowsNavigationGroup(p) {
      NavigationMenu(p, nav);
      assert m[0].action == Back && m[1].action == Forward && m[2].action == Reload;
    } else if p.isEditable {
      EditMenu(p, nav);
    } else if HasSelection(p) {
      CopyMenu(p, nav);
    } else {
      InspectOnlyMenu(p, nav);
    }
  }

  /**
   * Back is enabled iff the controller can go back, Forward iff it can go
   * forward; Reload is never made insensitive.
   */
  lemma NavigationEnabling(p: ContextMenuParams, nav: NavState)
    ensures forall i | 0 <= i < |ContextMenu(p, nav)| && ContextMenu(p, nav)[i].Item? ::
      var e := ContextMenu(p, nav)[i];
      (e.action == Back ==> e.enabled == nav.canGoBack) &&
      (e.action == Forward ==> e.enabled == nav.canGoForward) &&
      (e.action == Reload ==> e.enabled)
  {
  }

  /**
   * An editable region gets Cut, Copy, Paste and Delete in that order, each
   * enabled iff its edit-flag bit is set, then one separator; Cut, Paste and
   * Delete appear in no other menu.
   */
  lemma EditGroupContents(p: ContextMenuParams, nav: NavState)
    ensures p.isEditable ==>
      ContextMenu(p, nav)[..5] ==
        [Item(Cut, HasEditFlag(p.editFlags, CanCut)),
         Item(Copy, HasEditFlag(p.editFlags, CanCopy)),
         Item(Paste, HasEditFlag(p.editFlags, CanPaste)),
         Item(Delete, HasEditFlag(p.editFlags, CanDelete)),
         Separator]
    ensures p.isEditable <==> HasAction(ContextMenu(p, nav), Cut)
    ensures p.isEditable <==> HasAction(ContextMenu(p, nav), Paste)
    ensures p.isEditable <==> HasAction(ContextMenu(p, nav), Delete)
  {
    var m := ContextMenu(p, nav);
    if ShowsNavigationGroup(p) {
      NavigationMenu(p, nav);
    } else if p.isEditable {
      EditMenu(p, nav);
      assert m[0].action == Cut && m[2].action == Paste && m[3].action == Delete;
    } else if HasSelection(p) {
      CopyMenu(p, nav);
    } else {
      InspectOnlyMenu(p, nav);
    }
  }

  /**
   * The lone, always-enabled Copy with its separator is the menu of a
   * selection outside an editable region, and of nothing else. Copy is
   * offered iff the region is editable or text is selected, and no action is
   * ever offered twice, so the edit group's Copy is never joined by the lone one.
   */
  lemma CopyOnlyGroup(p: ContextMenuParams, nav: NavState)
    ensures ShowsCopyGroup(p) <==>
      ContextMenu(p, nav) == [Item(Copy, true), Separator, Item(Inspect, true)]
    ensures HasAction(ContextMenu(p, nav), Copy) <==> p.isEditable || HasSelection(p)
    ensures ActionsDistinct(ContextMenu(p, nav))
  {
    var m := ContextMenu(p, nav);
    if ShowsNavigationGroup(p) {
      NavigationMenu(p, nav);
    } else if p.isEditable {
      EditMenu(p, nav);
      assert m[1].action == Copy;
    } else if HasSelection(p) {
      CopyMenu(p, nav);
      assert m[0].action == Copy;
    } else {
      InspectOnlyMenu(p, nav);
    }
  }

  /**
   * At most one of the three groups appears, and a group is always followed
   * by exactly one separator: the only place a separator can sit is right
   * before the final Inspect, it is there iff some group is shown, and every
   * entry before it is an item.
   */
  lemma GroupsExclusive(p: ContextMenuParams, nav: NavState)
    ensures !(HasAction(ContextMenu(p, nav), Back) && HasAction(ContextMenu(p, nav), Copy))
    ensures !(HasAction(ContextMenu(p, nav), Back) && HasAction(ContextMenu(p, nav), Cut))
    ensures forall i | 0 <= i < |ContextMenu(p, nav)| && ContextMenu(p, nav)[i] == Separator ::
      i == |ContextMenu(p, nav)| - 2
    ensures (ShowsNavigationGroup(p) || ShowsEditGroup(p) || ShowsCopyGroup(p)) <==>
      2 <= |ContextMenu(p, nav)| && ContextMenu(p, nav)[|ContextMenu(p, nav)| - 2] == Separator
    ensures forall i | 0 <= i < |ContextMenu(p, nav)| - 2 :: ContextMenu(p, nav)[i].Item?
  {
  }

  /**
   * Inspect ends every menu, enabled, and appears nowhere else. The menu is
   * Inspect alone exactly when there is no selection, nothing editable, and
   * the cursor is over media or a link.
   */
  lemma InspectLast(p: ContextMenuParams, nav: NavState)
    ensures ContextMenu(p, nav)[|ContextMenu(p, nav)| - 1] == Item(Inspect, true)
    ensures forall i | 0 <= i < |ContextMenu(p, nav)| - 1 ::
      !(ContextMenu(p, nav)[i].Item? && ContextMenu(p, nav)[i].action == Inspect)
    ensures ContextMenu(p, nav) == [Item(Inspect, true)] <==>
      !HasSelection(p) && !p.isEditable && (p.mediaType != MediaTypeNone || HasLink(p))
  {
  }

  /**
   * Every item is shown under its own label, so an entry can be identified by
   * its action: the two Copy items (edit group and lone Copy) share both the
   * label and the handler, and never appear together (CopyOnlyGroup).
   */
  lemma LabelsDistinct(a: MenuAction, b: MenuAction)
    ensures Label(a) == Label(b) <==> a == b
  {
  }

  /** Four concrete menus, one per kind of context. */
  lemma ContextMenuExamples()
    ensures ContextMenu(ContextMenuParams(MediaTypeNone, "", "", false, 0), NavState(true, false))
      == [Item(Back, true), Item(Forward, false), Item(Reload, true), Separator, Item(Inspect, true)]
    ensures ContextMenu(ContextMenuParams(MediaTypeNone, "", "", true, CanCopy | CanPaste), NavState(false, false))
      == [Item(Cut, false), Item(Copy, true), Item(Paste, true), Item(Delete, false),
          Separator, Item(Inspect, true)]
    ensures ContextMenu(ContextMenuParams(MediaTypeNone, "", "hello", false, 0), NavState(true, true))
      == [Item(Copy, true), Separator, Item(Inspect, true)]
    ensures ContextMenu(ContextMenuParams(MediaTypeImage, "", "", false, 0), NavState(true, true))
      == [Item(Inspect, true)]
  {
  }
}
