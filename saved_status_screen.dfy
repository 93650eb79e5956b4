/**
 * The saved-statuses screen's multi-selection: selection mode, the set of
 * selected paths, the delete dialog and the single path pending deletion.
 */
module SavedStatusScreen {
  import opened Wrappers
  import opened StatusItems

  /** The paths of a list, as a set (`map { it.path }.toSet()`). */
  function PathSet(statuses: seq<StatusItem>): set<string> {
    set x | x in statuses :: x.path
  }

  predicate DistinctPaths(statuses: seq<StatusItem>) {
    forall i, j :: 0 <= i < j < |statuses| ==> statuses[i].path != statuses[j].path
  }

  /** With distinct paths the path set has one element per item. */
  lemma {:induction false} DistinctPathCount(statuses: seq<StatusItem>)
    requires DistinctPaths(statuses)
    ensures |PathSet(statuses)| == |statuses|
  {
    if statuses != [] {
      var rest := statuses[1..];
      assert DistinctPaths(rest) by {
        forall i, j | 0 <= i < j < |rest| ensures rest[i].path != rest[j].path {
          assert rest[i] == statuses[i + 1] && rest[j] == statuses[j + 1];
        }
      }
      DistinctPathCount(rest);
      assert PathSet(statuses) == {statuses[0].path} + PathSet(rest) by {
        forall p ensures p in PathSet(statuses) <==> p in {statuses[0].path} + PathSet(rest) {
          if p in PathSet(statuses) {
            var x :| x in statuses && x.path == p;
            if x != statuses[0] {
              var k :| 0 <= k < |statuses| && statuses[k] == x;
              assert rest[k - 1] == x;
            }
          }
        }
      }
      assert statuses[0].path !in PathSet(rest);
    }
  }

  /** A strict subset is strictly smaller. */
  lemma StrictSubsetSmaller(a: set<string>, b: set<string>)
    requires a < b
    ensures |a| < |b|
  {
    var d := b - a;
    assert d != {} by {
      var p :| p in b && p !in a;
      assert p in d;
    }
    assert b == a + d && a * d == {};
  }

  /** A click in selection mode flips the path's membership. */
  function Toggled(selected: set<string>, path: string): (r: set<string>)
    ensures path in r <==> path !in selected
    ensures forall p :: p != path ==> (p in r <==> p in selected)
  {
    if path in selected then selected - {path} else selected + {path}
  }

  /** Toggling the same path twice restores the selection. */
  lemma ToggledTwice(selected: set<string>, path: string)
    ensures Toggled(Toggled(selected, path), path) == selected
  {
  }

  /** Select-all clears a selection as large as the list, and otherwise selects every path of the list. */
  function SelectAllOf(selected: set<string>, statuses: seq<StatusItem>): set<string> {
    if |selected| == |statuses| then {} else PathSet(statuses)
  }

  /**
   * On a list with distinct paths, select-all after select-all has selected
   * everything clears the selection, and select-all on a partial selection
   * selects exactly the list's paths.
   */
  lemma SelectAllToggles(selected: set<string>, statuses: seq<StatusItem>)
    requires DistinctPaths(statuses)
    ensures SelectAllOf(PathSet(statuses), statuses) == {}
    ensures |selected| != |statuses| ==> SelectAllOf(selected, statuses) == PathSet(statuses)
    ensures selected < PathSet(statuses) ==> SelectAllOf(selected, statuses) == PathSet(statuses)
  {
    DistinctPathCount(statuses);
    if selected < PathSet(statuses) {
      StrictSubsetSmaller(selected, PathSet(statuses));
    }
  }

  /** What confirming the dialog asks the view model to delete. */
  datatype DeleteRequest = DeleteMany(paths: set<string>) | DeleteOne(path: string) | NoDelete

  /**
   * The events the screen can receive while selection mode is off: a press
   * on a card, a card's delete button, the dialog's dismiss, confirm and
   * cancel, and back. The top bar's select-all and delete buttons are shown
   * only in selection mode.
   */
  datatype DeliveredEvent = Press(path: string) | CardDelete(path: string) | Dismiss | Confirm | Cancel | BackPressed

  class SelectionState {
    var isSelectionMode: bool
    var selectedItems: set<string>
    var showDeleteDialog: bool
    var selectedStatusForDelete: Option<string>

    /** Nothing is selected outside selection mode. */
    ghost predicate Valid()
      reads this
    {
      selectedItems != {} ==> isSelectionMode
    }

    constructor()
      ensures Valid()
      ensures !isSelectionMode && selectedItems == {} && !showDeleteDialog && selectedStatusForDelete == None
    {
      isSelectionMode := false;
      selectedItems := {};
      showDeleteDialog := false;
      selectedStatusForDelete := None;
    }

    /**
     * The card's long-click handler: it enters selection mode and selects
     * the item. The card never attaches this handler to a gesture, so this
     * is the intended behaviour, not one the screen can reach.
     */
    method LongClick(path: string)
      modifies this
      ensures Valid()
      ensures isSelectionMode && selectedItems == old(selectedItems) + {path}
      ensures showDeleteDialog == old(showDeleteDialog) && selectedStatusForDelete == old(selectedStatusForDelete)
    {
      isSelectionMode := true;
      selectedItems := selectedItems + {path};
    }

    /** A click toggles the item in selection mode and leaves the selection alone otherwise. */
    method Click(path: string)
      requires Valid()
      modifies this
      ensures Valid()
      ensures isSelectionMode == old(isSelectionMode)
      ensures selectedItems == if old(isSelectionMode) then Toggled(old(selectedItems), path) else old(selectedItems)
      ensures showDeleteDialog == old(showDeleteDialog) && selectedStatusForDelete == old(selectedStatusForDelete)
    {
      if isSelectionMode {
        selectedItems := if path in selectedItems then selectedItems - {path} else selectedItems + {path};
      }
    }

    /** The select-all button, shown only in selection mode. */
    method SelectAll(statuses: seq<StatusItem>)
      requires Valid() && isSelectionMode
      modifies this
      ensures Valid()
      ensures selectedItems == SelectAllOf(old(selectedItems), statuses)
      ensures isSelectionMode
      ensures showDeleteDialog == old(showDeleteDialog) && selectedStatusForDelete == old(selectedStatusForDelete)
    {
      selectedItems := if |selectedItems| == |statuses| then {} else PathSet(statuses);
    }

    /** Back leaves selection mode (clearing the selection) or, outside it, navigates away. */
    method Back() returns (navigateBack: bool)
      requires Valid()
      modifies this
      ensures Valid()
      ensures navigateBack <==> !old(isSelectionMode)
      ensures !isSelectionMode
      ensures old(isSelectionMode) ==> selectedItems == {}
      ensures !old(isSelectionMode) ==> selectedItems == old(selectedItems)
      ensures showDeleteDialog == old(showDeleteDialog) && selectedStatusForDelete == old(selectedStatusForDelete)
    {
      if isSelectionMode {
        isSelectionMode := false;
        selectedItems := {};
        navigateBack := false;
      } else {
        navigateBack := true;
      }
    }

    /** The top bar's delete button, shown only in selection mode. */
    method DeleteSelectedClick()
      requires Valid() && isSelectionMode
      modifies this
      ensures Valid()
      ensures showDeleteDialog
      ensures isSelectionMode && selectedItems == old(selectedItems)
      ensures selectedStatusForDelete == old(selectedStatusForDelete)
    {
      showDeleteDialog := true;
    }

    /** A card's own delete button marks its path and opens the dialog. */
    method CardDeleteClick(path: string)
      requires Valid()
      modifies this
      ensures Valid()
      ensures showDeleteDialog && selectedStatusForDelete == Some(path)
      ensures isSelectionMode == old(isSelectionMode) && selectedItems == old(selectedItems)
    {
      selectedStatusForDelete := Some(path);
      showDeleteDialog := true;
    }

    /** Dismissing the dialog closes it and keeps the pending path. */
    method DismissDialog()
      requires Valid()
      modifies this
      ensures Valid()
      ensures !showDeleteDialog
      ensures isSelectionMode == old(isSelectionMode) && selectedItems == old(selectedItems)
      ensures selectedStatusForDelete == old(selectedStatusForDelete)
    {
      showDeleteDialog := false;
    }

    /**
     * Confirm deletes the whole selection (and leaves selection mode) when
     * there is one, and otherwise the pending path, if any; the dialog
     * closes and the pending path is cleared either way.
     */
    method ConfirmDelete() returns (request: DeleteRequest)
      requires Valid()
      modifies this
      ensures Valid()
      ensures old(selectedItems) != {} ==> request == DeleteMany(old(selectedItems)) &&
                                           selectedItems == {} && !isSelectionMode
      ensures old(selectedItems) == {} ==> selectedItems == {} && isSelectionMode == old(isSelectionMode) &&
                                           request == (if old(selectedStatusForDelete).Some?
                                                       then DeleteOne(old(selectedStatusForDelete).value)
                                                       else NoDelete)
      ensures !showDeleteDialog && selectedStatusForDelete == None
    {
      if selectedItems != {} {
        request := DeleteMany(selectedItems);
        selectedItems := {};
        isSelectionMode := false;
      } else {
        match selectedStatusForDelete
        case Some(path) => request := DeleteOne(path);
        case None => request := NoDelete;
      }
      showDeleteDialog := false;
      selectedStatusForDelete := None;
    }

    /** Cancel closes the dialog and forgets the pending path without deleting. */
    method CancelDelete()
      requires Valid()
      modifies this
      ensures Valid()
      ensures !showDeleteDialog && selectedStatusForDelete == None
      ensures isSelectionMode == old(isSelectionMode) && selectedItems == old(selectedItems)
    {
      showDeleteDialog := false;
      selectedStatusForDelete := None;
    }

    /** The card's one attached gesture, a click, whether the press is short or long. */
    method CardPress(path: string)
      requires Valid()
      modifies this
      ensures Valid()
      ensures isSelectionMode == old(isSelectionMode)
      ensures selectedItems == if old(isSelectionMode) then Toggled(old(selectedItems), path) else old(selectedItems)
      ensures showDeleteDialog == old(showDeleteDialog) && selectedStatusForDelete == old(selectedStatusForDelete)
    {
      Click(path);
    }

    /**
     * The screen as written, run over the events it can deliver: selection
     * mode is never entered, nothing is ever selected, and confirming never
     * asks to delete a selection.
     */
    method DeliveredEvents(events: seq<DeliveredEvent>) returns (requests: seq<DeleteRequest>)
      requires Valid() && !isSelectionMode && selectedItems == {}
      modifies this
      ensures Valid() && !isSelectionMode && selectedItems == {}
      ensures forall k :: 0 <= k < |requests| ==> !requests[k].DeleteMany?
    {
      requests := [];
      for i := 0 to |events|
        invariant Valid() && !isSelectionMode && selectedItems == {}
        invariant forall k :: 0 <= k < |requests| ==> !requests[k].DeleteMany?
      {
        match events[i]
        case Press(path) => CardPress(path);
        case CardDelete(path) => CardDeleteClick(path);
        case Dismiss => DismissDialog();
        case Confirm =>
          var request := ConfirmDelete();
          requests := requests + [request];
        case Cancel => CancelDelete();
        case BackPressed =>
          var navigateBack := Back();
      }
    }
  }

  /** On a fresh screen, a press on a card, short or long, selects nothing. */
  method PressOnFreshScreen(path: string) returns (selecting: bool, selected: set<string>)
    ensures !selecting && selected == {}
  {
    var screen := new SelectionState();
    screen.CardPress(path);
    selecting, selected := screen.isSelectionMode, screen.selectedItems;
  }

  /** On a fresh screen, the long-click handler, were it attached, would select just that card. */
  method LongClickOnFreshScreen(path: string) returns (selecting: bool, selected: set<string>)
    ensures selecting && selected == {path}
  {
    var screen := new SelectionState();
    screen.LongClick(path);
    selecting, selected := screen.isSelectionMode, screen.selectedItems;
  }
}
