/**
 * The state of the bundle shop component (`AlphatechNetUserInterface`) and
 * its event handlers. Each handler is one atomic update of the four state
 * variables; re-rendering recomputes the views of module Views from them.
 */
module Selector {
  import opened Wrappers
  import opened Packages
  import opened Views

  class BundleSelector {
    /** The filter toggle's value; "all" unless a type name was chosen. */
    var filter: string
    /** The id of the highlighted package, if any. */
    var selected: Option<int>
    /** Whether the confirmation dialog is open. */
    var openDialog: bool
    /** Whether the whole filtered list is rendered rather than its first page. */
    var showAll: bool

    /**
     * A selection, when present, is the id of a catalog entry, and the dialog
     * is open only with something selected (it renders no trigger of its own,
     * so only "Buy" opens it).
     */
    ghost predicate Valid()
      reads this
    {
      (selected.None? || selected.value in IdSet(Catalog)) &&
      (openDialog ==> selected.Some?)
    }

    /** The initial state: every package type, nothing selected, dialog closed, one page. */
    constructor ()
      ensures Valid()
      ensures filter == "all" && selected == None && !openDialog && !showAll
    {
      filter := "all";
      selected := None;
      openDialog := false;
      showAll := false;
    }

    /**
     * The filter toggle's change handler. A null or empty value (the toggle
     * being cleared) means "all"; the list collapses back to its first page.
     */
    method ChangeFilter(val: Option<string>)
      requires Valid()
      modifies this
      ensures Valid()
      ensures filter == (if val == None || val == Some("") then "all" else val.value)
      ensures !showAll && |Visible(filter, showAll)| <= PageSize
      ensures selected == old(selected) && openDialog == old(openDialog)
    {
      filter := if val == None || val == Some("") then "all" else val.value;
      showAll := false;
    }

    /** A click on the card of a rendered package selects it, replacing any earlier selection. */
    method ClickCard(p: Package)
      requires Valid()
      requires p in Visible(filter, showAll)
      modifies this
      ensures Valid()
      ensures selected == Some(p.id) && SelectedPackage(selected) == Some(p)
      ensures filter == old(filter) && openDialog == old(openDialog) && showAll == old(showAll)
    {
      VisibleMatches(filter, showAll, p);
      SelectedPackageIsUnique(Some(p.id));
      selected := Some(p.id);
    }

    /**
     * The "Buy" button of a rendered package: it selects the package and opens
     * the dialog, which then shows that package. The event does not reach the
     * card's own click handler.
     */
    method Buy(p: Package)
      requires Valid()
      requires p in Visible(filter, showAll)
      modifies this
      ensures Valid()
      ensures selected == Some(p.id) && openDialog
      ensures SelectedPackage(selected) == Some(p)
      ensures DialogLine(selected) == p.caption + " (" + p.kind.Name() + ")"
      ensures filter == old(filter) && showAll == old(showAll)
    {
      VisibleMatches(filter, showAll, p);
      SelectedPackageIsUnique(Some(p.id));
      DialogShowsSelection(p);
      selected := Some(p.id);
      openDialog := true;
    }

    /** "Load More Packages", offered only while part of the filtered list is hidden, reveals all of it. */
    method LoadMore()
      requires Valid()
      requires LoadMoreOffered(filter, showAll)
      modifies this
      ensures Valid()
      ensures showAll && Visible(filter, showAll) == Filtered(filter)
      ensures !LoadMoreOffered(filter, showAll)
      ensures filter == old(filter) && selected == old(selected) && openDialog == old(openDialog)
    {
      showAll := true;
    }

    /** The dialog's "Cancel" button closes it and keeps the selection. */
    method Cancel()
      requires Valid()
      modifies this
      ensures Valid()
      ensures !openDialog
      ensures filter == old(filter) && selected == old(selected) && showAll == old(showAll)
    {
      openDialog := false;
    }

    /**
     * The dialog's "Confirm" button: it acknowledges the purchase of the
     * selected package (the text is returned instead of shown) and closes the
     * dialog, keeping the selection. Confirming from the open dialog always
     * names the selected catalog package.
     */
    method Confirm() returns (ack: string)
      requires Valid()
      modifies this
      ensures Valid()
      ensures ack == Acknowledgement(selected)
      ensures old(openDialog) ==> selected.Some?
      ensures selected.Some? ==>
        SelectedPackage(selected).Some? &&
        ack == "Purchased " + SelectedPackage(selected).value.caption + " successfully!"
      ensures !openDialog
      ensures filter == old(filter) && selected == old(selected) && showAll == old(showAll)
    {
      if selected.Some? {
        SelectionIsNamed(selected);
      }
      ack := Acknowledgement(selected);
      openDialog := false;
    }

    /**
     * The dialog's own open/close binding, used when it is dismissed from
     * outside. With no trigger rendered it is never asked to open the dialog
     * while nothing is selected.
     */
    method SetDialogOpen(open: bool)
      requires Valid()
      requires open ==> selected.Some?
      modifies this
      ensures Valid()
      ensures openDialog == open
      ensures filter == old(filter) && selected == old(selected) && showAll == old(showAll)
    {
      openDialog := open;
    }
  }

  /**
   * Were the "Buy" click to reach the card as well, the card's handler would
   * leave the state "Buy" produced unchanged.
   */
  method BuyThenCardClick(ui: BundleSelector, p: Package)
    requires ui.Valid()
    requires p in Visible(ui.filter, ui.showAll)
    modifies ui
    ensures ui.Valid()
    ensures ui.selected == Some(p.id) && ui.openDialog
    ensures ui.filter == old(ui.filter) && ui.showAll == old(ui.showAll)
  {
    ui.Buy(p);
    ui.ClickCard(p);
  }

  /** Paging under "all" from a fresh component: ids rendered before and after "Load More". */
  method PagingAllScenario() returns (before: seq<int>, after: seq<int>)
    ensures before == [1, 2, 3] && after == [1, 2, 3, 4, 5, 6, 7, 8]
  {
    var ui := new BundleSelector();
    FilteredAll();
    CatalogIds();
    before := IdList(Visible(ui.filter, ui.showAll));
    ui.LoadMore();
    after := IdList(Visible(ui.filter, ui.showAll));
  }

  /** Paging under "limited": ids rendered before and after "Load More". */
  method PagingLimitedScenario() returns (before: seq<int>, after: seq<int>)
    ensures before == [1, 2, 3] && after == [1, 2, 3, 5, 7]
  {
    var ui := new BundleSelector();
    ui.ChangeFilter(Some("limited"));
    FilteredLimited();
    before := IdList(Visible(ui.filter, ui.showAll));
    ui.LoadMore();
    after := IdList(Visible(ui.filter, ui.showAll));
  }

  /** Under "unlimited" all three packages are rendered at once and "Load More" is not offered. */
  method PagingUnlimitedScenario() returns (shown: seq<int>, offered: bool)
    ensures shown == [4, 6, 8] && !offered
  {
    var ui := new BundleSelector();
    ui.ChangeFilter(Some("unlimited"));
    FilteredUnlimited();
    shown := IdList(Visible(ui.filter, ui.showAll));
    offered := LoadMoreOffered(ui.filter, ui.showAll);
  }

  /**
   * Selecting id 4 under the unlimited filter and then buying id 8: the
   * selection is 8, the dialog is open and shows "Ksh 100 (unlimited)";
   * confirming closes it and acknowledges that package, keeping the selection.
   */
  method PurchaseScenario() returns (line: string, ack: string, sel: Option<int>, open: bool)
    ensures line == "Ksh 100 (unlimited)"
    ensures ack == "Purchased Ksh 100 successfully!"
    ensures sel == Some(8) && !open
  {
    var ui := new BundleSelector();
    ui.ChangeFilter(Some("unlimited"));
    UnlimitedFitsOnePage(false);
    FilteredUnlimited();
    assert Visible(ui.filter, ui.showAll) == [Pkg4, Pkg6, Pkg8];
    ui.ClickCard(Pkg4);
    ui.Buy(Pkg8);
    DialogLineOfPackage8();
    AcknowledgementOfPackage8();
    line := DialogLine(ui.selected);
    ack := ui.Confirm();
    sel, open := ui.selected, ui.openDialog;
  }
}
