# Bundle shop model

A Dafny model of the data-bundle shop component `AlphatechNetUserInterface`
(file `server.ts`; despite its name the file holds a React component).
The component shows a fixed catalog of eight prepaid data bundles. The user
can filter it by type, page through it with "Load More", select a package,
and confirm a simulated purchase in a dialog.

- `packages.dfy` (module `Packages`): the `Package` record, the two package
  types, and the eight-entry `Catalog` (`dataPackages`).
- `views.dfy` (module `Views`): the values the component derives on every
  render, as pure functions.
  - `Filtered` is `filteredPackages`.
  - `Visible` is `visiblePackages`.
  - `LoadMoreOffered` is the condition under which the "Load More" button is rendered.
  - `SelectedPackage`/`FindById` is `selectedPackage`.
  - `DialogLine` and `Acknowledgement` are the texts the dialog and the
    purchase notice show.

  Lemmas about these functions state what the component promises.
- `selector.dfy` (module `Selector`): class `BundleSelector`.
  - Its fields are the four state variables: `filter`, `selected`, `openDialog` and `showAll`.
  - It has one method per event handler. Each method is one atomic update, and its
    postconditions give the whole new state.
  - `Valid()` is the invariant that a selection is always a catalog id and that
    the dialog is open only while something is selected.
  - Client methods run fixed event sequences against the class: paging
    under each filter, selecting and then buying a package, and a "Buy" click
    that also reaches the card.
- `wrappers.dfy`: `Option`, standing for `null`/`undefined`.

Modelling decisions:

- The filter is a string, as in `server.ts`. The toggle handler stores
  `val || "all"`, so a null or empty value becomes `"all"`. Any other
  string is stored as it is. A string that is neither `"all"` nor a type name
  matches no package (`FilteredUnknown`).
- When nothing is selected, the dialog renders `{label} ({type})` as `" ()"`.
  The purchase notice is a template literal, so it prints the missing label
  as `"undefined"`. Neither can happen from an open dialog: `Valid()` keeps
  a selection whenever the dialog is open (`Confirm`, `SelectionIsNamed`).
- The Package fields `label` and `type` are Dafny keywords. They are called
  `caption` and `kind` in the model.

## Model

| member | source | states |
|---|---|---|
| Views.Matches | server.ts:41-43 | the filter predicate: "all" or the package's type name; only a toggle value ("all", "limited", "unlimited") passes anything |
| Views.Keep | server.ts:41-43 | `Array.prototype.filter` over a package sequence with the filter predicate; its properties are the Keep lemmas below |
| Views.Filtered | server.ts:41-43 | `filteredPackages`: holds only catalog entries that pass the filter |
| Views.LoadMoreOffered | server.ts:141 | the "Load More" condition; when it holds a full page of 3 is rendered and more packages remain |
| Views.SelectedPackage | server.ts:40 | `selectedPackage`: when present, a catalog entry carrying the selected id |
| Views.DialogLine | server.ts:163-167 | the dialog's package line `{label} ({type})`; its properties are DialogShowsSelection, DialogWithoutSelection and SelectionIsNamed |
| Views.Acknowledgement | server.ts:177 | the purchase notice text; its properties are AcknowledgementNamesSelection, AcknowledgementWithoutSelection and SelectionIsNamed |
| Packages.CatalogIdsDistinct | server.ts:23-32 | no two catalog entries share an id |
| Packages.CatalogIds | server.ts:23-32 | the catalog lists ids 1..8 in order; every id and amount is positive |
| Views.KeepMembers | server.ts:41-43 | a package is in the filtered sequence iff it is in the source sequence and passes the filter (both directions) |
| Views.KeepCounts | server.ts:41-43 | filtering keeps each passing entry exactly as often as it occurs and drops every non-passing one |
| Views.KeepOrder | server.ts:41-43 | the filtered sequence is a subsequence of the source: the order is kept |
| Views.KeepSound | server.ts:41-43 | every entry the filter keeps is a source entry that passes |
| Views.KeepAll | server.ts:41-43 | when every entry passes, filtering returns the sequence unchanged |
| Views.KeepNone | server.ts:41-43 | when no entry passes, filtering returns the empty sequence |
| Views.FilteredExactly | server.ts:41-43 | `filteredPackages` is a subsequence of the catalog, holding exactly the passing entries, each as often as in the catalog |
| Views.FilteredAll | server.ts:41-43 | the filter "all" yields the whole catalog |
| Views.FilteredUnknown | server.ts:41-43 | a filter string that is neither "all" nor a type name yields nothing |
| Views.FilteredLimited | server.ts:23-43 | "limited" yields packages 1, 2, 3, 5, 7 in that order |
| Views.FilteredUnlimited | server.ts:23-43 | "unlimited" yields packages 4, 6, 8 in that order |
| Views.KeepLimited | server.ts:23-43 | filtering the catalog by "limited" gives packages 1, 2, 3, 5, 7 |
| Views.KeepUnlimited | server.ts:23-43 | filtering the catalog by "unlimited" gives packages 4, 6, 8 |
| Views.Visible | server.ts:44 | the rendered list is a prefix of the filtered list, of full length with `showAll` and of length min(3, filtered length) without it |
| Views.VisibleMatches | server.ts:41-44 | every rendered card is a catalog entry passing the filter |
| Views.VisiblePage | server.ts:44 | with `showAll` the rendered list is the filtered list; without it at most 3 packages are rendered |
| Views.LoadMoreIffHidden | server.ts:141 | "Load More" is rendered iff some filtered package is not rendered |
| Views.UnlimitedFitsOnePage | server.ts:141 | under "unlimited" "Load More" is never rendered and all three packages are shown |
| Views.FindById | server.ts:40 | a found package is in the sequence and carries the selected id |
| Views.FindByIdFound | server.ts:40 | the lookup finds a package iff some entry carries the selected id (so never for null) |
| Views.FindDistinct | server.ts:40 | with distinct ids the lookup returns the one entry carrying the id |
| Views.SelectedPackageIsUnique | server.ts:40 | `selectedPackage` is present iff the selection is a catalog id, and is then the unique catalog entry with that id |
| Views.DialogShowsSelection | server.ts:163-167 | the dialog shows the selected package's label followed by its type in parentheses |
| Views.SelectionIsNamed | server.ts:163-179 | once a catalog id is selected, the dialog line and the notice both name that package (never " ()" or "undefined") |
| Views.DialogWithoutSelection | server.ts:166 | without a selection the dialog renders the package fields as nothing |
| Views.AcknowledgementNamesSelection | server.ts:177 | the purchase notice names the selected package's label |
| Views.AcknowledgementWithoutSelection | server.ts:177 | without a selection the notice prints the label as "undefined" |
| Views.DialogLineOfPackage8 | server.ts:166 | package 8 is shown as "Ksh 100 (unlimited)" |
| Views.AcknowledgementOfPackage8 | server.ts:177 | buying package 8 is acknowledged as "Purchased Ksh 100 successfully!" |
| Selector.BundleSelector.constructor | server.ts:35-38 | initial state: filter "all", nothing selected, dialog closed, first page only |
| Selector.BundleSelector.ChangeFilter | server.ts:82-85 | the filter becomes the emitted value, or "all" for null or empty; `showAll` is reset so at most one page is rendered; selection and dialog unchanged |
| Selector.BundleSelector.ClickCard | server.ts:110 | a rendered card's click selects that package, overwriting any earlier selection, so `selectedPackage` is that package; nothing else changes |
| Selector.BundleSelector.Buy | server.ts:127-131 | "Buy" selects the package and opens the dialog, which then shows that package; filter and paging unchanged |
| Selector.BundleSelector.LoadMore | server.ts:141-149 | offered only while packages are hidden; afterwards the whole filtered list is rendered and the button is gone; the invariant holds; nothing else changes |
| Selector.BundleSelector.Cancel | server.ts:171 | the dialog closes; the invariant holds; selection, filter and paging unchanged |
| Selector.BundleSelector.Confirm | server.ts:174-179 | returns the purchase notice for the current selection and closes the dialog; from an open dialog a selection exists and the notice names that catalog package's label; selection, filter and paging unchanged |
| Selector.BundleSelector.SetDialogOpen | server.ts:155 | the dialog's binding sets `openDialog` to the given value, keeps the invariant and changes nothing else |
| Selector.BuyThenCardClick | server.ts:127-131 | if a "Buy" click also reached the card, the card handler would leave the state Buy produced |
| Selector.PagingAllScenario | server.ts:41-146 | from a fresh component "all" renders ids 1,2,3, and 1..8 after Load More |
| Selector.PagingLimitedScenario | server.ts:41-146 | "limited" renders ids 1,2,3, and 1,2,3,5,7 after Load More |
| Selector.PagingUnlimitedScenario | server.ts:41-146 | "unlimited" renders ids 4,6,8 at once and offers no Load More |
| Selector.PurchaseScenario | server.ts:110-179 | selecting 4 under "unlimited" and then buying 8 shows "Ksh 100 (unlimited)"; Confirm acknowledges "Purchased Ksh 100 successfully!", closes the dialog and keeps selection 8 |

## Left out

- Layout, CSS classes, the welcome text and the highlight of the selected card (server.ts:47-75, 105-109): presentation only.
- The animated bubbles (server.ts:49-61): they use `Math.random()` and floating point, and are visual only.
- The `alert` call (server.ts:177): it is browser I/O. `Confirm` returns the text it would show.
- The badge's capitalised type name (server.ts:115-122): display formatting only.
- The UI widget library (`@/components/ui/*`, server.ts:2-21) is not part of this model.
  - The toggle group is taken to emit a string or null.
  - The dialog's `onOpenChange` is taken to call `SetDialogOpen` with a boolean.
    No `DialogTrigger` is rendered, so the dialog is never asked to open while
    nothing is selected; `SetDialogOpen` requires that.
  - Cards and buttons are taken to invoke their `onClick` handlers.
- React re-rendering and `useState` batching: each handler is one atomic update of the state.
- `Array.prototype.filter`, `find` and `slice` are library calls. They are modelled as pure functions (`Keep`, `FindById`, `Visible`), not as loops.
