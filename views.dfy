/**
 * The values the bundle shop derives from its state on every render:
 * the filtered list, the visible page of it, whether "Load More" is offered,
 * the selected package, and the texts the confirmation dialog and the purchase
 * acknowledgement show.
 */
module Views {
  import opened Wrappers
  import opened Packages

  /** Number of packages shown before "Load More" is used. */
  const PageSize: nat := 3

  /** The values the filter toggle offers. */
  const FilterValues: set<string> := {"all", "limited", "unlimited"}

  /** A package passes filter `f` when `f` is "all" or names its type; only a toggle value can pass anything. */
  predicate Matches(f: string, p: Package)
    ensures Matches(f, p) ==> f in FilterValues
  {
    f == "all" || p.kind.Name() == f
  }

  /** The entries of `s` that pass filter `f`, in their order in `s`. */
  function Keep(s: seq<Package>, f: string): seq<Package> {
    if s == [] then []
    else if Matches(f, s[0]) then [s[0]] + Keep(s[1..], f)
    else Keep(s[1..], f)
  }

  /** `r` is obtained from `s` by deleting entries, keeping the order of the rest. */
  ghost predicate IsSubsequence(r: seq<Package>, s: seq<Package>)
    decreases |s|
  {
    r == [] ||
    (s != [] && ((r[0] == s[0] && IsSubsequence(r[1..], s[1..])) || IsSubsequence(r, s[1..])))
  }

  /** The catalog filtered by `f` (`filteredPackages`): only catalog entries that pass. */
  function Filtered(f: string): (r: seq<Package>)
    ensures forall p :: p in r ==> p in Catalog && Matches(f, p)
  {
    KeepSound(Catalog, f);
    Keep(Catalog, f)
  }

  function Min(a: int, b: int): int {
    if a <= b then a else b
  }

  /** The packages rendered as cards (`visiblePackages`): everything, or the first page. */
  function Visible(f: string, showAll: bool): (r: seq<Package>)
    ensures r <= Filtered(f)
    ensures |r| == if showAll then |Filtered(f)| else Min(PageSize, |Filtered(f)|)
  {
    var all := Filtered(f);
    if showAll then all else all[..Min(PageSize, |all|)]
  }

  /**
   * Whether the "Load More Packages" button is rendered; when it is, a full
   * page is shown and more packages remain.
   */
  predicate LoadMoreOffered(f: string, showAll: bool)
    ensures LoadMoreOffered(f, showAll) ==> |Visible(f, showAll)| == PageSize < |Filtered(f)|
  {
    !showAll && |Filtered(f)| > PageSize
  }

  /** The first entry of `s` whose id is `sel` (`Array.prototype.find`); none when `sel` is null. */
  function FindById(s: seq<Package>, sel: Option<int>): (r: Option<Package>)
    ensures r.Some? ==> r.value in s && sel == Some(r.value.id)
  {
    if s == [] then None
    else if sel == Some(s[0].id) then Some(s[0])
    else FindById(s[1..], sel)
  }

  /** The package the dialog and the acknowledgement refer to (`selectedPackage`): a catalog entry carrying the selected id. */
  function SelectedPackage(sel: Option<int>): (r: Option<Package>)
    ensures r.Some? ==> r.value in Catalog && sel == Some(r.value.id)
  {
    FindById(Catalog, sel)
  }

  /**
   * The line the confirmation dialog shows under "You are about to purchase:",
   * `{label} ({type})`; React renders an undefined value as nothing.
   */
  function DialogLine(sel: Option<int>): string {
    match SelectedPackage(sel)
    case Some(p) => p.caption + " (" + p.kind.Name() + ")"
    case None => " ()"
  }

  /**
   * The text of the purchase acknowledgement; a template literal prints an
   * undefined label as "undefined".
   */
  function Acknowledgement(sel: Option<int>): string {
    var shown := match SelectedPackage(sel)
      case Some(p) => p.caption
      case None => "undefined";
    "Purchased " + shown + " successfully!"
  }

  // ---------------------------------------------------------------------------
  // Filtering

  /** Filtering keeps exactly the entries that pass the filter. */
  lemma {:induction false} KeepMembers(s: seq<Package>, f: string, p: Package)
    ensures p in Keep(s, f) <==> p in s && Matches(f, p)
  {
    if s != [] {
      KeepMembers(s[1..], f, p);
      assert p in s <==> p == s[0] || p in s[1..];
    }
  }

  /** Filtering keeps each passing entry as often as it occurs, and drops every other one. */
  lemma {:induction false} KeepCounts(s: seq<Package>, f: string, p: Package)
    ensures multiset(Keep(s, f))[p] == if Matches(f, p) then multiset(s)[p] else 0
  {
    if s != [] {
      KeepCounts(s[1..], f, p);
      assert s == [s[0]] + s[1..];
      assert multiset(s) == multiset([s[0]]) + multiset(s[1..]);
      if Matches(f, s[0]) {
        assert multiset(Keep(s, f)) == multiset([s[0]]) + multiset(Keep(s[1..], f));
      }
    }
  }

  /** Filtering keeps the order of the source sequence. */
  lemma {:induction false} KeepOrder(s: seq<Package>, f: string)
    ensures IsSubsequence(Keep(s, f), s)
  {
    if s != [] {
      KeepOrder(s[1..], f);
      var r := Keep(s, f);
      if Matches(f, s[0]) {
        assert r[0] == s[0] && r[1..] == Keep(s[1..], f);
      } else if r != [] {
        assert IsSubsequence(r, s[1..]);
      }
    }
  }

  /** Every entry filtering keeps is an entry of the source that passes. */
  lemma KeepSound(s: seq<Package>, f: string)
    ensures forall p :: p in Keep(s, f) ==> p in s && Matches(f, p)
  {
    forall p | p in Keep(s, f) ensures p in s && Matches(f, p) {
      KeepMembers(s, f, p);
    }
  }

  /** When every entry passes, filtering changes nothing. */
  lemma {:induction false} KeepAll(s: seq<Package>, f: string)
    requires forall p :: p in s ==> Matches(f, p)
    ensures Keep(s, f) == s
  {
    if s != [] {
      KeepAll(s[1..], f);
      assert s == [s[0]] + s[1..];
    }
  }

  /** When no entry passes, filtering leaves nothing. */
  lemma {:induction false} KeepNone(s: seq<Package>, f: string)
    requires forall p :: p in s ==> !Matches(f, p)
    ensures Keep(s, f) == []
  {
    if s != [] {
      KeepNone(s[1..], f);
    }
  }

  /**
   * `filteredPackages` holds exactly the catalog entries passing the filter,
   * each once, in catalog order.
   */
  lemma FilteredExactly(f: string)
    ensures IsSubsequence(Filtered(f), Catalog)
    ensures forall p :: p in Filtered(f) <==> p in Catalog && Matches(f, p)
    ensures forall p :: multiset(Filtered(f))[p] == if Matches(f, p) then multiset(Catalog)[p] else 0
  {
    KeepOrder(Catalog, f);
    forall p ensures p in Filtered(f) <==> p in Catalog && Matches(f, p) {
      KeepMembers(Catalog, f, p);
    }
    forall p ensures multiset(Filtered(f))[p] == if Matches(f, p) then multiset(Catalog)[p] else 0 {
      KeepCounts(Catalog, f, p);
    }
  }

  /** The filter "all" shows the whole catalog. */
  lemma FilteredAll()
    ensures Filtered("all") == Catalog
  {
    KeepAll(Catalog, "all");
  }

  /** A filter value that names no type shows nothing. */
  lemma FilteredUnknown(f: string)
    requires f !in FilterValues
    ensures Filtered(f) == []
  {
    KeepNone(Catalog, f);
  }

  /** One filtering step: the head is kept exactly when it passes. */
  lemma KeepStep(s: seq<Package>, f: string)
    requires s != []
    ensures Keep(s, f) == (if Matches(f, s[0]) then [s[0]] else []) + Keep(s[1..], f)
  {
  }

  /** The limited filter shows the packages with ids 1, 2, 3, 5 and 7, in that order. */
  lemma FilteredLimited()
    ensures Filtered("limited") == [Pkg1, Pkg2, Pkg3, Pkg5, Pkg7]
    ensures IdList(Filtered("limited")) == [1, 2, 3, 5, 7]
  {
    KeepLimited();
  }

  /** Filtering the catalog by "limited", one entry at a time. */
  lemma KeepLimited()
    ensures Keep(Catalog, "limited") == [Pkg1, Pkg2, Pkg3, Pkg5, Pkg7]
  {
    var f, c := "limited", Catalog;
    KeepStep(c[7..], f);
    assert Keep(c[7..], f) == [];
    KeepStep(c[6..], f);
    assert Keep(c[6..], f) == [Pkg7];
    KeepStep(c[5..], f);
    assert Keep(c[5..], f) == [Pkg7];
    KeepStep(c[4..], f);
    assert Keep(c[4..], f) == [Pkg5, Pkg7];
    KeepStep(c[3..], f);
    assert Keep(c[3..], f) == [Pkg5, Pkg7];
    KeepStep(c[2..], f);
    assert Keep(c[2..], f) == [Pkg3, Pkg5, Pkg7];
    KeepStep(c[1..], f);
    assert Keep(c[1..], f) == [Pkg2, Pkg3, Pkg5, Pkg7];
    KeepStep(c, f);
  }

  /** The unlimited filter shows the packages with ids 4, 6 and 8, in that order. */
  lemma FilteredUnlimited()
    ensures Filtered("unlimited") == [Pkg4, Pkg6, Pkg8]
    ensures IdList(Filtered("unlimited")) == [4, 6, 8]
  {
    KeepUnlimited();
  }

  /** Filtering the catalog by "unlimited", one entry at a time. */
  lemma KeepUnlimited()
    ensures Keep(Catalog, "unlimited") == [Pkg4, Pkg6, Pkg8]
  {
    var f, c := "unlimited", Catalog;
    KeepStep(c[7..], f);
    assert Keep(c[7..], f) == [Pkg8];
    KeepStep(c[6..], f);
    assert Keep(c[6..], f) == [Pkg8];
    KeepStep(c[5..], f);
    assert Keep(c[5..], f) == [Pkg6, Pkg8];
    KeepStep(c[4..], f);
    assert Keep(c[4..], f) == [Pkg6, Pkg8];
    KeepStep(c[3..], f);
    assert Keep(c[3..], f) == [Pkg4, Pkg6, Pkg8];
    KeepStep(c[2..], f);
    assert Keep(c[2..], f) == [Pkg4, Pkg6, Pkg8];
    KeepStep(c[1..], f);
    assert Keep(c[1..], f) == [Pkg4, Pkg6, Pkg8];
    KeepStep(c, f);
  }

  // ---------------------------------------------------------------------------
  // Pagination

  /** Every rendered card is a catalog entry passing the filter. */
  lemma VisibleMatches(f: string, showAll: bool, p: Package)
    requires p in Visible(f, showAll)
    ensures p in Catalog && Matches(f, p)
  {
  }

  /** With `showAll` the whole filtered list is rendered; otherwise at most one page. */
  lemma VisiblePage(f: string, showAll: bool)
    ensures showAll ==> Visible(f, showAll) == Filtered(f)
    ensures !showAll ==> |Visible(f, showAll)| <= PageSize
  {
  }

  /** "Load More" is offered exactly when some filtered package is not rendered. */
  lemma LoadMoreIffHidden(f: string, showAll: bool)
    ensures LoadMoreOffered(f, showAll) <==> Visible(f, showAll) != Filtered(f)
  {
  }

  /** The unlimited filter never offers "Load More": its three packages all fit on the first page. */
  lemma UnlimitedFitsOnePage(showAll: bool)
    ensures !LoadMoreOffered("unlimited", showAll)
    ensures Visible("unlimited", showAll) == Filtered("unlimited")
  {
    FilteredUnlimited();
  }

  // ---------------------------------------------------------------------------
  // Selection

  /** In a sequence with distinct ids, the lookup finds the one entry carrying the id. */
  lemma {:induction false} FindDistinct(s: seq<Package>, p: Package)
    requires DistinctIds(s) && p in s
    ensures FindById(s, Some(p.id)) == Some(p)
  {
    if s[0] != p {
      assert DistinctIds(s[1..]) by {
        forall i, j | 0 <= i < j < |s[1..]| ensures s[1..][i].id != s[1..][j].id {
          assert s[1..][i] == s[i + 1] && s[1..][j] == s[j + 1];
        }
      }
      assert p in s[1..];
      var k :| 0 <= k < |s[1..]| && s[1..][k] == p;
      assert s[k + 1] == p;
      assert s[0].id != p.id;
      FindDistinct(s[1..], p);
    }
  }

  /** The lookup finds something exactly when some entry carries the selected id. */
  lemma {:induction false} FindByIdFound(s: seq<Package>, sel: Option<int>)
    ensures FindById(s, sel).Some? <==> exists p :: p in s && sel == Some(p.id)
  {
    if s != [] && sel != Some(s[0].id) {
      FindByIdFound(s[1..], sel);
      assert forall p :: p in s ==> p == s[0] || p in s[1..];
    }
  }

  /**
   * `selectedPackage` is the catalog entry whose id is selected: absent when
   * nothing is selected or no entry has that id, and otherwise the unique one.
   */
  lemma SelectedPackageIsUnique(sel: Option<int>)
    ensures SelectedPackage(sel).Some? <==> sel.Some? && sel.value in IdSet(Catalog)
    ensures forall p :: p in Catalog && sel == Some(p.id) ==> SelectedPackage(sel) == Some(p)
  {
    CatalogIdsDistinct();
    forall p | p in Catalog && sel == Some(p.id) ensures SelectedPackage(sel) == Some(p) {
      FindDistinct(Catalog, p);
    }
  }

  /** The dialog shows the label and type of the selected catalog entry. */
  lemma DialogShowsSelection(p: Package)
    requires p in Catalog
    ensures DialogLine(Some(p.id)) == p.caption + " (" + p.kind.Name() + ")"
  {
    SelectedPackageIsUnique(Some(p.id));
  }

  /** The acknowledgement names the label of the selected catalog entry. */
  lemma AcknowledgementNamesSelection(p: Package)
    requires p in Catalog
    ensures Acknowledgement(Some(p.id)) == "Purchased " + p.caption + " successfully!"
  {
    SelectedPackageIsUnique(Some(p.id));
  }

  /**
   * Once a catalog id is selected, the dialog and the acknowledgement name that
   * package: never " ()" and never "undefined".
   */
  lemma SelectionIsNamed(sel: Option<int>)
    requires sel.Some? && sel.value in IdSet(Catalog)
    ensures SelectedPackage(sel).Some?
    ensures DialogLine(sel) == SelectedPackage(sel).value.caption + " (" + SelectedPackage(sel).value.kind.Name() + ")"
    ensures Acknowledgement(sel) == "Purchased " + SelectedPackage(sel).value.caption + " successfully!"
  {
    SelectedPackageIsUnique(sel);
  }

  /** With nothing selected the dialog omits the package fields. */
  lemma DialogWithoutSelection()
    ensures DialogLine(None) == " ()"
  {
  }

  /** With nothing selected the acknowledgement prints the missing label as "undefined". */
  lemma AcknowledgementWithoutSelection()
    ensures Acknowledgement(None) == "Purchased undefined successfully!"
  {
  }

  /** Package 8 is shown in the dialog as "Ksh 100 (unlimited)". */
  lemma DialogLineOfPackage8()
    ensures DialogLine(Some(8)) == "Ksh 100 (unlimited)"
  {
    DialogShowsSelection(Pkg8);
    assert DialogLine(Some(8)) == Pkg8.caption + " (" + Pkg8.kind.Name() + ")";
  }

  /** Buying package 8 is acknowledged as "Purchased Ksh 100 successfully!". */
  lemma AcknowledgementOfPackage8()
    ensures Acknowledgement(Some(8)) == "Purchased Ksh 100 successfully!"
  {
    calc {
      Acknowledgement(Some(8));
    == { AcknowledgementNamesSelection(Pkg8); }
      "Purchased " + Pkg8.caption + " successfully!";
    == { assert Pkg8.caption == "Ksh 100"; }
      "Purchased " + "Ksh 100" + " successfully!";
    }
  }
}
