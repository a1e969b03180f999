/**
 * The fixed catalog of data-bundle packages offered by the bundle shop
 * (the `dataPackages` constant of server.ts).
 */
module Packages {

  /** The two kinds of bundle; `Name` is the string stored in a record's `type` field. */
  datatype PkgType = Limited | Unlimited {
    function Name(): string {
      match this
      case Limited => "limited"
      case Unlimited => "unlimited"
    }
  }

  /** One package record. The source's `label` and `type` fields are called `caption` and `kind` here (both are Dafny keywords). */
  datatype Package = Package(id: int, caption: string, amount: int, kind: PkgType)

  const Pkg1 := Package(1, "Ksh 5", 5, Limited)
  const Pkg2 := Package(2, "Ksh 10", 10, Limited)
  const Pkg3 := Package(3, "Ksh 15", 15, Limited)
  const Pkg4 := Package(4, "Ksh 20", 20, Unlimited)
  const Pkg5 := Package(5, "Ksh 25", 25, Limited)
  const Pkg6 := Package(6, "Ksh 30", 30, Unlimited)
  const Pkg7 := Package(7, "Ksh 50", 50, Limited)
  const Pkg8 := Package(8, "Ksh 100", 100, Unlimited)

  /** The catalog, in display order. It is never changed at run time. */
  const Catalog: seq<Package> := [Pkg1, Pkg2, Pkg3, Pkg4, Pkg5, Pkg6, Pkg7, Pkg8]

  /** The ids of a sequence of packages, in order. */
  function IdList(s: seq<Package>): seq<int> {
    seq(|s|, i requires 0 <= i < |s| => s[i].id)
  }

  /** The set of ids occurring in a sequence of packages. */
  function IdSet(s: seq<Package>): set<int> {
    set p | p in s :: p.id
  }

  /** No two entries of `s` share an id. */
  predicate DistinctIds(s: seq<Package>) {
    forall i, j :: 0 <= i < j < |s| ==> s[i].id != s[j].id
  }

  /** No two catalog entries share an id. */
  lemma CatalogIdsDistinct()
    ensures DistinctIds(Catalog)
  {
  }

  /** The catalog lists ids 1 to 8 in order, each with a positive amount. */
  lemma CatalogIds()
    ensures IdList(Catalog) == [1, 2, 3, 4, 5, 6, 7, 8]
    ensures forall p :: p in Catalog ==> p.id > 0 && p.amount > 0
  {
  }
}
