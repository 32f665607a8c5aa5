/**
 * The public CPT search: listings whose code or description contains the
 * `cpt` text without regard to case, in the given ZIP code, one page at a
 * time in storage order.
 */
module SearchService {
  import opened Wrappers
  import opened Text
  import opened Json
  import opened Tables
  import opened Paging
  import opened ListingModel
  import opened Store

  /**
   * The query `searchCPT` builds: the `$or` of two case-insensitive matches
   * when `cpt` is given, and equality on `zipCode` when `zip` is given.
   */
  function Matches(cpt: Option<string>, zip: Option<string>): (m: Listing -> bool)
    ensures !Given(cpt) && !Given(zip) ==> forall l :: m(l)
    ensures forall l :: m(l) && Given(zip) ==> l.zipCode == zip.value
    ensures forall l :: m(l) && Given(cpt) ==>
      ContainsIgnoringCase(l.cptCode, cpt.value) || ContainsIgnoringCase(l.description, cpt.value)
    ensures forall l: Listing :: Given(cpt) && ToLower(l.cptCode) == ToLower(cpt.value) && (Given(zip) ==> l.zipCode == zip.value) ==> m(l)
  {
    (l: Listing) =>
      && (Given(cpt) ==> ContainsIgnoringCase(l.cptCode, cpt.value) || ContainsIgnoringCase(l.description, cpt.value))
      && (Given(zip) ==> l.zipCode == zip.value)
  }

  /** `searchCPT`: one page of the matching listings, with the count of all of them. */
  function SearchCpt(db: Db, cpt: Option<string>, zip: Option<string>, page: Option<Positive>, limit: Option<Positive>)
    : (r: Page<Listing>)
    reads db
    ensures r.pagination.total == |Filter(db.listings, Matches(cpt, zip))|
    ensures r.pagination.page == page.GetOr(DefaultPage) && r.pagination.limit == limit.GetOr(DefaultLimit)
    ensures r.pagination.totalPages == CeilDiv(r.pagination.total, r.pagination.limit)
    ensures r.items == Window(Filter(db.listings, Matches(cpt, zip)), r.pagination.page, r.pagination.limit)
    ensures |r.items| <= r.pagination.limit
    ensures forall k :: 0 <= k < |r.items| ==> r.items[k] in db.listings && Matches(cpt, zip)(r.items[k])
  {
    var all := Filter(db.listings, Matches(cpt, zip));
    var r := Paginate(all, page, limit);
    assert forall k :: 0 <= k < |r.items| ==> r.items[k] in all by {
      forall k | 0 <= k < |r.items| ensures r.items[k] in all {
        assert r.items[k] == all[(r.pagination.page - 1) * r.pagination.limit + k];
      }
    }
    r
  }

  /** Every matching listing is on one of the pages `1..totalPages`. */
  lemma {:induction false} SearchFindsEveryMatch(db: Db, cpt: Option<string>, zip: Option<string>, limit: Positive, l: Listing)
    requires l in db.listings && Matches(cpt, zip)(l)
    ensures exists page: Positive ::
      page <= SearchCpt(db, cpt, zip, Some(page), Some(limit)).pagination.totalPages
      && l in SearchCpt(db, cpt, zip, Some(page), Some(limit)).items
  {
    var all := Filter(db.listings, Matches(cpt, zip));
    assert l in all;
    OnSomePage(all, limit, l);
    var page: Positive :| page <= CeilDiv(|all|, limit) && l in Window(all, page, limit);
    var r := SearchCpt(db, cpt, zip, Some(page), Some(limit));
    assert r.items == Window(all, page, limit) && r.pagination.totalPages == CeilDiv(|all|, limit);
  }

  /** The `i` flag: the text searched for may be given in any case. */
  lemma SearchIgnoresCase(db: Db, cpt: string, zip: Option<string>, page: Option<Positive>, limit: Option<Positive>)
    ensures SearchCpt(db, Some(ToLower(cpt)), zip, page, limit) == SearchCpt(db, Some(cpt), zip, page, limit)
  {
    ToLowerIdempotent(cpt);
    FilterAgrees(db.listings, Matches(Some(ToLower(cpt)), zip), Matches(Some(cpt), zip));
  }
}
