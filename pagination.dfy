/**
 * Walking a paginated collection (`get_all_pages`). The service is a finite
 * list of page responses: following the `next` link of page k leads to page
 * k + 1, and the last page carries no link.
 */
module Pagination {
  import opened StatusCodes
  import opened Tracks

  /** One GET of one page: its status code, its items and whether it has a `next` link. */
  datatype Response<T> = Response(status: int, items: seq<T>, hasNext: bool)

  /** A finite chain of pages: at least one, and the last one links nowhere. */
  predicate Chained<T>(pages: seq<Response<T>>) {
    |pages| > 0 && !pages[|pages| - 1].hasNext
  }

  /** What a walk produces: the items and the number of GETs, or the status that halted the run after that many GETs. */
  datatype Fetch<T> = Done(items: seq<T>, requests: nat) | Halted(status: Status, requests: nat)

  /** The page at which a walk started at page k stops: the first one from k on without a `next` link. */
  function LastPage<T>(pages: seq<Response<T>>, k: nat): (e: nat)
    requires Chained(pages) && k < |pages|
    ensures k <= e < |pages| && !pages[e].hasNext
    ensures forall j :: k <= j < e ==> pages[j].hasNext
    decreases |pages| - k
  {
    if pages[k].hasNext then LastPage(pages, k + 1) else k
  }

  function TotalItems<T>(ps: seq<Response<T>>): nat {
    if ps == [] then 0 else |ps[0].items| + TotalItems(ps[1..])
  }

  /** The items of `ps` page after page, each page in server order. */
  function InPageOrder<T>(ps: seq<Response<T>>): (r: seq<T>)
    ensures |r| == TotalItems(ps)
  {
    if ps == [] then [] else ps[0].items + InPageOrder(ps[1..])
  }

  /** The items of `ps` last page first, each page still in server order. */
  function InReversePageOrder<T>(ps: seq<Response<T>>): (r: seq<T>)
    ensures |r| == TotalItems(ps)
  {
    if ps == [] then [] else InReversePageOrder(ps[1..]) + ps[0].items
  }

  predicate AllOk<T>(ps: seq<Response<T>>) {
    forall j :: 0 <= j < |ps| ==> Classify(ps[j].status) == Ok
  }

  /**
   * `get_all_pages(url, results)` as written: the page is fetched and its
   * status checked, the rest of the chain is fetched with the same `results`,
   * and then `results = results + deeper` and `results = results + items`.
   */
  function GetAllPagesAsWritten<T>(pages: seq<Response<T>>, k: nat, results: seq<T>): (r: Fetch<T>)
    requires Chained(pages) && k < |pages|
    ensures 1 <= r.requests <= LastPage(pages, k) - k + 1
    ensures r.Halted? ==> r.status != Ok
    decreases |pages| - k
  {
    var res := pages[k];
    if Classify(res.status) != Ok then Halted(Classify(res.status), 1)
    else if res.hasNext then
      match GetAllPagesAsWritten(pages, k + 1, results)
      case Halted(s, n) => Halted(s, n + 1)
      case Done(deeper, n) => Done(results + deeper + res.items, n + 1)
    else Done(results + res.items, 1)
  }

  /** The walk with the evidently intended order: this page's items before those of the pages after it. */
  function GetAllPages<T>(pages: seq<Response<T>>, k: nat): (r: Fetch<T>)
    requires Chained(pages) && k < |pages|
    ensures 1 <= r.requests <= LastPage(pages, k) - k + 1
    ensures r.Halted? ==> r.status != Ok
    decreases |pages| - k
  {
    var res := pages[k];
    if Classify(res.status) != Ok then Halted(Classify(res.status), 1)
    else if res.hasNext then
      match GetAllPages(pages, k + 1)
      case Halted(s, n) => Halted(s, n + 1)
      case Done(rest, n) => Done(res.items + rest, n + 1)
    else Done(res.items, 1)
  }

  /**
   * As written, a walk from page k with the default empty `results` makes one
   * GET per page up to the first page without `next`, and returns the items
   * of those pages last page first.
   */
  lemma {:induction false} AsWrittenReversesPages<T>(pages: seq<Response<T>>, k: nat)
    requires Chained(pages) && k < |pages|
    requires AllOk(pages[k..LastPage(pages, k) + 1])
    ensures GetAllPagesAsWritten(pages, k, [])
         == Done(InReversePageOrder(pages[k..LastPage(pages, k) + 1]), LastPage(pages, k) - k + 1)
    decreases |pages| - k
  {
    var e := LastPage(pages, k);
    assert Classify(pages[k].status) == Ok by { assert pages[k] == pages[k..e + 1][0]; }
    if pages[k].hasNext {
      assert pages[k + 1..e + 1] == pages[k..e + 1][1..];
      AsWrittenReversesPages(pages, k + 1);
    }
  }

  /**
   * A walk from page k makes one GET per page up to the first page without
   * `next`, returns every item of those pages exactly once in page order, so
   * as many items as the pages hold together.
   */
  lemma {:induction false} GetAllPagesComplete<T>(pages: seq<Response<T>>, k: nat)
    requires Chained(pages) && k < |pages|
    requires AllOk(pages[k..LastPage(pages, k) + 1])
    ensures GetAllPages(pages, k)
         == Done(InPageOrder(pages[k..LastPage(pages, k) + 1]), LastPage(pages, k) - k + 1)
    ensures |GetAllPages(pages, k).items| == TotalItems(pages[k..LastPage(pages, k) + 1])
    decreases |pages| - k
  {
    var e := LastPage(pages, k);
    assert Classify(pages[k].status) == Ok by { assert pages[k] == pages[k..e + 1][0]; }
    if pages[k].hasNext {
      assert pages[k + 1..e + 1] == pages[k..e + 1][1..];
      GetAllPagesComplete(pages, k + 1);
    }
  }

  /**
   * Fail-fast: a walk halts exactly when some page it reaches has a status
   * other than 200-209, with that first page's classification, after one GET
   * per page up to and including it and none after it.
   */
  lemma {:induction false} GetAllPagesHalts<T>(pages: seq<Response<T>>, k: nat, f: nat)
    requires Chained(pages) && k < |pages| && k <= f <= LastPage(pages, k)
    requires Classify(pages[f].status) != Ok
    requires forall j :: k <= j < f ==> Classify(pages[j].status) == Ok
    ensures GetAllPages(pages, k) == Halted(Classify(pages[f].status), f - k + 1)
    ensures GetAllPagesAsWritten(pages, k, []) == Halted(Classify(pages[f].status), f - k + 1)
    decreases f - k
  {
    if k < f {
      GetAllPagesHalts(pages, k + 1, f);
    }
  }

  /**
   * Two saved tracks on two pages, newest first: as written the older one
   * comes back first, so reversing the result (as the orchestration does
   * before submitting) puts the newer one first again.
   */
  lemma AsWrittenLosesChronology()
    ensures var newer := Track("spotify:track:b", Timestamp(2023, 6));
            var older := Track("spotify:track:a", Timestamp(2022, 1));
            var pages := [Response(200, [newer], true), Response(200, [older], false)];
            && NewestFirst(InPageOrder(pages))
            && GetAllPagesAsWritten(pages, 0, []) == Done([older, newer], 2)
            && !OldestFirst(Reversed(GetAllPagesAsWritten(pages, 0, []).items))
            && GetAllPages(pages, 0) == Done([newer, older], 2)
            && OldestFirst(Reversed(GetAllPages(pages, 0).items))
  {
    var newer := Track("spotify:track:b", Timestamp(2023, 6));
    var older := Track("spotify:track:a", Timestamp(2022, 1));
    var pages := [Response(200, [newer], true), Response(200, [older], false)];
    assert InPageOrder(pages) == [newer, older] by {
      assert pages[1..][1..] == [];
    }
    assert GetAllPagesAsWritten(pages, 1, []) == Done([older], 1);
    assert GetAllPagesAsWritten(pages, 0, []) == Done([older, newer], 2);
    var r := Reversed([older, newer]);
    assert r == [newer, older];
    assert !NotAfter(r[0].addedAt, r[1].addedAt);
    assert Reversed([newer, older]) == [older, newer];
  }
}
