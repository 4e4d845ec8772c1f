/**
 * The garage's page counter, shared by both builds: `currentPage`, the
 * `totalCount` fetched by `renderGarage`, a limit of seven cars per page,
 * and the previous/next page guards.
 */
module Pagination {
  import opened Wrappers

  const Limit := 7

  /** `Math.ceil(totalCount / limit)`: the fewest pages of seven that hold every car. */
  function PageCount(total: nat): (pages: nat)
    ensures pages * Limit >= total
    ensures pages > 0 ==> (pages - 1) * Limit < total
  {
    (total + Limit - 1) / Limit
  }

  /** `showPreviousPage`'s counter: step back unless on page 1. */
  function PreviousPage(current: int): (r: int)
    ensures r == current - 1 || r == current
    ensures r < current <==> current > 1
    ensures current >= 1 ==> r >= 1
  {
    if current > 1 then current - 1 else current
  }

  /**
   * `showNextPage`'s counter: step forward while `currentPage * limit` is
   * below the total; an unset total (`undefined`) compares false.
   */
  function NextPage(current: int, total: Option<nat>): (r: int)
    ensures r == current || r == current + 1
    ensures total.None? ==> r == current
    ensures total.Some? && current >= 1 ==> (r > current <==> current < PageCount(total.value))
  {
    if total.Some? && current * Limit < total.value then current + 1 else current
  }

  /** The counter names an existing page, or page 1 of an empty garage. */
  predicate InRange(current: int, total: nat)
  {
    1 <= current && (current <= PageCount(total) || current == 1)
  }

  /** The next-page guard lets the counter move exactly when a later page exists. */
  lemma NextMovesIffPagesLeft(current: int, total: nat)
    requires current >= 1
    ensures NextPage(current, Some(total)) != current <==> current < PageCount(total)
  {
    var pages := PageCount(total);
    if current < pages {
      assert current * Limit <= (pages - 1) * Limit;
    }
  }

  /** Previous and next keep the counter in range for a fixed total. */
  lemma PagingKeepsRange(current: int, total: nat)
    requires InRange(current, total)
    ensures InRange(PreviousPage(current), total)
    ensures InRange(NextPage(current, Some(total)), total)
  {
    NextMovesIffPagesLeft(current, total);
  }

  /** Fifteen cars make three pages, and the last page does not advance. */
  lemma FifteenCars()
    ensures PageCount(15) == 3
    ensures NextPage(2, Some(15)) == 3 && NextPage(3, Some(15)) == 3
  {
  }

  /**
   * The range is kept only while the total stays: a total fetched again
   * after deletions can leave the counter past the last page.
   */
  lemma ShrunkTotalLeavesRange()
    ensures InRange(3, 15) && !InRange(3, 14)
  {
  }

  /** The module-level counter and the last fetched total. */
  class Pager {
    var currentPage: int
    var totalCount: Option<nat>

    constructor ()
      ensures currentPage == 1 && totalCount == None
    {
      currentPage := 1;
      totalCount := None;
    }

    /** The counting part of `renderGarage`: record the fetched total and return the page count shown. */
    method RenderGarage(count: nat) returns (totalPages: nat)
      modifies this`totalCount
      ensures totalCount == Some(count)
      ensures totalPages == PageCount(count)
    {
      totalCount := Some(count);
      totalPages := PageCount(count);
    }

    /** `showPreviousPage`; `rerender` says whether it goes on to `renderGarage`. */
    method ShowPreviousPage() returns (rerender: bool)
      modifies this`currentPage
      ensures currentPage == PreviousPage(old(currentPage))
      ensures rerender <==> currentPage != old(currentPage)
    {
      rerender := currentPage > 1;
      if rerender {
        currentPage := currentPage - 1;
      }
    }

    /** `showNextPage`; `rerender` says whether it goes on to `renderGarage`. */
    method ShowNextPage() returns (rerender: bool)
      modifies this`currentPage
      ensures currentPage == NextPage(old(currentPage), totalCount)
      ensures rerender <==> currentPage != old(currentPage)
    {
      rerender := totalCount.Some? && currentPage * Limit < totalCount.value;
      if rerender {
        currentPage := currentPage + 1;
      }
    }
  }
}
