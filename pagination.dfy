/**
 * The `gamePagination` query: a fixed page size of two, pages numbered from
 * one, and an error for a page number beyond the last page.
 */
module Pagination {
  import opened Wrappers
  import opened Records
  import opened Errors

  const LIMIT: nat := 2

  const MORE_DATA_NOT_EXIST: Error := PlainError("More Data Not exist")

  function Min(a: int, b: int): int {
    if a <= b then a else b
  }

  /** `Math.ceil(n / limit)`: the least number of pages that hold `n` games. */
  function TotalPages(n: nat): (pages: nat)
    ensures LIMIT * pages >= n
    ensures pages > 0 ==> LIMIT * (pages - 1) < n
  {
    (n + LIMIT - 1) / LIMIT
  }

  /** `(pageNo - 1) * limit || 0`; the `|| 0` only matters for `NaN`, which an `Int!` argument never is. */
  function Offset(pageNo: int): int {
    (pageNo - 1) * LIMIT
  }

  /**
   * The resolver over the collection in its natural order. A page number
   * beyond the last page is the rethrown `More Data Not exist`; a page
   * number below one passes that guard, gives a negative skip, and is
   * rejected by the store; every other page is the run of at most two games
   * starting at its offset, and is never empty.
   */
  function GamePagination(games: seq<Game>, pageNo: int): (r: Result<seq<Game>, Error>)
    ensures r == Failure(Wrapped(MORE_DATA_NOT_EXIST)) <==> pageNo > TotalPages(|games|)
    ensures r == Failure(Wrapped(StoreError)) <==> pageNo < 1 && pageNo <= TotalPages(|games|)
    ensures r.Success? <==> 1 <= pageNo <= TotalPages(|games|)
    ensures r.Success? ==>
      && 0 <= Offset(pageNo) < |games|
      && |r.value| == Min(LIMIT, |games| - Offset(pageNo))
      && 0 < |r.value| <= LIMIT
      && forall i :: 0 <= i < |r.value| ==> r.value[i] == games[Offset(pageNo) + i]
  {
    if pageNo > TotalPages(|games|) then
      Failure(Wrapped(MORE_DATA_NOT_EXIST))
    else
      var offset := Offset(pageNo);
      if offset < 0 then
        Failure(Wrapped(StoreError))
      else
        Success(games[offset..Min(offset + LIMIT, |games|)])
  }

  /** Pages `from`, `from + 1`, ..., up to the last page, one after the other. */
  function PagesFrom(games: seq<Game>, from: int): seq<Game>
    requires from >= 1
    decreases TotalPages(|games|) + 1 - from
  {
    if from > TotalPages(|games|) then []
    else GamePagination(games, from).value + PagesFrom(games, from + 1)
  }

  /** Reading on from page `from` yields exactly the games from that page's offset onwards. */
  lemma {:induction false} PagesFromIsSuffix(games: seq<Game>, from: int)
    requires 1 <= from <= TotalPages(|games|) + 1
    ensures PagesFrom(games, from) == games[Min(Offset(from), |games|)..]
    decreases TotalPages(|games|) + 1 - from
  {
    if from <= TotalPages(|games|) {
      PagesFromIsSuffix(games, from + 1);
      var offset := Offset(from);
      var next := Min(offset + LIMIT, |games|);
      assert Offset(from + 1) == offset + LIMIT;
      assert GamePagination(games, from).value == games[offset..next];
      assert games[offset..] == games[offset..next] + games[next..];
    }
  }

  /** Pages one to the last, read in order, are the whole collection: each game on exactly one page. */
  lemma PagesCoverGames(games: seq<Game>)
    ensures PagesFrom(games, 1) == games
  {
    PagesFromIsSuffix(games, 1);
  }
}
