/**
 * The navigation links of an offset-paginated response: the arithmetic on
 * Go's 64-bit `int` that picks the neighbouring offsets, and the
 * `%s?limit=%d&offset=%d` format every link is written in. The same logic
 * appears in pkg/api/handler.go and pkg/books/api/handler.go.
 */
module Links {
  import opened Decimal
  import opened Model

  /** `LinksResponse`: the three links, always present. There is no `last` link. */
  datatype LinksResponse = LinksResponse(prev: string, next: string, first: string)

  /** `PaginatedResponse`: one page of records with its links. */
  datatype PaginatedResponse = PaginatedResponse(data: seq<Book>, links: LinksResponse)

  /**
   * `fmt.Sprintf("%s?limit=%d&offset=%d", path, limit, offset)`: the path,
   * then a `?`, then a query in which no further `?` occurs, so the `?`
   * after the path is the first one whenever the path has none.
   */
  function RenderLink(path: string, limit: int, offset: int): (link: string)
    ensures |link| > |path| && link[..|path|] == path && link[|path|] == '?'
    ensures '?' !in link[|path| + 1..]
  {
    var query := "limit=" + Dec(limit) + "&offset=" + Dec(offset);
    assert '?' !in Dec(limit) && '?' !in Dec(offset);
    assert '?' !in query;
    assert path + "?limit=" + Dec(limit) + "&offset=" + Dec(offset) == path + ['?'] + query;
    path + "?limit=" + Dec(limit) + "&offset=" + Dec(offset)
  }

  /**
   * `offset+limit` on Go ints: the next page starts one limit further on,
   * with no upper clamp; only a sum beyond the int64 range wraps around,
   * by 2^64 in either direction.
   */
  function NextOffset(limit: int, offset: int): (next: int)
    requires IsInt64(limit) && IsInt64(offset)
    ensures IsInt64(next)
    ensures IsInt64(offset + limit) ==> next == offset + limit
    ensures offset + limit > MaxInt64 ==> next == offset + limit - Modulus
    ensures offset + limit < MinInt64 ==> next == offset + limit + Modulus
  {
    Add64(offset, limit)
  }

  /**
   * `offset-limit` on Go ints, raised to 0 when negative: the previous page
   * is never negative. A difference below the int64 range wraps to a
   * non-negative value and is kept; one above it wraps negative and is
   * raised to 0.
   */
  function PrevOffset(limit: int, offset: int): (prev: int)
    requires IsInt64(limit) && IsInt64(offset)
    ensures IsInt64(prev) && prev >= 0
    ensures IsInt64(offset - limit) ==> prev == if offset < limit then 0 else offset - limit
    ensures offset - limit < MinInt64 ==> prev == offset - limit + Modulus
    ensures offset - limit > MaxInt64 ==> prev == 0
  {
    var p := Sub64(offset, limit);
    if p < 0 then 0 else p
  }

  /**
   * The links for the page `(limit, offset)` of the collection at `path`:
   * `first` is offset 0, `next` is one limit on, and `prev` one limit back,
   * which on a page that starts less than a limit in is `first` itself.
   */
  function BuildLinks(path: string, limit: int, offset: int): (links: LinksResponse)
    requires IsInt64(limit) && IsInt64(offset)
    ensures links.first == RenderLink(path, limit, 0)
    ensures IsInt64(offset + limit) ==> links.next == RenderLink(path, limit, offset + limit)
    ensures IsInt64(offset - limit) && offset >= limit ==> links.prev == RenderLink(path, limit, offset - limit)
    ensures IsInt64(offset - limit) && offset < limit ==> links.prev == links.first
  {
    LinksResponse(
      prev := RenderLink(path, limit, PrevOffset(limit, offset)),
      next := RenderLink(path, limit, NextOffset(limit, offset)),
      first := RenderLink(path, limit, 0))
  }

  /** From any non-negative offset, stepping forward and then back returns to it, even across wrap-around. */
  lemma PrevOfNext(limit: int, offset: int)
    requires IsInt64(limit) && IsInt64(offset) && offset >= 0
    ensures PrevOffset(limit, NextOffset(limit, offset)) == offset
  {
  }

  /**
   * Stepping back and then forward returns to the offset unless the step
   * back was clamped at the start, in which case it lands on `limit`.
   */
  lemma NextOfPrev(limit: int, offset: int)
    requires IsInt64(limit) && IsInt64(offset) && IsInt64(offset - limit)
    ensures NextOffset(limit, PrevOffset(limit, offset)) == if offset < limit then limit else offset
  {
  }

  /**
   * The floor at 0 only catches differences that stay within int64: one that
   * underflows wraps to a large positive offset and is kept as it is.
   */
  lemma PrevOffsetWraps()
    ensures PrevOffset(1, MinInt64) == MaxInt64
  {
  }

  /**
   * A difference above the int64 range wraps to a negative value, which the
   * floor then turns into 0.
   */
  lemma PrevOffsetOverflowClamped()
    ensures PrevOffset(-1, MaxInt64) == 0
  {
  }

  /** Two most negative values add up to a wrapped next offset of 0. */
  lemma NextOffsetUnderflows()
    ensures NextOffset(MinInt64, MinInt64) == 0
  {
  }

  /** With no upper clamp, the next offset after the largest int64 wraps to a negative one. */
  lemma NextOffsetWraps()
    ensures NextOffset(1, MaxInt64) == MinInt64
  {
  }

  /**
   * The pages `limit=10&offset=0`, `limit=5&offset=4` and `limit=5&offset=9`
   * of `/books`: their prev, next and first offsets.
   */
  lemma ExamplePages()
    ensures BuildLinks("/books", 10, 0) ==
            LinksResponse(RenderLink("/books", 10, 0), RenderLink("/books", 10, 10), RenderLink("/books", 10, 0))
    ensures BuildLinks("/books", 5, 4) ==
            LinksResponse(RenderLink("/books", 5, 0), RenderLink("/books", 5, 9), RenderLink("/books", 5, 0))
    ensures BuildLinks("/books", 5, 9) ==
            LinksResponse(RenderLink("/books", 5, 4), RenderLink("/books", 5, 14), RenderLink("/books", 5, 0))
  {
  }
}
