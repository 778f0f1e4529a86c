/**
 * pkg/books/api/handler.go: the books-only variant of the offset-paginated
 * server. Its handler does what the one in pkg/api/handler.go does, against
 * a single repository.
 */
module BooksApi {
  import opened Decimal
  import opened Model
  import opened Links
  import opened Http
  import opened Storage
  import opened Pagination

  class Server {
    const repository: Repository<Book>

    /** `NewServer`. */
    constructor (repository: Repository<Book>)
      ensures this.repository == repository
    {
      this.repository := repository;
    }

    /**
     * `FetchAllBooks`: the request checks, one fetch of the parsed window,
     * a 500 if it fails, and always a page with its three links.
     */
    method FetchAllBooks(rw: ResponseWriter, r: Request)
      requires rw.Valid()
      modifies rw, repository
      ensures rw.Valid() && rw.wroteHeader
      ensures var p := ParseParams(r.query);
              repository.calls == old(repository.calls) + [(p.limit.value, p.offset.value)]
      ensures var p := ParseParams(r.query);
              rw.status == if old(rw.wroteHeader) then old(rw.status)
                           else EffectiveStatus(r.verb, p, repository.window(p.limit.value, p.offset.value).StorageError?)
      ensures var p := ParseParams(r.query);
              rw.body == old(rw.body) + [Page(PaginatedResponse(Fetched(repository.window(p.limit.value, p.offset.value)), BuildLinks(r.path, p.limit.value, p.offset.value)))]
    {
      var p := CheckRequest(rw, r);
      var limit, offset := p.limit.value, p.offset.value;

      var books, failed := repository.FetchAll(limit, offset);
      if failed {
        rw.WriteHeader(StatusInternalServerError);
      }

      var nextOffset, prevOffset := Add64(offset, limit), Sub64(offset, limit);
      if prevOffset < 0 {
        prevOffset := 0;
      }
      var response := PaginatedResponse(
        data := books,
        links := LinksResponse(
          next := RenderLink(r.path, limit, nextOffset),
          prev := RenderLink(r.path, limit, prevOffset),
          first := RenderLink(r.path, limit, 0)));
      assert response.links == BuildLinks(r.path, limit, offset);

      rw.Encode(Page(response));
    }
  }
}
