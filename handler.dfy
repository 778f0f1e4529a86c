/**
 * pkg/handler/handler.go: the plain variant of the offset-paginated
 * handler. It makes the same checks and the same single fetch, but the body
 * is the bare list of books, with no links.
 */
module Handler {
  import opened Model
  import opened Http
  import opened Storage
  import opened Pagination

  class Server {
    /** The `Service`; its `FetchAllLimitAndOffset` is `FetchAll` here. */
    const service: Repository<Book>

    /** `NewServer`. */
    constructor (service: Repository<Book>)
      ensures this.service == service
    {
      this.service := service;
    }

    /**
     * `FetchAllBooksWithLimitAndOffset`: the request checks, one fetch of
     * the parsed window, a 500 if it fails, and always the fetched books as
     * the body (none when the fetch failed).
     */
    method FetchAllBooksWithLimitAndOffset(rw: ResponseWriter, r: Request)
      requires rw.Valid()
      modifies rw, service
      ensures rw.Valid() && rw.wroteHeader
      ensures var p := ParseParams(r.query);
              service.calls == old(service.calls) + [(p.limit.value, p.offset.value)]
      ensures var p := ParseParams(r.query);
              rw.status == if old(rw.wroteHeader) then old(rw.status)
                           else EffectiveStatus(r.verb, p, service.window(p.limit.value, p.offset.value).StorageError?)
      ensures var p := ParseParams(r.query);
              rw.body == old(rw.body) + [BookList(Fetched(service.window(p.limit.value, p.offset.value)))]
    {
      var p := CheckRequest(rw, r);

      var books, failed := service.FetchAll(p.limit.value, p.offset.value);
      if failed {
        rw.WriteHeader(StatusInternalServerError);
      }

      rw.Encode(BookList(books));
    }
  }
}
