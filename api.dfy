/**
 * pkg/api/handler.go: the server that holds a book and a car repository and
 * serves `/books` with offset pagination. The car repository is stored but
 * never used.
 */
module Api {
  import opened Decimal
  import opened Model
  import opened Links
  import opened Http
  import opened Storage
  import opened Pagination

  class Server {
    const bookRepository: Repository<Book>
    const carRepository: Repository<Car>

    /** `NewServer`. */
    constructor (bookRepository: Repository<Book>, carRepository: Repository<Car>)
      ensures this.bookRepository == bookRepository && this.carRepository == carRepository
    {
      this.bookRepository := bookRepository;
      this.carRepository := carRepository;
    }

    /**
     * `FetchAllBooks`. Every check writes its error status and carries on:
     * the repository is always asked for the parsed window and a page is
     * always encoded, so the client sees the first failing check's status
     * together with a full body.
     */
    method FetchAllBooks(rw: ResponseWriter, r: Request)
      requires rw.Valid()
      modifies rw, bookRepository
      ensures rw.Valid() && rw.wroteHeader
      ensures var p := ParseParams(r.query);
              bookRepository.calls == old(bookRepository.calls) + [(p.limit.value, p.offset.value)]
      ensures var p := ParseParams(r.query);
              rw.status == if old(rw.wroteHeader) then old(rw.status)
                           else EffectiveStatus(r.verb, p, bookRepository.window(p.limit.value, p.offset.value).StorageError?)
      ensures var p := ParseParams(r.query);
              rw.body == old(rw.body) + [Page(PaginatedResponse(Fetched(bookRepository.window(p.limit.value, p.offset.value)), BuildLinks(r.path, p.limit.value, p.offset.value)))]
    {
      var p := CheckRequest(rw, r);
      var limit, offset := p.limit.value, p.offset.value;

      var books, failed := bookRepository.FetchAll(limit, offset);
      if failed {
        rw.WriteHeader(StatusInternalServerError);
      }

      var nextOffset, prevOffset := Add64(offset, limit), Sub64(offset, limit);
      if prevOffset < 0 {
        prevOffset := 0;
      }
      var response := PaginatedResponse(
        data := books,
        links := LinksResponse(
          next := RenderLink(r.path, limit, nextOffset),
          prev := RenderLink(r.path, limit, prevOffset),
          first := RenderLink(r.path, limit, 0)));
      assert response.links == BuildLinks(r.path, limit, offset);

      rw.Encode(Page(response));
    }
  }
}
