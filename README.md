# Offset pagination of krukkrz/pagination, in Dafny

This project models the offset-paginated HTTP handlers of the `pagination`
Go service and proves what they do. There are three of them:

- `FetchAllBooks` in `pkg/api`, which holds a book and a car repository.
- `FetchAllBooks` in `pkg/books/api`, which holds one book repository.
- `FetchAllBooksWithLimitAndOffset` in `pkg/handler`, which returns the bare list.

The project also models the `String` formatter of `model.Book`.

A request goes through these steps:

1. The handler checks the method.
2. It reads `limit` and `offset` with `strconv.Atoi`.
3. It asks the repository for that window.
4. It builds `prev`, `next` and `first` links of the form `path?limit=L&offset=O`.
5. It encodes the page.

Each failed check calls `WriteHeader` with its own code and carries on. Nothing returns early. Only the first `WriteHeader` takes effect on an `http.ResponseWriter`, so the status a client sees follows a priority rule: 405, then 400, then 500, then 200. The repository is called every time, with the parsed values. Those values are 0 when a parameter does not parse, and the nearest int64 bound when it is out of range. A page is always written.

How the model is built:

- Go's `int` is taken to be 64 bits. `offset+limit` and `offset-limit` wrap around as Go's arithmetic does.
- `strconv.Atoi` is modelled with Go's exact split between syntax errors and range errors.
- The request is a value (`Http.Request`).
- The response writer is a class. `WriteHeader` keeps the first status written, and `Encode` appends to the body.
- Each repository is a class. Its answers are a fixed function of its arguments, and it keeps a ghost log of the calls it received.

The repository's answer is a parameter of the model, so the handler contracts state the status and body for every possible answer, including a storage error.

Modules:

| file | module | contents |
|---|---|---|
| options.dfy | Options | `Option` |
| decimal.dfy | Decimal | int64 range and wrap-around, `%d` (`Dec`), `strconv.Atoi` |
| model.dfy | Model | `Book`, `Book.String`, `Car` |
| links.dfy | Links | `LinksResponse`, `PaginatedResponse`, the link arithmetic and format |
| http.dfy | Http | `url.Values`, `strings.Cut`, `url.ParseQuery`, `http.NewRequest`, `ResponseWriter` |
| storage.dfy | Storage | the repository class |
| pagination.dfy | Pagination | the parameter reading and status rule, the request checks the handlers share, and round trips through the links |
| api.dfy, books_api.dfy, handler.dfy | Api, BooksApi, Handler | the three servers |

The three handlers make the same method and parameter checks. pkg/handler/handler.go:30 and :35 read the parameters with `r.FormValue`, where the other two use `r.URL.Query().Get`; for the requests modelled here the two give the same value (see "## Left out"). The model writes the checks once, as `Pagination.CheckRequest`, and each handler calls it.

A rejected method or parameter would normally end the request. The code does not return after `WriteHeader`, and the model keeps this fall-through exactly as written.

## Model

| member | source | states |
|---|---|---|
| Decimal.Wrap64 | pkg/api/handler.go:75 | The result of Go's 64-bit `+`/`-` is the one int64 that differs from the exact value by 0 or ±2^64. |
| Decimal.Add64 | pkg/api/handler.go:75 | `offset+limit` is exact when the sum fits in int64. A sum past MaxInt64 becomes sum − 2^64, which is negative. A sum below MinInt64 becomes sum + 2^64, which is non-negative. |
| Decimal.Sub64 | pkg/api/handler.go:75 | `offset-limit` is exact when the difference fits in int64. A difference below MinInt64 becomes difference + 2^64, which is non-negative. A difference past MaxInt64 becomes difference − 2^64, which is negative. |
| Decimal.Digits | pkg/api/handler.go:82-84 | `%d`'s digit string is non-empty, all digits, and has no leading zero. |
| Decimal.Dec | pkg/api/handler.go:82-84 | `%d` is non-empty and starts with `-` exactly when the number is negative. Every other character is a digit. |
| Decimal.Atoi | pkg/api/handler.go:58-66 | `strconv.Atoi` succeeds exactly on `[+-]?[0-9]+` text whose value fits in int64, and then returns that value. A syntax error gives 0. A range error gives MaxInt64 or MinInt64. The value is always an int64. |
| Decimal.AtoiDec | pkg/api/handler.go:58-84 | Every int64 written with `%d` reads back through `Atoi` as itself, with no error. |
| Decimal.AtoiEmpty | pkg/api/handler.go:58 | A missing parameter (`Get` returns "") is a syntax error with value 0. |
| Model.Book.String | pkg/model/model.go:12-14 | The text is enclosed in braces and starts with `{Id: `. Its length is 38 plus the lengths of the rendered id and the three text fields. |
| Model.IdRoundTrip | pkg/model/model.go:12-14 | The id is rendered with a `-` exactly when it is negative. The text between `{Id: ` and the first comma reads back as the id, whatever the text fields hold. |
| Model.StringIsAmbiguous | pkg/model/model.go:12-14 | The text fields are not escaped, so two different books can format to the same string. |
| Links.RenderLink | pkg/api/handler.go:82-84 | A link is the path, then `?`, then a query holding no further `?`, so the `?` after a `?`-free path is the first one. |
| Links.NextOffset | pkg/api/handler.go:75 | The next offset is `offset+limit` with no upper clamp, and it is an int64. It wraps only when the sum leaves the int64 range: by −2^64 above it, by +2^64 below it. |
| Links.PrevOffset | pkg/api/handler.go:75-78 | The previous offset is never negative. When `offset-limit` fits in int64 it equals max(0, offset−limit). A difference below the range wraps to difference + 2^64 and is kept; one above it wraps negative and becomes 0. |
| Links.BuildLinks | pkg/api/handler.go:75-85 | `first` links offset 0. `next` links offset+limit when that fits in int64. `prev` links offset−limit when that is non-negative, and equals `first` on a page starting less than a limit in. |
| Links.PrevOfNext | pkg/api/handler.go:75-78 | From a non-negative offset, stepping next and then prev returns to that offset for every int64 limit, even across wrap-around. |
| Links.NextOfPrev | pkg/api/handler.go:75-78 | Stepping prev and then next returns to the offset. The exception is a clamped step, which lands on `limit`. |
| Links.NextOffsetWraps | pkg/api/handler.go:75 | The next offset after MaxInt64 with limit 1 is MinInt64. |
| Links.PrevOffsetWraps | pkg/api/handler.go:75-78 | An `offset-limit` that underflows wraps to MaxInt64 and escapes the floor at 0. |
| Links.PrevOffsetOverflowClamped | pkg/api/handler.go:75-78 | An `offset-limit` that overflows (offset MaxInt64, limit −1) wraps negative and the floor turns it into 0. |
| Links.NextOffsetUnderflows | pkg/api/handler.go:75 | offset and limit both MinInt64 give a wrapped next offset of 0. |
| Links.ExamplePages | pkg/api/handler_test.go:67-96 | The pages (10,0), (5,4) and (5,9) of `/books` get the prev/next/first offsets 0/10/0, 0/9/0 and 4/14/0. |
| Http.Cut | pkg/api/handler_test.go:110 | The split is at the first separator and the part before it holds no separator. Without a separator the whole text comes first. |
| Http.CutAt | pkg/api/handler_test.go:110 | Cutting `before + sep + after` when `before` holds no `sep` gives exactly `(before, after)`. |
| Http.Get | pkg/api/handler.go:58 | `url.Values.Get` returns the first value recorded for the key. A non-empty result is one of the key's values. |
| Http.AddPairs | pkg/api/handler_test.go:110 | Reading more pairs keeps every key already recorded and only appends to its values, so the first value of a key stays first. Keys that had values keep having values. |
| Http.ParseQuery | pkg/api/handler_test.go:110 | An empty query gives no values, and every key recorded has at least one value. With `PageQuery` this gives the link query's `limit` and `offset` back. |
| Http.NewRequest | pkg/api/handler_test.go:110 | An empty method becomes GET. A target without `?` is all path with no query. Otherwise the path is the text before the first `?`. With `LinkRoundTrip` this gives back a link's path and parameters. |
| Http.ResponseWriter.constructor | pkg/api/handler_test.go:119 | A fresh recorder has status 200, no header written and an empty body. |
| Http.ResponseWriter.WriteHeader | pkg/api/handler.go:54-56 | Only the first `WriteHeader` fixes the status. Later calls leave it as it is. The body is unchanged. |
| Http.ResponseWriter.Encode | pkg/api/handler.go:88-89 | The payload is appended to the body. The header counts as written, and the status stays what it was: 200 when nothing was written before. |
| Storage.Repository.constructor | pkg/api/handler.go:13-15 | A repository starts with no calls and the given answers. |
| Storage.Repository.FetchAll | pkg/api/handler.go:70-73 | The call is logged with its exact arguments. It fails exactly when the storage answers with an error, and then returns no rows. Otherwise it returns the storage's rows. |
| Pagination.ParseParams | pkg/api/handler.go:58-66 | Both parsed parameters are int64 values, whether or not parsing succeeded. |
| Pagination.EffectiveStatus | pkg/api/handler.go:54-73 | Each status holds exactly when its condition holds: 405 for any method but GET, 400 for a GET with a rejected limit or offset, 500 for a valid GET whose fetch failed, and 200 otherwise. |
| Pagination.ExampleStatuses | pkg/api/handler_test.go:31-50 | A GET with no parameters, or with `l` and `o`, is a 400. A POST is a 405. This holds whatever the repository does. |
| Pagination.CheckRequest | pkg/api/handler.go:54-66 | The checks write a header exactly when the method or a parameter is rejected. The status becomes the first failing check's code, unless a header was already written. The body is untouched, and the returned parameters are exactly what `Atoi` gave. |
| Pagination.PageQuery | pkg/api/handler.go:82-84 | The query `limit=L&offset=O` of a link reads back `L` and `O` for those two keys. |
| Pagination.LinkRoundTrip | pkg/api/handler.go:82-84 | A request on any rendered link, for a plain path (one `/` first, no `?`, `#`, `%` or control character), has the same path and parses back to the same limit and offset, with no errors. |
| Pagination.FollowLinks | pkg/api/handler.go:75-84 | next, prev and first lead to the same path and limit. Their offsets are offset+limit, max(0, offset−limit) and 0, when these fit in int64. |
| Pagination.NextThenPrev | pkg/api/handler.go:75-84 | From a non-negative offset, the prev link of the page reached through next is exactly the original page's link. |
| Api.Server.constructor | pkg/api/handler.go:38-43 | `NewServer` stores both repositories. |
| Api.Server.FetchAllBooks | pkg/api/handler.go:52-90 | The book repository is called once, with the parsed limit and offset. The status is the priority rule applied to the parsed parameters and the fetch outcome, unless a header was already written. The body gains one page. Its data is exactly what the repository returned, and its links depend only on the path and the parsed parameters. The car repository is outside the method's frame. |
| BooksApi.Server.constructor | pkg/books/api/handler.go:32-36 | `NewServer` stores the repository. |
| BooksApi.Server.FetchAllBooks | pkg/books/api/handler.go:45-83 | The same as `Api.Server.FetchAllBooks`, against the single repository. |
| Handler.Server.constructor | pkg/handler/handler.go:19-23 | `NewServer` stores the service. |
| Handler.Server.FetchAllBooksWithLimitAndOffset | pkg/handler/handler.go:25-49 | The service is called once with the parsed limit and offset. The status follows the priority rule. The body gains exactly the fetched books, with no links and nothing when the fetch failed. |

## Left out

- Server start-up, the mux, `main` and the database connection: this is wiring and I/O with no decisions in it.
- The SQL repositories and the cars cursor pagination: there is no handler for cursors in the modelled files. The repository is a parameter.
- JSON encoding: the body holds the value that would be encoded. That includes Go's encoding of a nil slice as `null` where the model has an empty sequence.
- The `Content-Type` header: it is never read back.
- `log.Printf`: it is output only.
- Concurrency between requests: each handler call is modelled on its own.
- Percent-decoding in `url.ParseQuery` and `http.NewRequest`, URL fragments, escape errors and `//host` targets: `Http.NewRequest` cuts only at `?`. The handlers echo the decoded `r.URL.Path` unescaped into their links, so a path with `#`, `%` or a control character, or one starting with `//`, does not read back from its link in Go. The link round trips (`Pagination.LinkRoundTrip`, `FollowLinks`, `NextThenPrev`) are claimed only for paths satisfying `Http.PlainPath`.
- `r.FormValue` in pkg/handler/handler.go:30 and :35: it is modelled as the query lookup `Get`, which it equals for requests without a form body. The form body that it also reads for POST, PUT and PATCH requests is not modelled.
- The `Book` of pkg/books/model is not part of this model. All three handlers use `Model.Book` with the same four fields.
- The default page of 10 and the `last` link: the source leaves both as to-dos, so neither exists here.
- Api.Server.FetchAllBooks: no `ensures` says the car repository is left alone. The method's `modifies` clause names only the writer and the book repository, so the car repository is outside its frame.
- Model.Book.String: the contract fixes the braces, the leading id label and the length. The position of the other labels is given only by the definition. What is proved about the layout is the id round trip and the ambiguity lemma.
