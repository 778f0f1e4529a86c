/**
 * The rules the offset-pagination handlers share: reading `limit` and
 * `offset` from the query, the status a request ends with, and what a
 * client reads back when it follows one of the links.
 */
module Pagination {
  import opened Options
  import opened Decimal
  import opened Links
  import opened Http

  /** The two parameters as `strconv.Atoi` returned them, error and all. */
  datatype PageRequest = PageRequest(limit: Conversion, offset: Conversion)
  {
    predicate Valid() {
      limit.err.None? && offset.err.None?
    }
  }

  /** `strconv.Atoi(query.Get("limit"))` and `strconv.Atoi(query.Get("offset"))`. */
  function ParseParams(query: Values): (p: PageRequest)
    ensures IsInt64(p.limit.value) && IsInt64(p.offset.value)
  {
    PageRequest(Atoi(Get(query, "limit")), Atoi(Get(query, "offset")))
  }

  /**
   * The status as a priority rule: 405 for any method but GET, else 400 when
   * limit or offset is missing or not an int64, else 500 when the fetch
   * failed, else 200.
   */
  function EffectiveStatus(verb: string, p: PageRequest, fetchFailed: bool): (code: int)
    ensures code == StatusMethodNotAllowed <==> verb != "GET"
    ensures code == StatusBadRequest <==> verb == "GET" && !p.Valid()
    ensures code == StatusInternalServerError <==> verb == "GET" && p.Valid() && fetchFailed
    ensures code == StatusOK <==> verb == "GET" && p.Valid() && !fetchFailed
  {
    if verb != "GET" then StatusMethodNotAllowed
    else if !p.Valid() then StatusBadRequest
    else if fetchFailed then StatusInternalServerError
    else StatusOK
  }

  /**
   * A request without parameters, or with ones that are not numbers, is a
   * 400 whatever the fetch does; any method but GET is a 405 first.
   */
  lemma ExampleStatuses(fetchFailed: bool)
    ensures EffectiveStatus("GET", ParseParams(map[]), fetchFailed) == StatusBadRequest
    ensures EffectiveStatus("GET", ParseParams(map["limit" := ["l"], "offset" := ["o"]]), fetchFailed) == StatusBadRequest
    ensures EffectiveStatus("POST", ParseParams(map["limit" := ["10"], "offset" := ["1"]]), fetchFailed) == StatusMethodNotAllowed
  {
  }

  /**
   * The checks every handler makes before it fetches: a 405 for any method
   * but GET, then a 400 for each of `limit` and `offset` that `Atoi`
   * rejects. None of them returns; the handler goes on with the parsed
   * values, which are 0 or a clamped bound when parsing failed.
   */
  method CheckRequest(rw: ResponseWriter, r: Request) returns (p: PageRequest)
    requires rw.Valid()
    modifies rw
    ensures rw.Valid() && rw.body == old(rw.body)
    ensures p == ParseParams(r.query)
    ensures rw.wroteHeader <==> old(rw.wroteHeader) || EffectiveStatus(r.verb, p, false) != StatusOK
    ensures rw.status == if old(rw.wroteHeader) then old(rw.status) else EffectiveStatus(r.verb, p, false)
  {
    if r.verb != "GET" {
      rw.WriteHeader(StatusMethodNotAllowed);
    }

    var limit := Atoi(Get(r.query, "limit"));
    if limit.err.Some? {
      rw.WriteHeader(StatusBadRequest);
    }

    var offset := Atoi(Get(r.query, "offset"));
    if offset.err.Some? {
      rw.WriteHeader(StatusBadRequest);
    }
    p := PageRequest(limit, offset);
  }

  /** One `key=value` pair followed by more of the query: the pair is added, then the rest is read. */
  lemma PairThenRest(v: Values, key: string, value: string, rest: string)
    requires '&' !in key && '&' !in value && ';' !in key && ';' !in value && '=' !in key
    ensures AddPairs(v, key + ['='] + value + ['&'] + rest) == AddPairs(Add(v, key, value), rest)
  {
    var pair := key + ['='] + value;
    assert '&' !in pair && ';' !in pair && pair != [];
    CutAt(pair, '&', rest);
    CutAt(key, '=', value);
  }

  /** The last `key=value` pair of a query. */
  lemma LastPair(v: Values, key: string, value: string)
    requires '&' !in key && '&' !in value && ';' !in key && ';' !in value && '=' !in key
    ensures AddPairs(v, key + ['='] + value) == Add(v, key, value)
  {
    var pair := key + ['='] + value;
    assert '&' !in pair && ';' !in pair && pair != [];
    assert Cut(pair, '&') == (pair, "");
    CutAt(key, '=', value);
  }

  /**
   * Following a link: the request it names carries the same path and reads
   * back the same limit and offset, provided the path is a plain one.
   */
  lemma {:induction false} LinkRoundTrip(path: string, limit: int, offset: int)
    requires PlainPath(path) && IsInt64(limit) && IsInt64(offset)
    ensures var r := NewRequest("GET", RenderLink(path, limit, offset));
            r.path == path &&
            ParseParams(r.query) == PageRequest(Conversion(limit, None), Conversion(offset, None))
  {
    assert '?' !in path by {
      forall i | 0 <= i < |path| ensures path[i] != '?' {
        assert PathChar(path[i]);
      }
    }
    var l, o := Dec(limit), Dec(offset);
    var query := "limit" + ['='] + l + ['&'] + ("offset" + ['='] + o);
    assert RenderLink(path, limit, offset) == path + ['?'] + query;
    CutAt(path, '?', query);
    PageQuery(l, o);
    AtoiDec(limit);
    AtoiDec(offset);
  }

  /** The query of a link: `limit` and `offset` each read back as the text written for it. */
  lemma PageQuery(l: string, o: string)
    requires forall i :: 0 <= i < |l| ==> IsDigit(l[i]) || l[i] == '-'
    requires forall i :: 0 <= i < |o| ==> IsDigit(o[i]) || o[i] == '-'
    ensures var v := ParseQuery("limit" + ['='] + l + ['&'] + ("offset" + ['='] + o));
            Get(v, "limit") == l && Get(v, "offset") == o
  {
    assert '&' !in l && ';' !in l && '&' !in o && ';' !in o;
    PairThenRest(map[], "limit", l, "offset" + ['='] + o);
    var v := Add(map[], "limit", l);
    LastPair(v, "offset", o);
  }

  /**
   * What a client reads from the three links of the page `(limit, offset)`:
   * GET requests on the same path with the same limit and the offsets
   * `offset + limit`, `offset - limit` floored at 0, and 0.
   */
  lemma FollowLinks(path: string, limit: int, offset: int)
    requires PlainPath(path) && IsInt64(limit) && IsInt64(offset)
    requires IsInt64(offset + limit) && IsInt64(offset - limit)
    ensures var links := BuildLinks(path, limit, offset);
            var next, prev, first := NewRequest("GET", links.next), NewRequest("GET", links.prev), NewRequest("GET", links.first);
            next.path == prev.path == first.path == path &&
            ParseParams(next.query) == PageRequest(Conversion(limit, None), Conversion(offset + limit, None)) &&
            ParseParams(prev.query) == PageRequest(Conversion(limit, None), Conversion(if offset < limit then 0 else offset - limit, None)) &&
            ParseParams(first.query) == PageRequest(Conversion(limit, None), Conversion(0, None))
  {
    LinkRoundTrip(path, limit, NextOffset(limit, offset));
    LinkRoundTrip(path, limit, PrevOffset(limit, offset));
    LinkRoundTrip(path, limit, 0);
  }

  /**
   * From a page at a non-negative offset, following `next` and then that
   * page's `prev` leads back to the page itself, for every int64 limit.
   */
  lemma NextThenPrev(path: string, limit: int, offset: int)
    requires PlainPath(path) && IsInt64(limit) && IsInt64(offset) && offset >= 0
    ensures var r := NewRequest("GET", BuildLinks(path, limit, offset).next);
            var p := ParseParams(r.query);
            p.Valid() && BuildLinks(r.path, p.limit.value, p.offset.value).prev == RenderLink(path, limit, offset)
  {
    LinkRoundTrip(path, limit, NextOffset(limit, offset));
    PrevOfNext(limit, offset);
  }
}
