/**
 * The slice of `net/http` and `net/url` the handlers rely on: the request
 * as the handler reads it, the query-string values, and a response writer
 * on which only the first status written takes effect.
 */
module Http {
  import opened Model
  import opened Links

  const StatusOK: int := 200
  const StatusBadRequest: int := 400
  const StatusMethodNotAllowed: int := 405
  const StatusInternalServerError: int := 500

  /** `url.Values`: every value given for each query key, in order of appearance. */
  type Values = map<string, seq<string>>

  /** `url.Values.Get`: the first value given for the key, or "" when there is none. */
  function Get(v: Values, key: string): (value: string)
    ensures key in v && |v[key]| > 0 ==> value == v[key][0]
    ensures value != "" ==> key in v && value in v[key]
  {
    if key in v && |v[key]| > 0 then v[key][0] else ""
  }

  /** A request as the handlers see it: its method (`verb`), `URL.Path` and `URL.Query()`. */
  datatype Request = Request(verb: string, path: string, query: Values)

  /**
   * `strings.Cut`: the text before and after the first `sep`, or the whole
   * text and "" when `sep` does not occur.
   */
  function Cut(s: string, sep: char): (parts: (string, string))
    ensures sep !in s ==> parts == (s, "")
    ensures sep in s ==> s == parts.0 + [sep] + parts.1 && sep !in parts.0
  {
    if s == [] then ("", "")
    else if s[0] == sep then ("", s[1..])
    else
      var (before, after) := Cut(s[1..], sep);
      assert s == [s[0]] + s[1..];
      ([s[0]] + before, after)
  }

  /** The split `Cut` makes is the one at the first separator. */
  lemma {:induction false} CutAt(before: string, sep: char, after: string)
    requires sep !in before
    ensures Cut(before + [sep] + after, sep) == (before, after)
  {
    var s := before + [sep] + after;
    if before == [] {
      assert s[1..] == after;
    } else {
      assert s[1..] == before[1..] + [sep] + after;
      CutAt(before[1..], sep, after);
      assert s[0] == before[0] != sep;
      assert before == [before[0]] + before[1..];
    }
  }

  /** Adds one more value for `key`, after the ones already there. */
  function Add(v: Values, key: string, value: string): Values {
    v[key := (if key in v then v[key] else []) + [value]]
  }

  /**
   * The loop of `url.ParseQuery`: `&`-separated pairs, skipping empty ones
   * and ones with a `;`; each split at its first `=`.
   */
  function AddPairs(v: Values, query: string): (r: Values)
    ensures forall k :: k in v ==> k in r && v[k] <= r[k]
    ensures (forall k :: k in v ==> |v[k]| > 0) ==> forall k :: k in r ==> |r[k]| > 0
    decreases |query|
  {
    if query == [] then v
    else
      var (pair, rest) := Cut(query, '&');
      if ';' in pair || pair == [] then AddPairs(v, rest)
      else
        var (key, value) := Cut(pair, '=');
        AddPairs(Add(v, key, value), rest)
  }

  /**
   * `url.ParseQuery` without unescaping. Every key it records has at least
   * one value, so `Get` finds exactly the keys present.
   */
  function ParseQuery(query: string): (v: Values)
    ensures query == [] ==> v == map[]
    ensures forall k :: k in v ==> |v[k]| > 0
  {
    AddPairs(map[], query)
  }

  /** A character `url.Parse` keeps in a path as it is: no query or fragment start, no escape, no control byte. */
  predicate PathChar(c: char) {
    c != '?' && c != '#' && c != '%' && ' ' <= c && c as int != 0x7F
  }

  /**
   * A path that reads back unchanged from a link target: it starts with a
   * single `/` (two would name a host) and holds only plain characters.
   */
  predicate PlainPath(path: string) {
    |path| > 0 && path[0] == '/' && (|path| > 1 ==> path[1] != '/') &&
    forall i :: 0 <= i < |path| ==> PathChar(path[i])
  }

  /**
   * `http.NewRequest(verb, target, nil)` for a target of the form
   * path?query; an empty method means GET.
   */
  function NewRequest(verb: string, target: string): (r: Request)
    ensures r.verb == if verb == "" then "GET" else verb
    ensures '?' !in target ==> r.path == target && r.query == map[]
    ensures '?' in target ==> '?' !in r.path && |r.path| < |target| && target[..|r.path| + 1] == r.path + ['?']
  {
    var (path, rawQuery) := Cut(target, '?');
    Request(if verb == "" then "GET" else verb, path, ParseQuery(rawQuery))
  }

  /** A value handed to `json.NewEncoder(rw).Encode`. */
  datatype Payload = BookList(books: seq<Book>) | Page(page: PaginatedResponse)

  /**
   * An `http.ResponseWriter` (as `httptest.ResponseRecorder` implements it):
   * the status is 200 until a header is written, the first `WriteHeader`
   * fixes it, and writing the body fixes 200 if nothing was written before.
   */
  class ResponseWriter {
    var status: int
    var wroteHeader: bool
    var body: seq<Payload>
    /** Before any header is written the recorder reports 200. */
    ghost predicate Valid()
      reads this
    {
      !wroteHeader ==> status == StatusOK
    }

    constructor ()
      ensures Valid()
      ensures !wroteHeader && status == StatusOK && body == []
    {
      status := StatusOK;
      wroteHeader := false;
      body := [];
    }

    method WriteHeader(code: int)
      requires Valid()
      modifies this
      ensures Valid()
      ensures wroteHeader && body == old(body)
      ensures status == if old(wroteHeader) then old(status) else code
    {
      if !wroteHeader {
        status := code;
        wroteHeader := true;
      }
    }

    method Encode(p: Payload)
      requires Valid()
      modifies this
      ensures Valid() && wroteHeader
      ensures body == old(body) + [p]
      ensures status == old(status)
    {
      if !wroteHeader {
        WriteHeader(StatusOK);
      }
      body := body + [p];
    }
  }
}
