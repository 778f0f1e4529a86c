/**
 * The records the collections hold. `Book` and its `String` formatter come
 * from pkg/model/model.go; the other handler packages use a book record of
 * the same four fields. `Car` carries the four columns the cars repository
 * scans; its own model file is not part of this model.
 */
module Model {
  import opened Options
  import opened Decimal

  const IdLabel: string := "{Id: "
  const TitleLabel: string := ", Title: "
  const AuthorLabel: string := ", Author: "
  const CreatedAtLabel: string := ", CreatedAt: "

  datatype Book = Book(id: int, title: string, author: string, createdAt: string)
  {
    /**
     * `Book.String`: `{Id: %d, Title: %s, Author: %s, CreatedAt: %s}`. The
     * text fields are copied verbatim, so the length is a fixed 38 characters
     * of punctuation and labels plus the four rendered fields.
     */
    function String(): (s: string)
      ensures |s| == 38 + |Dec(id)| + |title| + |author| + |createdAt|
      ensures s[0] == '{' && s[|s| - 1] == '}'
      ensures s[..|IdLabel|] == IdLabel
    {
      IdLabel + Dec(id) + TitleLabel + title + AuthorLabel + author + CreatedAtLabel + createdAt + "}"
    }
  }

  datatype Car = Car(id: int, brand: string, model: string, createdAt: string)

  /** The first position of `c` in `s`, or `|s|` when it does not occur. */
  function IndexOf(s: string, c: char): (i: nat)
    ensures i <= |s| && c !in s[..i]
    ensures i < |s| ==> s[i] == c
  {
    if s == [] then 0
    else if s[0] == c then 0
    else
      var i := 1 + IndexOf(s[1..], c);
      assert s[..i] == [s[0]] + s[1..][..i - 1];
      i
  }

  /**
   * How a reader recovers the id from a formatted book: the text between
   * the `{Id: ` label and the first comma.
   */
  function IdField(s: string): string {
    if |s| < |IdLabel| then "" else s[|IdLabel|..][..IndexOf(s[|IdLabel|..], ',')]
  }

  /**
   * The id is rendered with a leading `-` when negative and can always be
   * read back: the handlers' integer parser recovers it from the formatted
   * record, whatever the text fields contain.
   */
  lemma {:induction false} IdRoundTrip(b: Book)
    requires IsInt64(b.id)
    ensures var s := b.String(); (b.id < 0 <==> s[|IdLabel|] == '-')
    ensures Atoi(IdField(b.String())) == Conversion(b.id, None)
  {
    var d := Dec(b.id);
    var tail := TitleLabel[1..] + b.title + AuthorLabel + b.author + CreatedAtLabel + b.createdAt + "}";
    assert b.String() == IdLabel + (d + [','] + tail);
    assert b.String()[|IdLabel|..] == d + [','] + tail;
    assert ',' !in d;
    IndexOfFirst(d, ',', tail);
    assert (d + [','] + tail)[..|d|] == d;
    assert IdField(b.String()) == d;
    AtoiDec(b.id);
  }

  lemma {:induction false} IndexOfFirst(prefix: string, c: char, suffix: string)
    requires c !in prefix
    ensures IndexOf(prefix + [c] + suffix, c) == |prefix|
  {
    if prefix != [] {
      assert (prefix + [c] + suffix)[1..] == prefix[1..] + [c] + suffix;
      IndexOfFirst(prefix[1..], c, suffix);
    }
  }

  /**
   * Because the text fields are not escaped, the formatted form does not
   * determine the record: a title that itself contains `, Author: ` can
   * pass for a different split of the same characters.
   */
  lemma StringIsAmbiguous()
    ensures exists b1: Book, b2: Book :: b1 != b2 && b1.String() == b2.String()
  {
    var b1 := Book(1, "A, Author: B", "C", "D");
    var b2 := Book(1, "A", "B, Author: C", "D");
    assert b1.String() == b2.String();
  }
}
