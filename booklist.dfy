/** `format_books_list`: the text that shows an office's available books. */
module BookList {
  import opened Text
  import opened Ledger

  const NoBooks: string := "В этом офисе сейчас нет доступных книг."
  const Header: string := "\U{1F4DA} Доступные книги в этом офисе:\n\n"

  /** `f"{i}. {title} - {author}\n"`. */
  function Line(i: nat, b: Listing): string {
    Decimal(i) + ". " + b.title + " - " + b.author + "\n"
  }

  /** The lines of `rows`, numbered from `first`. */
  function Lines(rows: seq<Listing>, first: nat): string
    decreases |rows|
  {
    if rows == [] then "" else Line(first, rows[0]) + Lines(rows[1..], first + 1)
  }

  /** The fixed sentence when there are no books; otherwise the header and one numbered line per book. */
  function FormatBooksList(rows: seq<Listing>): (r: string)
    ensures rows == [] <==> r == NoBooks
    ensures rows != [] ==> Header <= r
    ensures rows != [] ==> |r| == |Header| + Offset(rows, 1, |rows|)
  {
    if rows == [] then NoBooks
    else
      var r := Header + Lines(rows, 1);
      assert r[0] != NoBooks[0];
      LinesLength(rows, 1);
      r
  }

  /** The lines end where a line after the last book would start. */
  lemma {:induction false} LinesLength(rows: seq<Listing>, first: nat)
    ensures |Lines(rows, first)| == Offset(rows, first, |rows|)
    decreases |rows|
  {
    if rows != [] {
      LinesLength(rows[1..], first + 1);
    }
  }

  /** Where line `k` of `Lines(rows, first)` starts. */
  function Offset(rows: seq<Listing>, first: nat, k: nat): nat
    requires k <= |rows|
  {
    if k == 0 then 0 else |Line(first, rows[0])| + Offset(rows[1..], first + 1, k - 1)
  }

  /** `t` stands in `s` at position `at`. */
  predicate Segment(s: string, at: nat, t: string) {
    at + |t| <= |s| && s[at..at + |t|] == t
  }

  lemma SegmentAtStart(a: string, b: string)
    ensures Segment(a + b, 0, a)
  {
    assert (a + b)[..|a|] == a;
  }

  lemma SegmentShift(a: string, b: string, at: nat, x: string)
    requires Segment(b, at, x)
    ensures Segment(a + b, |a| + at, x)
  {
    assert (a + b)[|a| + at..|a| + at + |x|] == b[at..at + |x|];
  }

  lemma {:induction false} LineAt(rows: seq<Listing>, first: nat, k: nat)
    requires k < |rows|
    ensures Segment(Lines(rows, first), Offset(rows, first, k), Line(first + k, rows[k]))
  {
    var head := Line(first, rows[0]);
    var rest := Lines(rows[1..], first + 1);
    assert Lines(rows, first) == head + rest;
    if k == 0 {
      SegmentAtStart(head, rest);
    } else {
      LineAt(rows[1..], first + 1, k - 1);
      assert rows[1..][k - 1] == rows[k];
      SegmentShift(head, rest, Offset(rows[1..], first + 1, k - 1), Line(first + k, rows[k]));
    }
  }

  /** Book `k` of the listing appears as the line numbered `k + 1`, after the lines of the books before it. */
  lemma EveryBookListed(rows: seq<Listing>, k: nat)
    requires k < |rows|
    ensures Segment(FormatBooksList(rows), |Header| + Offset(rows, 1, k), Line(k + 1, rows[k]))
  {
    LineAt(rows, 1, k);
    assert FormatBooksList(rows) == Header + Lines(rows, 1);
    SegmentShift(Header, Lines(rows, 1), Offset(rows, 1, k), Line(k + 1, rows[k]));
  }

  function Count(s: string, c: char): nat {
    if s == [] then 0 else (if s[0] == c then 1 else 0) + Count(s[1..], c)
  }

  lemma {:induction false} CountAppend(a: string, b: string, c: char)
    ensures Count(a + b, c) == Count(a, c) + Count(b, c)
  {
    if a == [] {
      assert a + b == b;
    } else {
      assert (a + b)[1..] == a[1..] + b;
      CountAppend(a[1..], b, c);
    }
  }

  predicate OneLine(s: string) {
    forall i :: 0 <= i < |s| ==> s[i] != '\n'
  }

  lemma {:induction false} CountOneLine(s: string)
    requires OneLine(s)
    ensures Count(s, '\n') == 0
  {
    if s != [] {
      CountOneLine(s[1..]);
    }
  }

  lemma {:induction false} LinesCount(rows: seq<Listing>, first: nat)
    requires forall i :: 0 <= i < |rows| ==> OneLine(rows[i].title) && OneLine(rows[i].author)
    ensures Count(Lines(rows, first), '\n') == |rows|
  {
    if rows != [] {
      var b := rows[0];
      var front := Decimal(first) + ". " + b.title + " - " + b.author;
      assert Line(first, b) == front + "\n";
      CountOneLine(Decimal(first));
      CountOneLine(". ");
      CountOneLine(" - ");
      CountOneLine(b.title);
      CountOneLine(b.author);
      CountAppend(Decimal(first), ". ", '\n');
      CountAppend(Decimal(first) + ". ", b.title, '\n');
      CountAppend(Decimal(first) + ". " + b.title, " - ", '\n');
      CountAppend(Decimal(first) + ". " + b.title + " - ", b.author, '\n');
      CountAppend(front, "\n", '\n');
      CountAppend(Line(first, b), Lines(rows[1..], first + 1), '\n');
      LinesCount(rows[1..], first + 1);
    }
  }

  /**
   * With one-line titles and authors the message has exactly one line break
   * per book after those of the header.
   */
  lemma LineBreaks(rows: seq<Listing>)
    requires rows != []
    requires forall i :: 0 <= i < |rows| ==> OneLine(rows[i].title) && OneLine(rows[i].author)
    ensures Count(FormatBooksList(rows), '\n') == Count(Header, '\n') + |rows|
  {
    LinesCount(rows, 1);
    CountAppend(Header, Lines(rows, 1), '\n');
  }
}
