/** `format_docs`: the retrieved documents become the context of the generation
    prompt by joining their page contents with a blank line between them. */
module Generating {
  import opened Text

  /** A retrieved document: its text and its metadata. */
  datatype Document = Document(pageContent: string, metadata: map<string, string>)

  /** The separator `format_docs` puts between two page contents. */
  const Separator: string := "\n\n"

  /** The page contents of the documents, in order. */
  function PageContents(docs: seq<Document>): (r: seq<string>)
    ensures |r| == |docs|
    ensures forall i :: 0 <= i < |r| ==> r[i] == docs[i].pageContent
  {
    seq(|docs|, i requires 0 <= i < |docs| => docs[i].pageContent)
  }

  /** `format_docs(docs)`. */
  function FormatDocs(docs: seq<Document>): (r: string)
    ensures |docs| == 0 ==> r == ""
    ensures |docs| == 1 ==> r == docs[0].pageContent
  {
    Join(PageContents(docs), Separator)
  }

  /** The length of the context: the page contents plus two characters between
      each neighbouring pair. */
  lemma FormatDocsLength(docs: seq<Document>)
    requires |docs| > 0
    ensures |FormatDocs(docs)| == TotalLength(PageContents(docs)) + 2 * (|docs| - 1)
  {
    JoinLength(PageContents(docs), Separator);
  }

  /** Formatting two non-empty batches puts one blank line between the two contexts. */
  lemma FormatDocsAppend(xs: seq<Document>, ys: seq<Document>)
    requires |xs| > 0 && |ys| > 0
    ensures FormatDocs(xs + ys) == FormatDocs(xs) + Separator + FormatDocs(ys)
  {
    assert PageContents(xs + ys) == PageContents(xs) + PageContents(ys);
    JoinAppend(PageContents(xs), PageContents(ys), Separator);
  }

  /** Only the page contents matter: documents that differ in their metadata
      format to the same context. */
  lemma FormatDocsIgnoresMetadata(docs: seq<Document>, others: seq<Document>)
    requires |docs| == |others|
    requires forall i :: 0 <= i < |docs| ==> docs[i].pageContent == others[i].pageContent
    ensures FormatDocs(docs) == FormatDocs(others)
  {
    assert PageContents(docs) == PageContents(others);
  }

  /** Where piece `i` of a join starts: after each earlier piece and the
      separator that follows it. */
  function PieceStart(parts: seq<string>, sep: string, i: nat): nat
    requires i <= |parts|
    decreases i
  {
    if i == 0 then 0 else |parts[0]| + |sep| + PieceStart(parts[1..], sep, i - 1)
  }

  /** A slice of the back half of `a + b`. */
  lemma SliceOfBack(a: string, b: string, o: nat, n: nat)
    requires o + n <= |b|
    ensures (a + b)[|a| + o..|a| + o + n] == b[o..o + n]
  {
  }

  /** A join of two or more pieces is the first piece, the separator and the join
      of the rest. */
  lemma JoinFront(parts: seq<string>, sep: string)
    requires |parts| > 1
    ensures Join(parts, sep) == (parts[0] + sep) + Join(parts[1..], sep)
  {
  }

  /** Piece `i` of a join sits at its start. */
  lemma {:induction false} JoinPlacesPiece(parts: seq<string>, sep: string, i: nat)
    requires i < |parts|
    ensures PieceStart(parts, sep, i) + |parts[i]| <= |Join(parts, sep)|
    ensures Join(parts, sep)[PieceStart(parts, sep, i)..PieceStart(parts, sep, i) + |parts[i]|] == parts[i]
    decreases i
  {
    if i == 0 {
      if |parts| > 1 {
        JoinFront(parts, sep);
      }
    } else {
      var rest := parts[1..];
      JoinFront(parts, sep);
      JoinPlacesPiece(rest, sep, i - 1);
      assert parts[i] == rest[i - 1];
      SliceOfBack(parts[0] + sep, Join(rest, sep), PieceStart(rest, sep, i - 1), |parts[i]|);
    }
  }

  /** A separator follows every piece of a join but the last. */
  lemma {:induction false} JoinSeparatesPiece(parts: seq<string>, sep: string, i: nat)
    requires i + 1 < |parts|
    ensures PieceStart(parts, sep, i) + |parts[i]| + |sep| <= |Join(parts, sep)|
    ensures Join(parts, sep)[PieceStart(parts, sep, i) + |parts[i]|..PieceStart(parts, sep, i) + |parts[i]| + |sep|] == sep
    decreases i
  {
    JoinFront(parts, sep);
    if i > 0 {
      var rest := parts[1..];
      JoinSeparatesPiece(rest, sep, i - 1);
      assert parts[i] == rest[i - 1];
      SliceOfBack(parts[0] + sep, Join(rest, sep), PieceStart(rest, sep, i - 1) + |parts[i]|, |sep|);
    }
  }

  /** The context holds every page content, in input order, at its start, and a
      blank line after every page content but the last. */
  lemma FormatDocsInOrder(docs: seq<Document>, i: nat)
    requires i < |docs|
    ensures var o := PieceStart(PageContents(docs), Separator, i);
      o + |docs[i].pageContent| <= |FormatDocs(docs)| &&
      FormatDocs(docs)[o..o + |docs[i].pageContent|] == docs[i].pageContent
    ensures var e := PieceStart(PageContents(docs), Separator, i) + |docs[i].pageContent|;
      i + 1 < |docs| ==> e + 2 <= |FormatDocs(docs)| && FormatDocs(docs)[e..e + 2] == Separator
  {
    JoinPlacesPiece(PageContents(docs), Separator, i);
    if i + 1 < |docs| {
      JoinSeparatesPiece(PageContents(docs), Separator, i);
    }
  }
}
