/**
 * `TextExtractor`: dispatch on the declared content type, then join the page
 * or paragraph texts, each followed by a newline.
 */
module TextExtractor {
  import opened Wrappers
  import opened Uploads

  const UnsupportedFormat := "Unsupported file format. Only PDF and DOCX files are supported."

  /** The two document kinds the extractor can parse. */
  datatype Format = Pdf | Docx

  /** The branch `extract_text` takes: the PDF test comes first, then DOCX, else an error. */
  function Dispatch(contentType: string): (f: Option<Format>)
    ensures f == Some(Pdf) <==> contentType == PdfType
    ensures f == Some(Docx) <==> contentType == DocxType
    ensures f == None <==> contentType != PdfType && contentType != DocxType
  {
    if contentType == PdfType then Some(Pdf)
    else if contentType == DocxType then Some(Docx)
    else None
  }

  /** The text built by `text += part + "\n"` over `parts`. */
  function Concat(parts: seq<string>): string {
    if parts == [] then ""
    else Concat(parts[..|parts| - 1]) + parts[|parts| - 1] + "\n"
  }

  /** Reference reading of the same text: the first part and its newline, then the rest. */
  function JoinFront(parts: seq<string>): string {
    if parts == [] then "" else parts[0] + "\n" + JoinFront(parts[1..])
  }

  /** The total length of the parts, without newlines. */
  function SumLengths(parts: seq<string>): nat {
    if parts == [] then 0 else SumLengths(parts[..|parts| - 1]) + |parts[|parts| - 1]|
  }

  /**
   * A pymupdf document handle: its page texts and whether it is still open.
   * `close` is the one state change the extractor makes. `PageCount` and
   * `PageText` stand in for pymupdf's `page_count` and
   * `load_page(i).get_text()`, whose internals are not modelled.
   */
  class PdfDocument {
    const pages: seq<string>
    var isOpen: bool

    /** `pymupdf.open("pdf", content)` */
    constructor Open(pages: seq<string>)
      ensures this.pages == pages && isOpen
    {
      this.pages := pages;
      isOpen := true;
    }

    /** `doc.page_count` */
    function PageCount(): (n: nat)
      ensures n == |pages|
    {
      |pages|
    }

    /** `doc.load_page(i).get_text()` on an open document. */
    method PageText(i: nat) returns (text: string)
      requires isOpen && i < |pages|
      ensures text == pages[i]
    {
      text := pages[i];
    }

    /** `doc.close()` */
    method Close()
      modifies this
      ensures !isOpen
    {
      isOpen := false;
    }
  }

  /** `_extract_from_pdf`: every page's text and a newline, in page order; then the handle is closed. */
  method ExtractFromPdf(doc: PdfDocument) returns (text: string)
    requires doc.isOpen
    modifies doc
    ensures !doc.isOpen
    ensures text == Concat(doc.pages)
  {
    text := "";
    for pageNum := 0 to doc.PageCount()
      invariant doc.isOpen
      invariant text == Concat(doc.pages[..pageNum])
    {
      var pageText := doc.PageText(pageNum);
      assert doc.pages[..pageNum + 1][..pageNum] == doc.pages[..pageNum];
      text := text + pageText + "\n";
    }
    assert doc.pages[..|doc.pages|] == doc.pages;
    doc.Close();
  }

  /** `_extract_from_docx`: every paragraph's text and a newline, in document order. */
  method ExtractFromDocx(paragraphs: seq<string>) returns (text: string)
    ensures text == Concat(paragraphs)
  {
    text := "";
    for i := 0 to |paragraphs|
      invariant text == Concat(paragraphs[..i])
    {
      assert paragraphs[..i + 1][..i] == paragraphs[..i];
      text := text + paragraphs[i] + "\n";
    }
    assert paragraphs[..|paragraphs|] == paragraphs;
  }

  /**
   * `extract_text`. Besides the result it returns the PDF handle the call
   * opened, if any: a fresh handle, already closed, exactly on the PDF branch.
   */
  method ExtractText(file: Upload) returns (r: Result<string, Error>, doc: PdfDocument?)
    ensures (doc != null) == (file.contentType == PdfType)
    ensures doc != null ==> fresh(doc) && !doc.isOpen && doc.pages == file.pdfPages
    ensures file.contentType == PdfType ==> r == Success(Concat(file.pdfPages))
    ensures file.contentType == DocxType ==> r == Success(Concat(file.docxParagraphs))
    ensures file.contentType != PdfType && file.contentType != DocxType ==>
      r == Failure(ValueError(UnsupportedFormat))
  {
    doc := null;
    if file.contentType == PdfType {
      doc := new PdfDocument.Open(file.pdfPages);
      var text := ExtractFromPdf(doc);
      r := Success(text);
    } else if file.contentType == DocxType {
      var text := ExtractFromDocx(file.docxParagraphs);
      r := Success(text);
    } else {
      r := Failure(ValueError(UnsupportedFormat));
    }
  }

  // ---------------------------------------------------------------------------
  // Properties of the concatenation

  /** Joining `a + b` is joining `a`, then joining `b`. */
  lemma {:induction false} ConcatAppend(a: seq<string>, b: seq<string>)
    ensures Concat(a + b) == Concat(a) + Concat(b)
    decreases |b|
  {
    if b == [] {
      assert a + b == a;
    } else {
      var init := b[..|b| - 1];
      ConcatAppend(a, init);
      assert (a + b)[..|a + b| - 1] == a + init;
    }
  }

  /** The accumulated text agrees with the head-first reading of the join. */
  lemma {:induction false} ConcatIsJoinFront(parts: seq<string>)
    ensures Concat(parts) == JoinFront(parts)
  {
    if parts != [] {
      ConcatIsJoinFront(parts[1..]);
      ConcatAppend([parts[0]], parts[1..]);
      assert [parts[0]] + parts[1..] == parts;
      assert [parts[0]][..0] == [];
    }
  }

  /** Every part contributes its characters and one newline. */
  lemma {:induction false} ConcatLength(parts: seq<string>)
    ensures |Concat(parts)| == SumLengths(parts) + |parts|
  {
    if parts != [] {
      ConcatLength(parts[..|parts| - 1]);
    }
  }

  /** No parts give ""; otherwise the text ends in a newline. */
  lemma ConcatEmptyOrNewline(parts: seq<string>)
    ensures parts == [] <==> Concat(parts) == ""
    ensures parts != [] ==> Concat(parts)[|Concat(parts)| - 1] == '\n'
  {
  }

  /** Two pages reading "Sample PDF text" give "Sample PDF text\nSample PDF text\n". */
  lemma TwoPageExample()
    ensures Concat(["Sample PDF text", "Sample PDF text"]) == "Sample PDF text\nSample PDF text\n"
  {
  }

  /** Two paragraphs give their texts, each followed by a newline, in document order. */
  lemma TwoParagraphExample()
    ensures Concat(["Sample DOCX text line 1", "Sample DOCX text line 2"])
         == "Sample DOCX text line 1\nSample DOCX text line 2\n"
  {
  }

  /**
   * The PDF and DOCX media types differ, so the PDF test, checked first, never
   * captures the DOCX type, and the error applies only when both tests fail.
   */
  lemma BranchesExclusive(contentType: string)
    ensures contentType == PdfType ==> contentType != DocxType
    ensures contentType == DocxType ==> Dispatch(contentType) == Some(Docx)
    ensures Dispatch(contentType) == None ==> contentType != PdfType && contentType != DocxType
  {
  }
}
