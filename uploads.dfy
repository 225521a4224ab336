/**
 * The uploaded file as the extractor and the validator see it (FastAPI's
 * `UploadFile`), the two accepted media types, and the `ValueError` both raise.
 *
 * The bytes of the file are not modelled. Instead an upload carries what the
 * two foreign parsers would yield for it: the text of each page when pymupdf
 * opens it as a PDF, and the text of each paragraph when python-docx opens it.
 */
module Uploads {

  const PdfType := "application/pdf"
  const DocxType := "application/vnd.openxmlformats-officedocument.wordprocessingml.document"

  datatype Upload = Upload(contentType: string, pdfPages: seq<string>, docxParagraphs: seq<string>)

  /** Python's `ValueError` with its message. */
  datatype Error = ValueError(message: string)
}
