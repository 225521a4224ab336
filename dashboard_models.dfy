/** `validate_file_type`: the upload whitelist applied before extraction. */
module DashboardModels {
  import opened Wrappers
  import opened Uploads
  import TextExtractor

  const ValidTypes := [PdfType, DocxType]
  const NotAccepted := "Only PDF and DOCX files are accepted"

  /** Returns the same file when its content type is in the whitelist, else a `ValueError`. */
  function ValidateFileType(file: Upload): (r: Result<Upload, Error>)
    ensures r.Success? <==> file.contentType == PdfType || file.contentType == DocxType
    ensures r.Success? ==> r.value == file
    ensures r.Failure? ==> r.error == ValueError(NotAccepted)
  {
    if file.contentType !in ValidTypes then Failure(ValueError(NotAccepted))
    else Success(file)
  }

  /** Validating an accepted file again accepts it again and returns it unchanged. */
  lemma ValidateIdempotent(file: Upload)
    requires ValidateFileType(file).Success?
    ensures ValidateFileType(ValidateFileType(file).value) == ValidateFileType(file)
  {
  }

  /** The validator accepts exactly the content types the extractor can handle. */
  lemma ValidatorMatchesExtractor(file: Upload)
    ensures ValidateFileType(file).Success? <==> TextExtractor.Dispatch(file.contentType).Some?
  {
  }
}
