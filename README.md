# Resume scoring: report builder, text extraction and upload validation

This project models the deterministic bookkeeping of a resume-scoring service
in Dafny and proves properties of it. Three parts are modelled:

- **Report builder** (`CSVUtils.create_csv`). It takes the ranking results of a
  batch, each with a candidate name and a list of `{criteria, score}` items,
  and builds the CSV table. The columns are `Candidate Name`, then the sorted
  union of all criterion names in the batch, then `Total Score`. There is one
  row per candidate, in input order. A criterion the candidate never scored
  holds 0, a repeated criterion keeps its last score, and the total adds up
  every score. An empty batch writes nothing and returns `""`.
- **Text extractor** (`TextExtractor`). It dispatches on the declared content
  type. A PDF yields each page's text followed by a newline, in page order,
  and the document handle is then closed. A DOCX yields each paragraph's text
  followed by a newline. Any other type raises `ValueError("Unsupported file
  format. ...")` and opens no PDF handle.
- **Upload validator** (`validate_file_type`). It accepts exactly the PDF and
  DOCX media types and returns the file unchanged. Any other type raises
  `ValueError("Only PDF and DOCX files are accepted")`.

Modules:

- `Wrappers`: `Option` and `Result`.
- `LexOrder`: Python's `<` on `str`, which compares code point by code point and puts a proper prefix first. It also defines strictly sorted lists and proves that a set has exactly one of them.
- `CsvUtils`: the report builder. It has methods with loops (`CollectCriteria`, `SortCriteria`, `BuildRow`, `BuildRows`) and `CreateCsv`, which calls them. Each is proved against the declarative specification functions (`AllCriteria`, `RowOf`, `Total`, `LastScore`, `CellValue`, `IsReportFor`).
- `Uploads`: the uploaded file, the two media types, and `ValueError`.
- `TextExtractor`: dispatch, the PDF handle class, and the concatenation loops, proved against `Concat`.
- `DashboardModels`: the validator.

The model follows the code:

- The headers are the raw criterion keys. They are not title-cased.
- The total is a plain integer. It is not rendered as "sum/max".
- Scores are unbounded integers. They are not limited to 0..5.

A row is the dictionary passed to `DictWriter.writerow`, modelled as a map from field name to cell. So the model also covers the rare case of a criterion named `Candidate Name` or `Total Score`. Such a criterion overwrites that entry of the row, exactly as the dictionary does, and then appears twice in the header. The lemmas about the name cell therefore assume that no criterion is named `Candidate Name`.

## Model

| member | source | states |
|---|---|---|
| `LexOrder.LessIrreflexive` | app/core/utils/csv_utils.py:49 | no string sorts before itself under Python's string order |
| `LexOrder.LessAsymmetric` | app/core/utils/csv_utils.py:49 | if a sorts before b then b does not sort before a |
| `LexOrder.LessTransitive` | app/core/utils/csv_utils.py:49 | the string order is transitive |
| `LexOrder.LessTotal` | app/core/utils/csv_utils.py:49 | any two different strings are ordered one way or the other |
| `LexOrder.LeastExists` | app/core/utils/csv_utils.py:49 | every non-empty set of criterion names has a least element |
| `LexOrder.StrictlySortedDistinct` | app/core/utils/csv_utils.py:49 | a sorted list of a set has no duplicates: as many distinct elements as entries |
| `LexOrder.SortedListUnique` | app/core/utils/csv_utils.py:49 | two strictly sorted listings of the same set are equal, so `sorted(list(s))` is determined by `s` |
| `CsvUtils.CollectCriteria` | app/core/utils/csv_utils.py:44-47 | the nested loop's set is exactly the union of the criterion names of every candidate's `scores` (missing `scores` counts as empty) |
| `CsvUtils.SortCriteria` | app/core/utils/csv_utils.py:49 | the result is strictly sorted and its elements are exactly the input set |
| `CsvUtils.BuildRow` | app/core/utils/csv_utils.py:59-73 | the row equals the declarative row: the name (or "Unknown"), 0 for every column, overwritten by the last score of each scored criterion, and the total |
| `CsvUtils.BuildRows` | app/core/utils/csv_utils.py:58-74 | one row per candidate, row k built from candidate k |
| `CsvUtils.CreateCsv` | app/core/utils/csv_utils.py:11-76 | no table exactly when the batch is empty; otherwise the header is "Candidate Name", the sorted union of criteria, then "Total Score", and row k is candidate k's row |
| `CsvUtils.AllCriteriaMembers` | app/core/utils/csv_utils.py:44-49 | a name is a column if and only if some candidate in the batch scored it |
| `CsvUtils.LastScoreNone` | app/core/utils/csv_utils.py:62-70 | a criterion has no score if and only if none of the candidate's items names it |
| `CsvUtils.LastScoreIsLastOccurrence` | app/core/utils/csv_utils.py:67-70 | when a criterion occurs several times, the score of its last occurrence is the one kept |
| `CsvUtils.TotalAppend` | app/core/utils/csv_utils.py:66-71 | the total of two concatenated item lists is the sum of their totals, so every item, duplicates included, is added |
| `CsvUtils.ReportHeaderLength` | app/core/utils/csv_utils.py:53 | the header has as many entries as there are distinct criteria, plus 2 |
| `CsvUtils.ReportLayout` | app/core/utils/csv_utils.py:53-74 | the field names are the name column, the criterion columns and the total column, and row i is candidate i's row |
| `CsvUtils.ReportUnique` | app/core/utils/csv_utils.py:44-53 | two tables meeting the report specification for the same batch are equal |
| `CsvUtils.ReportRowKeysAreFieldnames` | app/core/utils/csv_utils.py:44-71 | every key of every row is one of the header field names, so the writer meets no stray column |
| `CsvUtils.ReportRowsComplete` | app/core/utils/csv_utils.py:53-63 | every field name has a cell in every row |
| `CsvUtils.ReportCellUnscored` | app/core/utils/csv_utils.py:62-63 | a column the candidate never scored holds 0 |
| `CsvUtils.ReportCellScored` | app/core/utils/csv_utils.py:67-70 | a column the candidate scored holds the score of its last occurrence |
| `CsvUtils.ReportTotal` | app/core/utils/csv_utils.py:66-73 | the "Total Score" cell is the sum of all of the candidate's scores |
| `CsvUtils.ReportName` | app/core/utils/csv_utils.py:59 | unless a criterion is named "Candidate Name", that cell holds the name, or "Unknown" when it is missing |
| `CsvUtils.EmptyCandidateRow` | app/core/utils/csv_utils.py:59-73 | a result with no name and no scores gives "Unknown", 0 in every criterion column and total 0 |
| `CsvUtils.TwoCandidateHeader` | app/core/utils/csv_utils.py:44-53 | A {required_skills 5, preferred_skills 3} and B {required_skills 2} give the header [Candidate Name, preferred_skills, required_skills, Total Score] |
| `CsvUtils.TwoCandidateRows` | app/core/utils/csv_utils.py:58-74 | for the same batch the rows are A: 3, 5, total 8 and B: 0, 2, total 2 |
| `TextExtractor.Dispatch` | app/core/text_extractor.py:33-38 | PDF exactly for "application/pdf", DOCX exactly for the DOCX media type, no branch for every other type |
| `TextExtractor.PdfDocument.Open` | app/core/text_extractor.py:54 | opening gives an open handle over the document's pages |
| `TextExtractor.PdfDocument.Close` | app/core/text_extractor.py:63 | after closing, the handle is no longer open |
| `TextExtractor.ExtractFromPdf` | app/core/text_extractor.py:43-64 | the text is every page's text followed by a newline, in page order, and the handle is closed afterwards |
| `TextExtractor.ExtractFromDocx` | app/core/text_extractor.py:66-84 | the text is every paragraph's text followed by a newline, in document order |
| `TextExtractor.ExtractText` | app/core/text_extractor.py:15-41 | a PDF yields the page join and returns the fresh handle it opened, now closed; a DOCX yields the paragraph join; any other type yields the "Unsupported file format" ValueError and opens no PDF handle |
| `TextExtractor.ConcatAppend` | app/core/text_extractor.py:55-60 | joining a + b is joining a followed by joining b |
| `TextExtractor.ConcatIsJoinFront` | app/core/text_extractor.py:58-60 | the accumulated text equals the head-first reading: first part, newline, then the rest |
| `TextExtractor.ConcatLength` | app/core/text_extractor.py:55-60 | the length is the sum of the part lengths plus the number of parts |
| `TextExtractor.ConcatEmptyOrNewline` | app/core/text_extractor.py:55-60 | no parts give the empty text; otherwise the text ends in a newline |
| `TextExtractor.TwoPageExample` | app/tests/test_text_extractor.py:33 | two pages of "Sample PDF text" give "Sample PDF text\nSample PDF text\n" |
| `TextExtractor.TwoParagraphExample` | app/tests/test_text_extractor.py:57 | two paragraphs give "Sample DOCX text line 1\nSample DOCX text line 2\n" |
| `TextExtractor.BranchesExclusive` | app/core/text_extractor.py:33-38 | the PDF test never captures the DOCX type, the DOCX type reaches its own branch, and the error applies only when the type is neither |
| `DashboardModels.ValidateFileType` | app/models/dashboard_models.py:5-27 | succeeds if and only if the type is one of the two accepted types; on success returns the same file; otherwise the "Only PDF and DOCX files are accepted" ValueError |
| `DashboardModels.ValidateIdempotent` | app/models/dashboard_models.py:22-27 | validating an accepted file again accepts it again with the same result |
| `DashboardModels.ValidatorMatchesExtractor` | app/models/dashboard_models.py:19-23 | a file passes validation if and only if the extractor has a branch for its content type |

## Left out

- File output in `create_csv`: the output directory, the timestamped file name, `open`, and the quoting and escaping done by `csv.DictWriter`. These are I/O and a library serialiser. `CreateCsv` returns the table that would be written instead of the path.
- A score item without a `criteria` or `score` key. This raises `KeyError` in the source. The model's items always have both keys.
- A `score` that is not an integer. Python would add whatever the language model returned, while the model's scores are integers.
- `await file.read()` and the parsers themselves (pymupdf and python-docx). An upload carries the page and paragraph texts those parsers would yield for its bytes.
- A parser failing on corrupt content. The source has no `try`/`finally`, so a PDF handle stays open when a page fails to load. The model has no such failure.
- The `print` call in `validate_file_type`. It is logging only.
- The language-model calls in `criteria_extractor.py`, `resume_ranker.py` and `llm_handler.py`, and the parsing of their replies with `ast.literal_eval`. These are a foreign network service and Python's literal parser. Their outputs enter the model as the `Candidate` values given to `CreateCsv`.
- The concurrent fan-out in `dashboard_views.py`, the HTTP routes, the application setup and the configuration. These are concurrency and framework glue around foreign calls.
- Unicode: Dafny's `char` is a Unicode scalar value, so `LexOrder.Less` compares code points as Python does. Strings holding lone surrogates are not modelled.
