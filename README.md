# Penal-code classifier and FIR store, in Dafny

This project models the logic of a Flask application that files First
Information Reports (FIRs). A complainant's narrative is sent to a language
model, and the sections of the Indian Penal Code it cites are pulled out of
the reply. The report, with those sections, is stored in a table keyed by
its FIR number. A separate script turns the text of a statute book into
`Section, Title, Description` rows for a corpus.

The model has five files:

- `wrappers.dfy`: the `Option` and `Result` types used for error paths.
- `citations.dfy`: `re.findall(r'Section \d+[A-Z]*', output)` as a
  left-to-right scanner (`Citations.FindAll`). `Citations.IsScan`
  describes the result independently: every span is a citation that cannot
  be extended, the spans are in order and do not overlap, and every place
  where a match could begin is covered. `Citations.ScanUnique` shows that
  exactly one list of spans fits that description. Worked inputs are in
  `CitationExamples`.
- `classifier.dfy`: `format_prompt`, and `generate` from unittester.py.
  The inference client is a parameter: a function from the prompt to the
  streamed token texts, or `None` when the call raises. The unit test's
  stubbed stream is in `ClassifierExamples`.
- `reports.dfy`: the `CrimeReport` table of app.py as the class
  `Reports.ReportStore` over a `map<string, CrimeReport>`. It has `Create`
  (`process_reported_crime`), `UpdateOutput` (`submit_ipc_sections`) and
  `Get` (the lookup of `display_fir` and `download_fir_pdf`). Each method is
  proved against a pure function of the table (`AfterCreate`,
  `AfterUpdate`, `Lookup`). The lemmas about those functions say what each
  route changes and what it leaves alone. `datetime.strptime` is a parameter:
  a partial function from text to `Option<Date>`. `ReportScenario` files
  the unit test's narrative under `FIR001` and fetches it back.
- `corpus.dfy`: the row-building loop of `main` in
  pdfParsing/py-pdf-parser.py (`Corpus.BuildRows`), proved against
  `Corpus.RowsUpTo`. It includes `str.strip`, `str.split("\n")` and
  `f"Section {i + 1}"`. The paraphrasing model is a parameter.

## Model

| member | source | states |
|---|---|---|
| Citations.RunEnd | unittester.py:46 | `\d+` and `[A-Z]*` consume characters of their class as far as they go, and stop at the end of the text or before a character outside the class |
| Citations.MatchAt | unittester.py:46 | a match is found at a position exactly when `Section `, then a digit, begins there; the match ends after the keyword and its first digit |
| Citations.GreedyMatch | unittester.py:46 | the greedy match (all the digits, then all the upper-case letters) is a citation, and no longer piece from the same start is one |
| Citations.MatchAtGreedy | unittester.py:46 | the match found at a position is a citation that cannot be extended |
| Citations.CitationStarts | unittester.py:46 | a citation in the text begins at a position where the pattern can begin |
| Citations.ScanPrepend | unittester.py:46 | a maximal match at the scan position, followed by a complete scan from its end, is a complete scan from that position |
| Citations.ScanFrom | unittester.py:46 | the reported spans lie inside the scanned part of the text, in left-to-right order, and do not overlap |
| Citations.ScanFromIsScan | unittester.py:46 | the scanner's spans are citations that cannot be extended; they are ordered and disjoint; every position where a match can begin lies inside one of them, so none is missed or begun late |
| Citations.ScanFirst | unittester.py:46 | where a match can begin at the scan position, a complete scan has its first span starting there |
| Citations.ScanHead | unittester.py:46 | when a match begins at the scan position, a complete scan starts with exactly that match, and the rest is a complete scan from its end |
| Citations.ScanNoStart | unittester.py:46 | when no match begins at the scan position, a complete scan from the next position is also one from the scan position |
| Citations.ScanNoHead | unittester.py:46 | when no match begins at the scan position, no span of a complete scan starts there |
| Citations.ScanUnique | unittester.py:46 | exactly one list of spans is a complete scan: the scanner's |
| Citations.Texts | unittester.py:46 | each reported item is the text of its span, one item per span, in span order |
| Citations.FindAll | unittester.py:46-48 | every item is `Section `, one or more digits, then only upper-case letters; the list is empty, which is not an error, exactly when no match can begin anywhere |
| Citations.ScanEmpty | unittester.py:46-48 | a complete scan is empty exactly when no position of the text can begin a match |
| Citations.FindAllCharacterised | unittester.py:46 | `findall` returns the texts of the one complete scan, in order of occurrence, with repeats kept |
| Citations.StartsWithKeyword | unittester.py:46 | a match can only begin at an `S` |
| Citations.CitationOf | unittester.py:46 | the keyword, one or more digits, then any upper-case letters, is a citation |
| Citations.MaximalBefore | unittester.py:46 | a match followed by a character that is neither a digit nor an upper-case letter cannot be extended |
| CitationExamples.SuffixedStarts | unittester.py:46 | in "Section 378 and Section 457A apply", a match can begin only at positions 0 and 16 |
| CitationExamples.SuffixedMatches | unittester.py:46 | "Section 378" and "Section 457A" are both citations that cannot be extended |
| CitationExamples.SuffixedScan | unittester.py:46 | the two spans are the complete scan of that text |
| CitationExamples.SuffixedTexts | unittester.py:46 | the two spans hold "Section 378" and "Section 457A" |
| CitationExamples.SuffixedCitations | unittester.py:46 | the upper-case suffix is kept: the result is ["Section 378", "Section 457A"] |
| CitationExamples.AdjacentMatch | unittester.py:46 | in "Section 378Section 457", "Section 378S" is a citation that cannot be extended: the match takes the `S` that follows the digits |
| CitationExamples.AdjacentStarts | unittester.py:46 | a match can begin only at positions 0 and 11 |
| CitationExamples.AdjacentCitations | unittester.py:46 | matches do not overlap: the result is ["Section 378S"], and the second `Section` is consumed |
| CitationExamples.RepeatedMatches | unittester.py:46 | both occurrences in "Section 420, Section 420" are citations that cannot be extended |
| CitationExamples.RepeatedStarts | unittester.py:46 | a match can begin only at the two occurrences |
| CitationExamples.RepeatedScan | unittester.py:46 | the two occurrences are the complete scan |
| CitationExamples.RepeatedTexts | unittester.py:46 | both spans hold "Section 420" |
| CitationExamples.RepeatedCitations | unittester.py:46 | results are not deduplicated: "Section 420" is reported twice |
| CitationExamples.TabbedStarts | unittester.py:46 | in "See Section\t302", only the `S` at position 4 could begin a match |
| CitationExamples.TabbedCitations | unittester.py:46-48 | the pattern's space is a literal space, so a tab after `Section` gives the empty list, not an error |
| Classifier.FormatPrompt | unittester.py:10-15 | the prompt is the fixed opening, the narrative verbatim, and ` [/INST]`, for every narrative including the empty one |
| Classifier.NarrativeRoundTrip | unittester.py:10-15 | the narrative can be recovered from its prompt, and only the prompt of a narrative gives that narrative back, so different narratives give different prompts |
| Classifier.PromptHoldsInstruction | unittester.py:11-12 | the system instruction appears verbatim in every prompt |
| Classifier.ConcatAppend | unittester.py:39-43 | joining fragments is compatible with cutting the stream at any point |
| Classifier.FragmentInPlace | unittester.py:39-43 | each fragment appears whole in the output, right after the fragments that came before it |
| Classifier.Assemble | unittester.py:39-43 | the loop's output is the in-order concatenation of every fragment text |
| Classifier.ClassifiedAreCitations | unittester.py:18-48 | every section `generate` returns is a citation |
| Classifier.Generate | unittester.py:18-48 | `generate` returns the citations in the joined stream for the formatted prompt, or fails when the client raises |
| ClassifierExamples.ThreeFragments | unittester.py:39-43 | fragments "A", "B", "C" join to "ABC" |
| ClassifierExamples.TheftJoined | unittester.py:55-59 | the stubbed fragments join to "Section 378 Section 457" |
| ClassifierExamples.TheftMatches | unittester.py:46 | both citations of the joined reply are matches, and the first cannot be extended |
| ClassifierExamples.TheftStarts | unittester.py:46 | a match can begin only at positions 0 and 12 of the reply |
| ClassifierExamples.TheftScan | unittester.py:46 | the two citations are the complete scan of the reply |
| ClassifierExamples.TheftTexts | unittester.py:46 | the two spans hold "Section 378" and "Section 457" |
| ClassifierExamples.TheftClassified | unittester.py:55-74 | with the client stubbed as in the unit test, `generate` on the theft narrative returns ["Section 378", "Section 457"] |
| Reports.BuildReport | app.py:56-71 | the record holds every text field of the request verbatim, the three parsed dates and the given sections; dates are parsed in the order date, dateOfOccurrence, dob, and the first that fails is the error; when all three parse, a request without a `firNo` fails with the missing-key error |
| Reports.Admit | app.py:46-79 | a create succeeds exactly when the client answers, all three dates parse, a `firNo` is given and it is not yet in the table; a `firNo` already in the table fails with the duplicate-key error; the stored narrative is the classified one (`""` when absent), and the stored output is the classification |
| Reports.CreateThenGet | app.py:46-79 | a successful create adds exactly the new record under a free key, a later fetch returns it, and every other row is unchanged; a failed create, including a duplicate key or a bad date, changes nothing |
| Reports.UpdateOnlyOutput | app.py:81-94 | an update of an existing row sets its model output and changes no other field, no other row and no key; an update of a missing key fails with not-found |
| Reports.LastUpdateWins | app.py:88-92 | two updates of the same row leave it as the second alone would |
| Reports.ReportStore.constructor | app.py:163-165 | a new table is empty |
| Reports.ReportStore.Create | app.py:46-79 | the method returns the classification or the error, and the table afterwards is the one `AfterCreate` describes; every row stays under its own key |
| Reports.ReportStore.UpdateOutput | app.py:81-94 | the method returns success with the table `AfterUpdate` describes, or not-found with the table unchanged |
| Reports.ReportStore.Get | app.py:138-161 | the result is `Lookup` of the table: the stored row for the key, or "Report not found" exactly when no row has it |
| ReportScenario.FileAndGet | app.py:46-79 | the unit test's narrative filed as FIR001 into a new table is fetched back with the narrative and ["Section 378", "Section 457"] as its model output |
| Corpus.TrimStart | pdfParsing/py-pdf-parser.py:53 | what is removed from the front is white space, and what remains is a suffix that does not begin with white space |
| Corpus.TrimEnd | pdfParsing/py-pdf-parser.py:53 | what is removed from the back is white space, and what remains is a prefix that does not end with white space |
| Corpus.Strip | pdfParsing/py-pdf-parser.py:53-64 | `strip()` neither begins nor ends with white space, and it is empty exactly when the text is all white space |
| Corpus.Split | pdfParsing/py-pdf-parser.py:60 | `split("\n")` gives at least one piece, and no piece holds a line feed |
| Corpus.SplitJoin | pdfParsing/py-pdf-parser.py:60 | joining the pieces with line feeds gives the text back |
| Corpus.SplitPrefix | pdfParsing/py-pdf-parser.py:60 | text before the first line feed belongs to the first piece |
| Corpus.JoinSplit | pdfParsing/py-pdf-parser.py:60 | splitting a join of pieces without line feeds gives those pieces back |
| Corpus.SplitBlank | pdfParsing/py-pdf-parser.py:60-64 | a blank text splits into blank lines only |
| Corpus.TitlePrefix | pdfParsing/py-pdf-parser.py:66 | a title is the first `min(50, len(line))` characters of its line |
| Corpus.DigitChar | pdfParsing/py-pdf-parser.py:65 | each digit value has a decimal digit character with that value |
| Corpus.Decimal | pdfParsing/py-pdf-parser.py:65 | the numeral of a number is one or more decimal digits, with no leading zero |
| Corpus.DecimalRoundTrip | pdfParsing/py-pdf-parser.py:65 | the numeral of a number denotes that number |
| Corpus.LabelRoundTrip | pdfParsing/py-pdf-parser.py:65 | a label gives back its line number, so different lines get different labels |
| Corpus.RowsUpTo | pdfParsing/py-pdf-parser.py:61-68 | there are as many rows as there are lines that are not blank |
| Corpus.Kept | pdfParsing/py-pdf-parser.py:63-64 | the kept line numbers strictly increase and lie among the lines visited |
| Corpus.KeptExactly | pdfParsing/py-pdf-parser.py:63-64 | a line is kept exactly when it is not blank |
| Corpus.RowsByLine | pdfParsing/py-pdf-parser.py:63-68 | the rows are the rows of the kept lines, one each, in line order |
| Corpus.RowLabel | pdfParsing/py-pdf-parser.py:63-65 | a row's label carries the 1-based number of its line among all lines, so the numbers of blank lines are skipped |
| Corpus.RowLabelsIncrease | pdfParsing/py-pdf-parser.py:63-65 | the labels of later rows carry strictly larger numbers |
| Corpus.RowText | pdfParsing/py-pdf-parser.py:64-67 | a row's description is its line unchanged and not blank; its title is a prefix of it, `min(50, len(line))` characters long |
| Corpus.RowCount | pdfParsing/py-pdf-parser.py:60-68 | there are never more rows than lines |
| Corpus.BlankLinesNoRows | pdfParsing/py-pdf-parser.py:63-64 | lines that are all blank produce no rows |
| Corpus.BlankTextNoRows | pdfParsing/py-pdf-parser.py:60-68 | a blank text produces no rows |
| Corpus.BuildRows | pdfParsing/py-pdf-parser.py:61-68 | the loop's list is the rows of the lines that are not blank, in line order |
| Corpus.ProcessText | pdfParsing/py-pdf-parser.py:50-70 | a blank extracted text gives no rows and no CSV; otherwise the rows are those of the paraphrased text's lines |
| CorpusExamples.ExampleSplit | pdfParsing/py-pdf-parser.py:60 | "Theft\n\n  \nRobbery" splits into four lines, the empty and blank ones included |
| CorpusExamples.ExampleRows | pdfParsing/py-pdf-parser.py:63-68 | those lines give two rows, labelled "Section 1" and "Section 4" |

## Left out

- `\d` is modelled as the ASCII digits 0-9 only. Python's `re` on `str` also matches other Unicode decimal digits, such as Devanagari digits, which OCR of Hindi text could produce.
- The sampling parameters of `generate` are not modelled: the temperature clamp to 0.01, `max_new_tokens`, `top_p`, `repetition_penalty` and the seed. They are floating-point settings passed to the remote model.
- The inference client is a parameter. The network call, streaming and the `unittest.mock` machinery are not modelled; any exception from the client is one failure value.
- app.py imports `generate` from a module `main`. That module is not part of this model; the `generate` of unittester.py stands in for it.
- `datetime.strptime` is an abstract parameter. Its format rules, and the time of day in the `datetime` it returns, are not modelled.
- The SQLAlchemy session, transactions, SQLite and concurrent requests are not modelled. Each route is one atomic step on an in-memory map.
- `Reports.ReportStore.Create`: the `modelOutput` column is declared as a string, but a Python list is bound to it. The sqlite3 driver has no adapter for a list, so the commit in the source would raise; the model stores the list as a sequence and does not capture that failure.
- `Reports.ReportStore.UpdateOutput`: a request without `ipcSections` stores NULL in the source. The model always takes a list of sections. The list is bound to the string column `modelOutput` here too, and the sqlite3 driver has no adapter for a list, so the commit in the source would raise; the model's update succeeds as if the list were stored.
- JSON details are not modelled. A missing body, a JSON `null` versus an absent key, and non-string values all fall outside the request type, which has only text or absent fields.
- `Reports.ReportError` only tells the kinds of error apart. The exception message returned with status 500 is not modelled.
- Flask routing, templates, HTTP status codes, OCR with pytesseract, uploads, PDF export with pdfkit, and reading the IPC CSV file are not modelled. They are I/O and foreign libraries; only the key lookup of `download_fir_pdf` is kept.
- PyMuPDF text extraction, the paraphrasing pipeline and `write_to_csv` in pdfParsing/py-pdf-parser.py are not modelled. The extracted text is an input, the paraphraser is a parameter, and the rows are returned instead of written.
