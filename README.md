# npfparser, modelled in Dafny

npfparser is a small Go program (`main.go`). It fetches the pension payment
schedule page of a Russian pension fund. From that page it takes the month
heading (`h1.page-title`) and one table cell (index 10 among the cells
matched by `table.pension-payments tbody tr td`), and prints both.

This project models the program's decision logic. The HTTP fetch and the
goquery HTML/CSS machinery are treated as inputs.

- `outcomes.dfy` (module `Outcomes`): `Option` for a goquery selection
  whose node set may be nil, the program's error values with their exact
  error texts, and `Result` for Go's `(value, error)` pairs.
- `whitespace.dfy` (module `Whitespace`): Go's `unicode.IsSpace`,
  `strings.Fields` and `strings.Join` over text as a sequence of runes,
  and the collapse `strings.Join(strings.Fields(text), " ")`.
  `IsSpace` covers the Latin-1 spaces (`\t \n \v \f \r`, space, U+0085,
  U+00A0) and the runes of the Unicode White_Space property above Latin-1.
  No-break space matters for Russian page text.
  The lemmas prove what the collapse promises:
  - the result is trimmed, has no doubled white space, and its only white
    space is a single `' '`;
  - it keeps the same fields, so collapsing is idempotent;
  - with all white space deleted, input and output are equal;
  - the result is empty exactly when the input is all white space;
  - collapsed strings are exactly its fixed points.
- `extract.dfy` (module `Extract`): `getTitle` as a function.
  `getPaymentsInfo` is a method with the source's loop over all matched
  cells, proved equal to the specification function `PaymentsInfo`.
  The lemmas about `PaymentsInfo` cover the nil selection, fewer than 11
  cells, the choice of cell 10, and the fact that the other cells do not
  matter.
- `program.dfy` (module `Program`): `main` as a pure function over the
  fetch result, which is either the page or the text of a transport error.
  It returns which stages ran and what was shown: the heading, a newline,
  the payments line and a newline, or the log message of the first stage
  that failed.

Three behaviours of the code that the model keeps:
- The payments extractor fails only when the selection's node set is nil
  (main.go:90). In goquery an empty match gives a nil node set, so
  `Some([])` does not occur in practice, but the model keeps it and treats
  it like any short selection.
- The title extractor fails only on an empty text (main.go:81). A missing
  heading gives an empty `Text()`, so "no match" folds into that case.
- A selection with fewer than 11 cells succeeds with `""` (main.go:94-103).
  The model keeps this behaviour. It is stated in
  `Extract.PaymentsShortSelectionIsEmpty` and `Extract.PaymentsEmptyIff`.

## Model

| member | source | states |
|---|---|---|
| Whitespace.IsSpace | main.go:99 | Go's `unicode.IsSpace`, which `strings.Fields` splits on: the 8 Latin-1 spaces `\t \n \v \f \r`, space, U+0085 and U+00A0, plus the White_Space runes above U+00FF (U+1680, U+2000 to U+200A, U+2028, U+2029, U+202F, U+205F, U+3000) |
| Whitespace.Fields | main.go:99 | every field `strings.Fields` returns is non-empty and holds no white-space rune |
| Whitespace.FieldsContent | main.go:99 | the fields placed end to end equal the input with every white-space rune deleted |
| Whitespace.FieldsEmptyIff | main.go:99 | there are no fields exactly when the input is all white space (the empty input included) |
| Whitespace.FieldsSkipSpaces | main.go:99 | a leading run of white space of any length does not change the fields |
| Whitespace.FieldsOfFieldThenSpaces | main.go:99 | a field followed by any non-empty run of white space becomes the first field, and the rest is split on its own |
| Whitespace.Join | main.go:99 | `strings.Join`: `""` for no parts, the only part for one, else the first part, the separator and the join of the rest |
| Whitespace.FieldsOfJoin | main.go:99 | splitting fields joined with `' '` gives back exactly those fields (Fields undoes Join) |
| Whitespace.JoinIsCollapsed | main.go:99 | fields joined with `' '` are trimmed, have no adjacent white space, and have no white space other than `' '` |
| Whitespace.Collapse | main.go:99 | `strings.Join(strings.Fields(text), " ")`; its result is trimmed at both ends, never has two adjacent white-space runes, its only white space is `' '`, and it has the same fields as the input |
| Whitespace.CollapseUnique | main.go:99 | the collapse is the only string of collapsed shape with the input's fields, so the contract of `Collapse` determines it |
| Whitespace.CollapseIdempotent | main.go:99 | collapsing an already collapsed string returns it unchanged |
| Whitespace.CollapsePreservesContent | main.go:99 | deleting all white space from the input and from the collapse gives the same string |
| Whitespace.CollapseEmptyIff | main.go:99 | the collapse is `""` exactly when the input is made only of white space |
| Whitespace.CollapsedIsFixpoint | main.go:99 | a string of collapsed shape is its own collapse, so collapsed shape and being a collapse result coincide |
| Whitespace.CollapseThreeFields | main.go:99 | three fields with arbitrary runs of white space before, between and after them collapse to the fields joined by single spaces |
| Whitespace.CollapseExample | main.go:99 | `"  Филиал\n\tМосква   12.05.2024  "` collapses to `"Филиал Москва 12.05.2024"` |
| Extract.GetTitle | main.go:79-85 | the result is the "getTitle(): data not found" error exactly when the heading text is empty; otherwise it is that text unchanged, not trimmed |
| Extract.PaymentsInfo | main.go:88-104 | the result of `getPaymentsInfo` in closed form: `Err(PaymentsNotFound)` for a nil node set, otherwise `Ok` of the collapsed cell 10, or `Ok("")` with fewer than 11 cells; the `Payments*` lemmas state its properties |
| Extract.GetPaymentsInfo | main.go:88-104 | the nil check and then the loop over every cell, keeping the collapsed cell at index 10, return exactly `PaymentsInfo` of the selection |
| Extract.PaymentsFailsExactlyOnNil | main.go:89-92 | the payments extractor fails exactly when the selection has a nil node set, and the error is "getPaymentsInfo(): data not found" |
| Extract.PaymentsShortSelectionIsEmpty | main.go:94-103 | a non-nil selection with fewer than 11 cells (zero included) succeeds with the empty string |
| Extract.PaymentsPicksCellTen | main.go:96-101 | with at least 11 cells the result is the collapse of cell 10: same fields and same non-space runes as that cell, and collapsed in shape |
| Extract.PaymentsResultIsCollapsed | main.go:94-103 | every successful result is collapsed in shape and is unchanged by collapsing again |
| Extract.PaymentsIgnoresOtherCells | main.go:96-101 | replacing the text of any cell other than index 10 leaves the result unchanged |
| Extract.PaymentsEmptyIff | main.go:94-103 | a non-nil selection yields `""` exactly when it has fewer than 11 cells or cell 10 is all white space |
| Outcomes.Failure.Text | main.go:82-91 | the text of each error: "getTitle(): data not found" (main.go:82), "getPaymentsInfo(): data not found" (main.go:91), and the transport error's own text |
| Program.LogPrefix | main.go:22-34 | the first operand of the three `log.Println` calls (main.go:22, 28, 34): one fixed Russian prefix per stage |
| Program.LogMessage | main.go:22-34 | what `log.Println(prefix, err)` writes after its timestamp: the prefix, one space, the error text and a newline |
| Program.Execute | main.go:17-38 | the stages that ran are a prefix of fetch, title, payments; title runs iff the fetch succeeded; payments runs iff fetch and title succeeded; output is printed iff all three succeed, and it is `heading + "\n" + collapsed cell 10 (or "") + "\n"`; on failure, the last stage that ran is the one that failed, and its log message is that stage's prefix and error text |
| Program.PrintedLines | main.go:26-38 | printed output is the non-empty heading, a newline, a collapsed payments line with no newline inside it, and a final newline |
| Program.ExecuteExample | main.go:17-38 | a page with heading "Май 2024" and cell 10 `"  Филиал\n\tМосква   12.05.2024  "` prints `"Май 2024\nФилиал Москва 12.05.2024\n"` |

## Left out

- `buildHttpClient` (main.go:42-54): it only sets timeouts on an HTTP
  client, with no logic to state. The timeouts are 5 s for dial, 5 s for
  the TLS handshake and 10 s overall.
- `getData` (main.go:57-76): the GET request with its user-agent header,
  the body close and the HTML parse are network I/O. Their result enters
  `Program.Execute` as a `Program.Fetched`: the page, or the text of the
  error they returned, which the model logs as a `Transport` failure.
- goquery: the HTML parsing, the selector matching and `Text()`
  concatenation are a foreign library. In the model, `Page.heading` is the
  title selection's text and `Page.cells` the texts of the matched cells,
  or `None` for a nil node set.
- Program.Execute: the real log line starts with a date and time from the
  clock, which is not modelled. Writing to standard output and the log is
  modelled as the returned `Outcome`, not as I/O.
- Whitespace.Fields: Go strings are UTF-8 bytes, and an invalid byte
  decodes as U+FFFD. The model takes text as a sequence of runes already
  decoded.
