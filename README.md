# Quote request handler: a Dafny model

The system is a small web application. It takes a budget/quote form (client
name, CPF/CNPJ tax id, service description, notes, total value), escapes the
text fields for HTML, validates them, renders a quote document and returns it
as a PDF download. This project models the pure logic of its one request
handler, `app.py`:

- `escape_html`, the chain of `str.replace` calls that turns `&`, `<`, `>`,
  `"` and `'` into entities (module `Html`).
- The validation of a POST submission (module `Orcamento`). The checks stop
  at the first failure, in this order: the required fields, the number
  parse, the sign test, then the CPF/CNPJ digit count.
- The success path: placeholders for an empty tax id and empty notes, the
  PDF path built from the escaped name and the date, and the 400/500/PDF
  responses.

Module `PyText` models the Python built-ins the handler uses: truthiness of
an optional form value, `str.replace` with a one-character pattern,
`re.sub(r'[^\d]', '', s)` and `re.match(r'^(\d{11}|\d{14})$', s)` on a
string of digits, which is all the handler passes it. Module
`Options` holds `Option` and `Result`.

Each form field is an `Option<string>`, because `request.form.get` yields
`None` for an absent field. Python's `not x` is `Falsy` (`None` or `""`).
`float()` is a parameter `parse: string -> Option<Float>`: `None` stands for
`ValueError`, and `Float` has NaN and both infinities. The sign test
`x <= 0` is therefore modelled with Python's comparison rules: NaN and `+inf`
pass it. The clock is the parameter `today`. The PDF writer is the parameter
`writePdf`, which returns the text of the error it raised, if any.

Notes on the code's behaviour:
- Required fields are tested for emptiness only (app.py:32); nothing is
  trimmed, so a whitespace-only name passes.
- The digit count of the tax id is taken on the ESCAPED value (app.py:26,
  47). Each `'` becomes `&#39;`, which adds the digits `3` and `9`. So nine
  digits and an apostrophe are accepted as a CPF (`ApostropheCompletesTaxId`).
- The PDF path uses the escaped client name and ends in `.pdf` (app.py:73).
- The placeholders replace empty values as well as absent ones, because the
  code uses `x or placeholder` (app.py:64, 66).

## Model

| member | source | states |
|---|---|---|
| `PyText.Replace` | app.py:18 | `str.replace` with a one-character pattern leaves a string without the pattern unchanged and never shortens it when the replacement is non-empty |
| `PyText.ReplaceByCharAt` | app.py:73 | replacing a character by a one-character string keeps the length and changes exactly the positions holding that character |
| `PyText.StripNonDigits` | app.py:47 | `re.sub(r'[^\d]', '', s)` yields only digits and is no longer than its input |
| `Html.EscapeHtml` | app.py:14-18 | a falsy value (`None` or empty) is returned unchanged; any other value becomes the per-character escape `EscapeAll` of its text |
| `Html.ReplaceChainChar` | app.py:18 | on one character the five chained replacements give exactly that character's entity: later steps never touch an entity written by an earlier one, because `&` goes first |
| `Html.ReplaceChainIsEscapeAll` | app.py:18 | the chained replacements equal the concatenation of the per-character map `&`→`&amp;`, `<`→`&lt;`, `>`→`&gt;`, `"`→`&quot;`, `'`→`&#39;`, other characters unchanged |
| `Html.EscapeAllSafe` | app.py:18 | the escaped text contains no `<`, `>`, `"` or `'`, is at least as long as the input, and is empty exactly when the input is |
| `Html.EscapeAllIdentity` | app.py:18 | escaping leaves a string unchanged if and only if it contains none of the five special characters |
| `Html.UnescapeEscape` | app.py:18 | no double escaping: reading the five entities back recovers the original text |
| `Html.EscapeAllInjective` | app.py:18 | two different texts never escape to the same text |
| `Html.EscapeHtmlFalsy` | app.py:16-18 | `escape_html` returns a falsy value exactly for falsy input, so the emptiness checks on escaped fields are checks on the raw fields |
| `Orcamento.Validate` | app.py:25-50 | an accepted submission has a total that `float` parsed and that is not `<= 0`, and a non-empty escaped name and description |
| `Orcamento.ValidatedFields` | app.py:25-28 | an accepted submission carries the escaped name, description, tax id and notes of the form |
| `Orcamento.MissingFieldFirst` | app.py:32-34 | an empty or absent name, description or total gives `MissingRequiredField`, whatever the number parser and the tax id are |
| `Orcamento.NumberDecidedBeforeTaxId` | app.py:36-43 | with the required fields present, an unparsable total gives `InvalidNumber` and a total `<= 0` gives `NonPositiveValue`, whatever the tax id is |
| `Orcamento.TaxIdPatternIsLength` | app.py:47-48 | the stripped tax id matches the 11-or-14-digit pattern exactly when it has 11 or 14 characters, whatever the digits are |
| `Orcamento.TaxIdDecidesLast` | app.py:45-50 | once the total is accepted, the submission fails, and then with `InvalidTaxId`, exactly when the tax id is non-empty and its escaped form holds neither 11 nor 14 digits |
| `Orcamento.ValidateSucceedsIff` | app.py:25-50 | validation succeeds if and only if the required fields are present, the total parses, it is not `<= 0`, and the tax id is absent or has 11 or 14 digits after escaping |
| `Orcamento.AcceptedTotals` | app.py:38 | Python's `x <= 0` lets a positive finite value, `+inf` and NaN through, and nothing else |
| `Orcamento.TaxIdDigitsAfterEscaping` | app.py:26-47 | the digits counted from the escaped tax id are the digits of the raw tax id with each apostrophe replaced by `39` |
| `Orcamento.ApostropheCompletesTaxId` | app.py:26-50 | nine (or twelve) digits followed by an apostrophe have only 9 (or 12) digits, yet pass the tax-id check |
| `Orcamento.PlaceholderIsNoTaxId` | app.py:64 | no accepted, non-empty tax id escapes to the placeholder `Não informado` |
| `Orcamento.PdfPathShape` | app.py:73 | the PDF path is `orcamento_`, the name, `_`, the date with each `/` turned into `-` and nothing else changed, then `.pdf`; the part after the name holds no `/` |
| `Orcamento.HandlePost` | app.py:23-87 | every text response has status 400 or 500; a PDF response has media type `application/pdf` and uses the path as its download name |
| `Orcamento.RejectedBeforePdf` | app.py:32-50 | the response is a 400 exactly when validation fails; it then carries that failure's message and no PDF is written |
| `Orcamento.InvalidNumberResponse` | app.py:41-43 | an unparsable total is answered with 400 and `O valor total deve ser um número válido.` |
| `Orcamento.NonPositiveResponse` | app.py:38-40 | a total `<= 0` is answered with 400 and `O valor total deve ser maior que zero.` |
| `Orcamento.InvalidTaxIdResponse` | app.py:46-50 | a rejected tax id after an accepted total is answered with 400 and the CPF/CNPJ message |
| `Orcamento.ShortTaxIdRejected` | app.py:46-50 | the tax id `123` is rejected |
| `Orcamento.PdfFailureIs500` | app.py:74-79 | when writing the PDF raises an error, the answer is 500 with `Erro ao gerar PDF: ` followed by the error text |
| `Orcamento.DeliveredAfterValidation` | app.py:61-87 | a valid submission whose PDF the writer produces without error is answered with that PDF as an `application/pdf` attachment of its assembled quote, at its computed path; conversely a PDF is delivered only in that case |
| `Orcamento.SuccessDocument` | app.py:61-73 | in a delivered quote the tax id shows `Não informado` if and only if none was given, and otherwise its escaped value; empty notes show `Nenhuma observação fornecida.`; name and description are escaped; the total is the parsed one; the path is built from the escaped name and the date |
| `Orcamento.PlaceholdersHaveNoMarkup` | app.py:64-66 | neither placeholder contains `<`, `>`, `"` or `'` |
| `Orcamento.DocumentHasNoMarkup` | app.py:25-28 | no escaped or placeholder field of a delivered quote (name, tax id, description, notes) contains `<`, `>`, `"` or `'`, so input such as `<script>` never reaches the template unescaped; the date field comes from the clock and is not covered |

## Left out

- PyText.StripNonDigits: Python's `\d` on `str` matches every Unicode decimal digit (category Nd). The model counts only the ASCII digits `0`-`9` (`PyText.IsDigit`), so the model and the code disagree in both directions: a tax id of eleven Arabic-Indic digits is rejected here but accepted by the code, and `12345678901` followed by an Arabic-Indic digit is accepted here (11 digits) but rejected by the code (12 digits).
- PyText.MatchesTaxIdPattern: Python's `$` also matches before one final newline, so `re.match` accepts `12345678901` followed by `\n` while the predicate does not. The handler only matches the output of `re.sub(r'[^\d]', '', ...)` (app.py:47-48), which holds no newline, so its behaviour is unaffected.
- `float()` (app.py:37) is the parameter `parse`. Which strings parse, and to which value, is not modelled; only `ValueError` versus a value (finite, infinite or NaN) is.
- The two prices (app.py:53-55), `f"{x:.2f}"` of the total and of the total times 1.05, are floating-point formatting and are not modelled. The quote carries the parsed total instead.
- `datetime.now().strftime('%d/%m/%Y')` (app.py:58) reads the clock; the date string is the parameter `today`.
- `render_template` (app.py:61-70) is a library call: the model stops at the `Quote` value of template arguments and does not build the HTML.
- WeasyPrint's `write_pdf` (app.py:75) is a foreign call that writes a file; it is the parameter `writePdf`. Its bytes and the file system are not modelled.
- `send_file` (app.py:82-87) is modelled only as the `PdfDownload` response value.
- The GET branch (app.py:93-94), Flask routing (app.py:8, 20-22), logging (app.py:10-12 and throughout) and `app.run` (app.py:96-97) are framework and I/O code.
- The outer catch-all (app.py:89-91) turns any other exception into a 500. The model raises no exception other than the PDF writer's, so this path is not modelled.
- The temporary PDF is never deleted, and two requests can share a path. Both concern the file system and are not modelled.
