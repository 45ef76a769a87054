# Alice invoice downloader: decoding, URL building and download bookkeeping

This project models the pure core of `alice-invoices.py`. That script logs in
to the customer portal of the German telco Alice (o2) and downloads every
invoice PDF not yet present in a target folder. The model covers the parts
that are plain data processing once the HTTP traffic is abstracted away:

- **Invoice links** (`InvoiceLinks`). Each matched `href` of a "PDF" anchor
  is decoded: `link[19:-1]`, every `'` and every space deleted, then split on
  `,`. The positional fields are substituted into `url_template`, the fixed
  download URL template with all its whitespace translated away. The field
  mapping is fixed and needs at least 11 fields; fewer raise `IndexError`.
  The hrefs are unicode and the template is a byte string, so a character
  outside ASCII in one of fields 1 to 10 makes `format` raise
  `UnicodeEncodeError`. Field 0 and fields past 10 never reach `format`.
- **Downloads** (`Downloads`). The file name is
  `response.info()["Content-Disposition"].split('=')[1]`. The loop skips names
  already in the folder and saves the rest. Afterwards it prints a summary
  with the count and one path per saved file.
- **Verbosity** (`Verbosity`). The counted `-v`/`-q` flags select one of five
  logging levels through `2 + min(v,2) - min(q,2)`.

Python 2 built-ins the core relies on are modelled in two support modules:

- `PyStr` covers slicing with negative and out-of-range bounds, `replace` and
  `translate` as character deletion, `split`, `join`, `find` and `str(n)`.
- `PyFormat` covers `str.format` with keyword fields, which can raise
  `KeyError`, `IndexError` or `ValueError`.

`Exceptions` holds the exceptions the core can raise and the `Result` type
that carries them. The HTTP responses, the list of matched hrefs and the set
of names already in the folder are inputs of the model.

Some consequences of how the script is written:

- Decoding deletes only `'` and the space character. It does not delete
  tabs, newlines or `"`, so a tab or newline inside a field reaches the URL.
  `InvoiceLinks.UrlWhitespace` states exactly when this happens.
- `_get_pdf_urls` does not check the number of fields. Fewer than 11 fields
  raise `IndexError` when the URL is built. Extra fields are silently
  ignored; see `InvoiceLinks.UrlIgnoresUnusedFields`.
- The newly saved files form a list in save order, not a set. The summary
  prints them in that order.

## Model

| member | source | states |
|---|---|---|
| PyStr.SliceBound | alice-invoices.py:102 | A bound within `[0, len]` is kept. A negative bound counts from the end, so `-1` is the last position. A bound past the end gives `len`, and one before the start gives 0. |
| PyStr.Slice | alice-invoices.py:102 | A slice is the run of the text from the normalised lower bound up to the normalised upper bound, and empty when they cross. |
| PyStr.DropEnds | alice-invoices.py:102 | `link[19:-1]` is empty for an href of at most 20 characters. Otherwise it is the href without its first 19 and its last character. |
| PyStr.Without | alice-invoices.py:102 | Deletion (`replace(c, "")`, `translate(None, chars)`) leaves exactly the characters not in the dropped set occurring. Order and multiplicity are stated by `PyStr.WithoutAppend`. |
| PyStr.WithoutAppend | alice-invoices.py:102 | Deleting from a concatenation is deleting from each part and concatenating, so the kept characters stay in order, each as often as in the text. |
| PyStr.WithoutTwice | alice-invoices.py:102 | Deleting `'` and then the space is the same as deleting both at once. |
| PyStr.Split | alice-invoices.py:102 | `split(c)` yields one more piece than there are separators. No piece contains the separator, and every character of a piece comes from the text. |
| PyStr.JoinSplit | alice-invoices.py:102 | Joining the pieces of a split with the same separator gives back the text. |
| PyStr.SplitJoin | alice-invoices.py:102 | Splitting a join of separator-free pieces gives back the pieces, so the decoded fields determine the cleaned text and vice versa. |
| PyStr.SplitSecond | alice-invoices.py:124 | When the text holds the separator, `split(c)[1]` exists. It is the text after the first separator, up to the next one or the end. |
| PyStr.DecimalRoundTrip | alice-invoices.py:137 | The digits `format` prints for a count read back as that count. |
| PyFormat.FormatLiteral | alice-invoices.py:106 | Text without braces formats to itself. |
| PyFormat.FormatField | alice-invoices.py:106-116 | A keyword field `{name}` is replaced by the keyword argument `name`. |
| PyFormat.FormatMissingField | alice-invoices.py:106-116 | A keyword field without a matching argument raises `KeyError` naming the field. |
| PyFormat.FormatAppend | alice-invoices.py:106 | A prefix that formats on its own formats the same way in front of any suffix. No field straddles the join. |
| InvoiceLinks.Source | alice-invoices.py:106-116 | Every URL parameter takes one of the descriptor fields 1 to 10. Field 0 is never used. |
| InvoiceLinks.ArgumentsOfHref | alice-invoices.py:102 | An href of at most 20 characters decodes to a single empty field. A longer one decodes from its characters 19 to `len-2`, with `'` and spaces deleted. |
| InvoiceLinks.Decode | alice-invoices.py:102 | The field count is the comma count of the cleaned text plus one. No field holds `'`, a space or `,`. Joining the fields with `,` gives the cleaned text back. |
| InvoiceLinks.DownloadData | alice-invoices.py:102 | One decoded descriptor per href, in href order. |
| InvoiceLinks.BuildUrl | alice-invoices.py:106-116 | Fewer than 11 fields raise `IndexError`, before `format` runs. With enough fields, a character outside ASCII in fields 1 to 10 raises `UnicodeEncodeError`. Every other descriptor yields a URL. |
| InvoiceLinks.BuildUrls | alice-invoices.py:104-117 | The loop succeeds exactly when every descriptor has at least 11 fields and ASCII fields 1 to 10. It then yields one URL per descriptor, in order, each that descriptor's URL. Otherwise it raises what the first failing descriptor raises, every earlier one having succeeded. |
| InvoiceLinks.PdfUrls | alice-invoices.py:101-117 | `_get_pdf_urls` returns exactly one URL per matched href, in href order, when every href decodes to at least 11 fields with ASCII fields 1 to 10. Otherwise it raises `IndexError` or `UnicodeEncodeError`, whichever the first failing href raises. |
| InvoiceLinks.ShortDescriptorRaises | alice-invoices.py:102-116 | An href whose cleaned arguments hold fewer than 10 commas makes `_get_pdf_urls` raise `IndexError`, on a page whose only matched href it is. |
| InvoiceLinks.NonAsciiFieldRaises | alice-invoices.py:106-116 | An href with at least 11 fields and a character outside ASCII in one of fields 1 to 10 makes `_get_pdf_urls` raise `UnicodeEncodeError`, on a page whose only matched href it is. |
| InvoiceLinks.AsciiHrefEncodes | alice-invoices.py:102-116 | An href within ASCII never raises `UnicodeEncodeError`: with at least 11 fields its URL is built. |
| InvoiceLinks.EncodableKeywords | alice-invoices.py:106-116 | The fields the ASCII condition checks are exactly the keyword values passed to `format`. |
| InvoiceLinks.StrippedTemplate | alice-invoices.py:38-49 | The template literal, whitespace translated away, is the endpoint followed by the ten `name={name}` fields joined with `&`. |
| InvoiceLinks.TemplateUrl | alice-invoices.py:106-116 | Formatting the stripped template with the keyword arguments of a descriptor gives the endpoint followed by the `name=value` pairs joined with `&`. The call returns that text when every keyword value is within ASCII and raises `UnicodeEncodeError` otherwise. |
| InvoiceLinks.UrlSpelledOut | alice-invoices.py:38-49 | A descriptor with a field outside ASCII among fields 1 to 10 raises `UnicodeEncodeError`. Otherwise the URL is the endpoint followed by `numero_fattura=` field 1, `&anno=` field 2, `&mese=` field 3, `&p1=` field 9, `&data_emissione=` field 4, `&doc_row_id=` field 5, `&num_pagine_fattura=` field 6, `&offset_inizio_fatt=` field 7, `&flgTr=` field 8 and `&ente_fattura=` field 10. |
| InvoiceLinks.KeywordOf | alice-invoices.py:106-116 | Each keyword argument passed to `format` is the parameter's own descriptor field. |
| InvoiceLinks.UrlIgnoresUnusedFields | alice-invoices.py:106-116 | Descriptors that agree on fields 1 to 10 give the same URL. Field 0 and fields past 10 never reach it. |
| InvoiceLinks.UrlWhitespace | alice-invoices.py:38-49 | A whitespace character occurs in a URL exactly when one of fields 1 to 10 carries it. The template contributes none. |
| InvoiceLinks.DecodedUrlHasNoSpace | alice-invoices.py:102 | The URL of a decoded href never contains a space. |
| Downloads.Filename | alice-invoices.py:123-124 | A failed fetch raises the `URLError` with its reason. A missing header raises `KeyError('content-disposition')`, the lower-cased name the header lookup uses. A value without `=` raises `IndexError`. Otherwise the name holds no `=` and is the segment between the first `=` and the next `=` or the end. |
| Downloads.Filenames | alice-invoices.py:122-124 | The names of the responses, in order, up to the first one that raises. The exception of that response is reported. |
| Downloads.Download | alice-invoices.py:121-132 | A name is saved exactly when it is not yet in the folder. Saved names have no duplicates. The final folder is the initial one plus the saved names. The loop stops with the first exception. |
| Downloads.DownloadInOrder | alice-invoices.py:125-132 | The saved list equals an independent reference: each name absent from the folder and from the names before it, in order of first appearance. |
| Downloads.DownloadAgain | alice-invoices.py:125-132 | A second run over the same responses, into the folder the first run left, saves nothing. It leaves the folder unchanged and stops where the first run did. |
| Downloads.Summary | alice-invoices.py:133-140 | No saved files gives exactly "No new files were available.". One gives "The following new file was downloaded:". `N > 1` gives "The following N new files were downloaded:". The header is followed by the saved paths in save order. |
| Downloads.SummaryCount | alice-invoices.py:133-140 | The count the header states, read back, is the number of saved files. |
| Downloads.DownloadFiles | alice-invoices.py:120-140 | `_download_files` runs the loop and then prints the summary of exactly the names the run saved. When the loop raises, nothing is printed. |
| Downloads.DownloadFilesReport | alice-invoices.py:120-140 | When every response gives a name, the printed count and list are the names absent from the folder, in order of first appearance. A second call prints that nothing was new. |
| Downloads.SummaryInjective | alice-invoices.py:133-140 | Two runs print the same summary only when they saved the same paths in the same order. |
| Verbosity.LogIndex | alice-invoices.py:153-154 | For any flag counts the index lies in `[0, 4]`, so indexing the level list never fails. Equal counts, including none, select 2 (WARNING). Only `-v` never goes below 2, and only `-q` never above it. |
| Verbosity.LogLevel | alice-invoices.py:144-154 | Giving both `-v` and `-q` is refused by the mutually exclusive group. Every other combination selects one of the five levels. |
| Verbosity.LevelTable | alice-invoices.py:153-156 | No flag gives WARNING. `-v` gives INFO; `-vv` and more give DEBUG. `-q` gives ERROR; `-qq` and more give CRITICAL. |
| Verbosity.LevelMonotone | alice-invoices.py:153-154 | One more `-v` never raises the level number, and one more `-q` never lowers it. |

## Left out

- Login with the mechanize form and the "ungültig" check (`_login`): these are network calls and foreign-library behaviour.
- The iframe/frame traversal and BeautifulSoup's anchor matching at the start of `_get_pdf_urls`: HTML parsing belongs to a library that is not modelled. The matched hrefs, in page order, are the input of `InvoiceLinks.PdfUrls`.
- The HTTP fetches themselves: each URL's response is an input value (`Downloads.Response`). A failed fetch appears as its `URLError` reason.
- Downloads.Download: an `IOError` from `open(location, 'w')` or `f.write` (a missing or read-only folder, a name leading into a missing directory) is not modelled, so the run's failure is only ever a fetch or header exception. Names are compared as strings, not as paths: an empty name, `.`, `..` or a name holding `/` is saved as a new name, where the script's `os.path.exists` on the joined path may find the folder or another file and skip it. File-system behaviour is outside the model.
- Writing file contents, the log messages, and `os.path.join`/`os.path.exists`/`os.path.abspath`: the folder is a set of file names, and the summary lists the names where the script prints absolute paths.
- `start_download`'s `URLError` handler and its `sys.exit` message: process termination is outside the model. An unreachable URL surfaces as `UrlError` in the download result.
- Argument parsing and the `logging.basicConfig` call: only the flag counts and the level they select are modelled.
- PyFormat.Format: only the field syntax this template uses is modelled (keyword names, `{{`, `}}`). Attribute or index access (`.`, `[`), conversions (`!`) and format specs (`:`) in field names are not.
- Python 2 `str` (the template, the header values) and `unicode` (the hrefs BeautifulSoup returns, and the fields decoded from them) are both modelled as a Dafny `string`. The one place the difference shows, the ASCII conversion of the unicode fields inside `format`, is modelled by `InvoiceLinks.Encodable`. The details carried by a `UnicodeEncodeError` (position, character) are not.
- The `Content-Disposition` lookup in the response headers: it is modelled as present or absent. The lookup's case-insensitive matching of header names is not modelled; only the lower-cased key of its `KeyError` is.
- InvoiceLinks.BuildUrl: its own contract states only when it succeeds and what it raises. The URL it builds is stated by `InvoiceLinks.TemplateUrl` and `InvoiceLinks.UrlSpelledOut`.
