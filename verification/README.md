# narasearch in Dafny

A model of the search pipeline of `narasearch_v1.py`, a desktop client for the Korean public
procurement open API (나라장터). A user types keywords and picks a category: 입찰공고 (bid
notices) or 사전규격 (pre-specifications). The program then:

1. splits the keyword text into tokens and picks the service endpoint of the category;
2. pages through the API: at most twenty pages of 999 records each, classifying every response
   as a transport failure, an undecodable body, an out-of-range period (result code "07"), the
   last page, or a page of records;
3. keeps the records whose title contains every keyword, comparing with spaces removed and
   lower-cased;
4. builds two tables from the kept records, one shown on screen and one kept for export. The
   budget is rendered in 억 (10^8 won) and 만 (10^4 won) units, and the detail link and
   attachment URLs sit in hidden columns;
5. answers a double-click with the row's detail link and a right-click with a menu of the row's
   attachment downloads.

The date-time picker's 12-hour dial and the `yyyyMMddHHmm` stamps of the query period are
modelled too.

The network, JSON decoding, pandas and Qt are replaced by plain values:
- a response is a status, a text and an optional decoded envelope;
- the server is a function from request URL to response;
- a record is a `map<string, string>`;
- a table is a list of column names with rows of cells, where a cell is a text or `Missing`
  (pandas' NaN).

Modules, one per concern:

| module | file | what it holds |
|---|---|---|
| `Common` | common.dfy | `Option`, `Record`, `IndexOf` and an order-keeping `Filter` with its laws |
| `Text` | text.dfy | Python's `strip`, `replace(c, "")`, `lower`, `in` and `join` on strings |
| `Decimal` | decimal.dfy | `str(n)`, `int(s)` and the grouped form `f"{n:,}"` |
| `Envelope` | envelope.dfy | one API response and how the worker classifies it |
| `Paging` | paging.dfy | the paging loop over a page oracle |
| `Keywords` | keywords.dfy | the `[, ]+` tokenizer and the keyword AND-filter |
| `Search` | search.dfy | `execute_search`'s checks and dispatch, and the worker's verdict |
| `Money` | money.dfy | `format_money`, with a decoder that reads its output back |
| `Projection` | projection.dfy | the display and export tables of `handle_success` |
| `RowActions` | row_actions.dfy | `open_link` and `show_context_menu` |
| `TimePopup` | time_popup.dfy | `DateTimePopup`'s hour and minute arithmetic, and the query stamps |

Two behaviours of the code are easy to misread, and the model keeps them as written:

- **Amounts from one 만 up.** `format_money` shows 50,000 won as "5만원", because 만 is non-zero
  from 10,000 won on. The grouped won figure ("9,999원") appears only below 10,000 won, not for
  every amount below 억.
- **The range code.** "07" is read only from the first of the three code locations that exists
  in the envelope, not from whichever location holds it. A response header without a code
  therefore hides a top-level "07" (`Envelope.RangeCodeShadowed`).

## Model

| member | source | states |
|---|---|---|
| Text.Strip | narasearch_v1.py:664 | `str.strip()`: the result neither starts nor ends with whitespace, and it is empty exactly when the input is all whitespace |
| Text.StripSlice | narasearch_v1.py:664 | what `strip()` keeps is one contiguous slice of the input, starting after the leading whitespace |
| Text.StripCutsAreSpace | narasearch_v1.py:664 | everything `strip()` cuts off before and after that slice is whitespace; with `Text.Strip` and `Text.StripSlice` this pins the result |
| Text.RemoveChar | narasearch_v1.py:284 | `replace(c, "")`: the result is no longer than the input, holds no `c`, and equals the input when it had none |
| Text.RemoveCharAppend | narasearch_v1.py:284 | deleting a character distributes over concatenation |
| Text.Lower | narasearch_v1.py:284 | `lower()` keeps the length and maps each character on its own: ASCII capitals down by 32, all else kept |
| Text.Contains | narasearch_v1.py:289 | `needle in hay` holds exactly when the needle occurs at some position of the hay |
| Text.Prefix | narasearch_v1.py:238 | `text[:300]` has length min(len, 300) and is a prefix of the text |
| Decimal.DigitsOf | narasearch_v1.py:226 | `str(n)` is non-empty and all digits, with no leading zero unless n is 0 |
| Decimal.ParseDigitsOf | narasearch_v1.py:226 | reading `str(n)` back gives n |
| Decimal.DigitsOfInjective | narasearch_v1.py:226 | different numbers have different decimal texts |
| Decimal.IntToString | narasearch_v1.py:232 | `str(i)` for any integer: the digits of a natural, and for a negative a "-" followed by the digits of its magnitude |
| Decimal.Grouped | narasearch_v1.py:730-731 | `f"{n:,}"` starts and ends with a digit, and holds only digits and commas (where the commas go is stated by Decimal.GroupedShape and Decimal.GroupedUnique) |
| Decimal.GroupedIsDigitsWithCommas | narasearch_v1.py:730-731 | deleting the commas of `f"{n:,}"` gives `str(n)` |
| Decimal.GroupedShape | narasearch_v1.py:730-731 | `f"{n:,}"` is one to three digits followed by groups of a comma and exactly three digits |
| Decimal.GroupedUnique | narasearch_v1.py:730-731 | the only text of that shape whose digits are `str(n)` is `f"{n:,}"`, so the commas sit every three digits from the right |
| Decimal.ParseGroupedOf | narasearch_v1.py:723 | `int(f"{n:,}".replace(",", ""))` is n |
| Envelope.ResultCodeIsFirstHolding | narasearch_v1.py:241-247 | the result code is the one of the first location, in probe order, that exists in the envelope |
| Envelope.ResultCodeAbsent | narasearch_v1.py:241-247 | with none of the three locations present there is no result code |
| Envelope.RangeCodeOnlyFromString | narasearch_v1.py:249 | `str(code) == "07"` holds exactly for the JSON string "07"; the number 7 prints as "7" |
| Envelope.RangeCodeShadowed | narasearch_v1.py:241-251 | a response header without a code hides a top-level "07", so that page is not rejected |
| Envelope.AsList | narasearch_v1.py:263-264 | a bare record becomes a one-element list, a list is kept, and truthy items give a non-empty list |
| Envelope.ClassifyPage | narasearch_v1.py:229-264 | a page aborts exactly on a non-200 status, an undecodable body or the code "07", only with those three failures, and a data page is never empty |
| Envelope.ClassifyErrors | narasearch_v1.py:231-251 | the abort messages: the status code, the first 300 characters of the text, the fixed range message, checked in that order |
| Envelope.RangeCheckPrecedesBody | narasearch_v1.py:249-256 | with the code "07" the body is never looked at: changing it does not change the verdict |
| Envelope.ClassifyBody | narasearch_v1.py:253-264 | a missing body or falsy `items` ends the paging; otherwise the items are taken, with an absent `totalCount` read as 0 |
| Paging.PageUrlInjective | narasearch_v1.py:226-227 | different page numbers give different request URLs |
| Paging.CrawlFrom | narasearch_v1.py:225-273 | the loop requests page numbers from its start up to at most 20 |
| Paging.CrawlAggregate | narasearch_v1.py:266 | a finished crawl holds what it started with followed by every requested page's records, in page order |
| Paging.CrawlContinuation | narasearch_v1.py:260-273 | every page before the last one requested carried items and left the running total below its `totalCount` |
| Paging.CrawlEnding | narasearch_v1.py:231-273 | the last page requested is the one that aborted, the one that does not continue, or page 20; an abort discards the gathered records |
| Paging.PaginateVisitsPagesInOrder | narasearch_v1.py:221-273 | pages 1, 2, 3, … are requested with no gap and no repeated URL, and never more than 20 |
| Paging.CrawlFromFrame | narasearch_v1.py:221-273 | the loop from a page on depends only on the pages it goes on to request |
| Paging.PaginateFrame | narasearch_v1.py:221-273 | two servers that answer the requested URLs alike give the same crawl: no other response affects the search |
| Paging.PaginateSinglePageWithoutTotal | narasearch_v1.py:258-269 | a first page with items and no `totalCount` is the only page requested, and its items are the aggregate |
| Paging.PaginateTwoPages | narasearch_v1.py:266-273 | 999 of 1200 records and then the other 201: exactly two pages, all 1200 records in page order |
| Keywords.SplitAtSeparators | narasearch_v1.py:664 | `re.split` at every comma or space: at least one piece, and no piece holds a separator |
| Keywords.DropEmpty | narasearch_v1.py:664 | the comprehension's `if k` keeps a piece exactly when it is non-empty, in the split's order, and drops nothing when no piece is empty |
| Keywords.DropEmptyCons | narasearch_v1.py:664 | a leading piece is kept exactly when it is non-empty, and the rest are filtered alike |
| Keywords.Tokenize | narasearch_v1.py:664 | every token is non-empty and holds no comma and no space; what the tokens are for a given input is stated by Keywords.TokenizeInterleave and Keywords.TokenizeEmpty |
| Keywords.TokenizeJoin | narasearch_v1.py:664 | tokens joined by one run of commas and spaces (", ", " ", ",,") tokenize back to the same tokens |
| Keywords.TokenizeInterleave | narasearch_v1.py:664 | an input whose stripped text is separators, then tokens with a non-empty run of commas and spaces between each two, then separators, tokenizes to exactly those tokens in order |
| Keywords.SplitFramed | narasearch_v1.py:664 | the `[, ]+` split with empty pieces dropped, applied to such a framed text, gives back exactly its tokens |
| Keywords.DropLeadingSeparators | narasearch_v1.py:664 | commas and spaces before the text add no keyword |
| Keywords.TokenizeCommaSpace | narasearch_v1.py:664 | "어린이, 철도" gives the two keywords 어린이 and 철도 |
| Keywords.TokenizeEmpty | narasearch_v1.py:664-668 | the input yields no token exactly when, once stripped, it is only commas and spaces |
| Keywords.Normalize | narasearch_v1.py:284 | the normalised text is the input's characters other than spaces, in order, each lower-cased; so it holds no space and no ASCII capital |
| Keywords.NormalizeKeeps | narasearch_v1.py:284 | text with no space and no capital is already normalised |
| Keywords.NormalizeSpaced | narasearch_v1.py:284 | normalising two words joined by a space runs the two normalised words together |
| Keywords.KeepMatchingMembers | narasearch_v1.py:281-294 | the filter keeps a record exactly when it is in the input and every normalised keyword is in its normalised title |
| Keywords.KeepMatchingNoKeywords | narasearch_v1.py:295-296 | with no keywords every record matches, so the empty-keyword branch changes nothing |
| Keywords.KeepMatchingSubsequence | narasearch_v1.py:282-294 | the kept records are a subsequence of the aggregate, in its order |
| Keywords.KeepMatchingStep | narasearch_v1.py:293-294 | scanning one more record appends it exactly when it matches |
| Keywords.KeepMatchingIdempotent | narasearch_v1.py:281-294 | filtering the kept records again keeps them all |
| Keywords.TitleHasAll | narasearch_v1.py:286-291 | the inner loop answers true exactly when every normalised keyword is in the normalised title |
| Keywords.FilterItems | narasearch_v1.py:279-296 | the loop's output is the keyword filter of the aggregate |
| Keywords.FilterExampleKept | narasearch_v1.py:283-294 | "의왕 어린이 철도 축제" passes the keywords 어린이 and 철도 |
| Keywords.FilterExampleDropped | narasearch_v1.py:283-294 | "어린이 도서관" fails the keywords 어린이 and 철도 |
| Search.EndpointFor | narasearch_v1.py:688-701 | exactly the two known categories have an endpoint: bid notices search `bidNtceNm` on the bid service, pre-specifications `prdctClsfcNoNm` on the pre-specification service |
| Search.ParamsBasePeriod | narasearch_v1.py:690-695 | the twelve-character start and end stamps sit right after `inqryBgnDt=` and `inqryEndDt=` in the fixed parameters |
| Search.LaunchPeriod | narasearch_v1.py:674-675 | a launched search queries the picked period: the digits after `inqryBgnDt=` and `inqryEndDt=` are the stamps of the start and end moments and read back as them |
| Search.ExecuteSearch | narasearch_v1.py:653-708 | no token refuses with "검색어를 입력해주세요."; tokens with a blank key refuse with "API 인증키를 입력해주세요." (678-681); tokens, a key and an unknown category refuse with "검색 유형(입찰공고/사전규격)을 선택해주세요." (698-701); a worker starts exactly when there are tokens, a non-blank key and a known category, and it gets the tokens, the endpoint and the first token under the title field |
| Search.Verdict | narasearch_v1.py:275-304 | an empty aggregate fails with "검색 결과가 없습니다."; records found are non-empty, taken from the aggregate and all match |
| Search.VerdictFilter | narasearch_v1.py:279-304 | on a non-empty aggregate the verdict keeps every match in order, and fails exactly when nothing matches, with the keyword-and-count message |
| Search.RunWorker | narasearch_v1.py:219-306 | an aborted crawl reports its failure; a finished one gets the verdict on its aggregate; every record found was fetched and matches |
| Search.SearchFor | narasearch_v1.py:653-708 | blank keywords, a blank key or an unknown category are refused whatever the server says, an unknown category with the category message of lines 698-701; every record found matches every token in the category's title field |
| Money.ParseAmount | narasearch_v1.py:722-723 | blank exactly when the stripped cell is empty; a digit text (commas and surrounding spaces allowed) reads as its number |
| Money.FormatMoney | narasearch_v1.py:720-735 | "-" for a blank cell, the text itself when it is not a number, the 억/만 form of the number otherwise |
| Money.ScanIsDecimal | narasearch_v1.py:723 | the digit scan accepts a text exactly when it is a decimal text (digits, or digits, a point and digits), and then reads its integer part |
| Money.ScanNoPoint | narasearch_v1.py:723 | without a point, the scan accepts exactly the non-empty digit texts, reading all of them |
| Money.ScanAtPoint | narasearch_v1.py:723 | with the first point at j, the scan accepts exactly the decimal texts and then stops at j |
| Money.LeadingDigitsAt | narasearch_v1.py:723 | a digit run ended by a non-digit or the end is exactly what the scan reads |
| Money.ParseAmountAccepts | narasearch_v1.py:722-723 | a non-blank cell is a number exactly when its comma-free stripped text is a decimal text, and then the number is that text's integer part; every other non-blank cell is not a number |
| Money.FormatMoneyEchoes | narasearch_v1.py:720-734 | a non-blank cell that is not a decimal text ("1abc", "1.2.3") is shown unchanged |
| Money.UnitSplit | narasearch_v1.py:724-725 | whole 억, whole 만 below them and the won below 만 add up to the amount; the 만 count is below 10,000; both are zero exactly below 만 |
| Money.FormatWonShape | narasearch_v1.py:726-731 | the four display shapes "G원", "D억", "G만원" and "D억 G만원", by which of the 억 and 만 parts are non-zero |
| Money.FormatWonForms | narasearch_v1.py:726-731 | the grouped won figure is shown exactly below 만; from 만 on the text ends in 억 or 만원 |
| Money.DecodeFormatWon | narasearch_v1.py:724-731 | reading the display back gives the 억 count, the 만 count below it, and the won only below 만 |
| Money.DecodeFormatWonTotal | narasearch_v1.py:724-731 | the display loses only the won below one 만: it reads back as the amount below 만 and as the amount rounded down to whole 만 above |
| Money.FormatMoneyIgnoresCommas | narasearch_v1.py:723 | a grouped and a plain decimal cell of the same amount are shown alike |
| Money.FormatMoneyDropsFraction | narasearch_v1.py:723-725 | "D.F" with at most 15 digits in all is shown as D |
| Money.ParseAmountDecimal | narasearch_v1.py:723 | "D.F" with at most 15 digits in all reads as the number D |
| Money.FormatEokAndMan | narasearch_v1.py:727-730 | 150,000,000 won is shown as "1억 5,000만원" |
| Money.FormatManOnly | narasearch_v1.py:728-730 | 50,000 won is shown as "5만원" |
| Money.FormatWonOnly | narasearch_v1.py:731 | 9,999 won is shown as "9,999원" |
| Projection.FormatBudget | narasearch_v1.py:733-735 | a budget cell always becomes a text, and a missing budget (NaN) prints as "nan" |
| Projection.KeepPresent | narasearch_v1.py:756 | the kept columns are exactly the listed ones that are present, in list order |
| Projection.Project | narasearch_v1.py:757-765 | a projection has one column per source column and one row per record |
| Projection.EnsureLink | narasearch_v1.py:813 | `상세링크` is always there afterwards; an existing one leaves the table alone, otherwise an empty-text column is appended and nothing else changes |
| Projection.DisplayTable | narasearch_v1.py:743-813 | the screen table has one row per record and always a `상세링크` column |
| Projection.ExportTable | narasearch_v1.py:767-810 | the export table has one row per record |
| Projection.ExportColumns | narasearch_v1.py:767-777 | the export columns are the save list filtered to the present columns, in list order, each under its export name |
| Projection.ExportCells | narasearch_v1.py:767-770 | each export column holds every record's own cell of its source column, with the formatted budget, row by row |
| Projection.HiddenColumns | narasearch_v1.py:821-830 | the hidden indices are exactly the `상세링크` column and the attachment columns the display holds |
| Projection.HandleSuccess | narasearch_v1.py:710-836 | both tables have one row per kept record, the display has `상세링크`, and every hidden index is a display column |
| Projection.BidWellNamed | narasearch_v1.py:745-765 | in the bid schema no shown column is renamed to `상세링크` or to an attachment name except the detail link itself |
| Projection.PreSpecWellNamed | narasearch_v1.py:781-799 | the same for the pre-specification schema |
| Projection.SchemaBudgetNamed | narasearch_v1.py:747-808 | both schemas show and export the budget as 배정예산금액 |
| Projection.SchemaForFacts | narasearch_v1.py:743-810 | the schema of any category is well named, names its budget, and only bid notices have a detail link |
| Projection.DisplaySourcesShape | narasearch_v1.py:747-756 | the display's columns are the present base columns, then the detail link when present, then the present attachment columns in index order, and nothing else |
| Projection.LinkColumnCells | narasearch_v1.py:748-813 | the `상세링크` column holds each record's `bidNtceDtlUrl` for bid notices whose records carry it, and the empty text otherwise |
| Projection.FileColumnAt | narasearch_v1.py:751-757 | an attachment column is in the display exactly when some record carries it, and then it holds each record's own URL |
| Projection.BudgetShown | narasearch_v1.py:735-765 | a present budget is shown under 배정예산금액, formatted by `format_money` |
| Projection.BudgetSaved | narasearch_v1.py:767-777 | the export table carries the same formatted budget under the same title |
| RowActions.CellAt | narasearch_v1.py:580 | a cell is found exactly when the row exists and the table has the column |
| RowActions.OpenLink | narasearch_v1.py:576-586 | a row is opened exactly when its `상세링크` text starts with "http", with that text as URL; a row the table lacks is ignored |
| RowActions.OpenLinkOnResults | narasearch_v1.py:576-586 | on search results a row opens its record's `bidNtceDtlUrl` exactly for bid notices whose record has a link starting with "http" |
| RowActions.SlotsAreFileColumns | narasearch_v1.py:608-623 | the slots the menu probes are the category's attachment columns |
| RowActions.SlotEntryOnResults | narasearch_v1.py:606-623 | on search results slot i offers the record's own URL, under the slot's label, exactly when that text is not blank and not "nan" |
| RowActions.ContextMenu | narasearch_v1.py:591-641 | no menu off the table; a row with no usable attachment gets only the disabled "다운로드 가능한 규격문서가 없습니다."; otherwise the disabled header first and then the usable attachments in slot order, each from some slot of the category |
| RowActions.ContextMenuComplete | narasearch_v1.py:626-635 | every usable attachment of the row is in the menu |
| TimePopup.SetInitial | narasearch_v1.py:122-136 | any clock time gives a dial within the spin boxes' ranges, 오전 exactly before noon, the hour on the 12-hour dial (12 for midnight and noon, the hour less 12 in the afternoon), and the minute rounded down to its ten |
| TimePopup.Emit | narasearch_v1.py:138-149 | a dial reports a valid clock time with its minute, before noon exactly when it shows 오전, with the dial's hour modulo 12 (so 12 오전 is 0 and 12 오후 is 12) |
| TimePopup.EmitSetInitial | narasearch_v1.py:128-146 | opening on a time and confirming gives the same hour and the minute rounded down to its ten |
| TimePopup.SetInitialEmit | narasearch_v1.py:128-146 | every dial on a ten-minute mark is the one the picker opens on for the time it reports |
| TimePopup.EmitInjective | narasearch_v1.py:138-149 | no two dials on ten-minute marks report the same time |
| TimePopup.Padded | narasearch_v1.py:674-675 | a zero-padded field has exactly its width in digits and reads back as its number |
| TimePopup.Stamp | narasearch_v1.py:674-675 | `yyyyMMddHHmm` is twelve digits |
| TimePopup.ReadStampOf | narasearch_v1.py:674-675 | the stamp's fixed-width fields read back as the moment |
| TimePopup.StampInjective | narasearch_v1.py:674-675 | different moments give different stamps |

## Left out

- Qt widgets, signals and threads: `run` is a pure function of a page oracle, and each handler is a function of the values it reads.
- The start button's enabled check in `execute_search`: it is widget state.
- `requests.get` and `res.json()` are not modelled. A response carries its status, its text and the envelope when the text decodes.
- The `except Exception` catch-all of `run`, and every exception it would catch, are not modelled. That includes `int(totalCount)` on a text that is not a number and `.get` on a value that is not an object.
- `handle_error`'s choice between the status line and a dialog is presentation only.
- sqlite settings and shortcuts, `webbrowser.open`, `to_excel` and file dialogs are I/O. So are `datetime.now` and `QDateTime.addDays`, which read the clock.
- The calendar date of the picker is not modelled: only its hour and minute arithmetic is.
- Envelope.ItemsField: `items` can be absent, a list of records or a single record. A string or number there is not modelled.
- Envelope.Body: `totalCount` is an integer. The text forms `int()` accepts, and `null` (which raises), are not modelled.
- Money.ParseAmount: reads digits with an optional point and fraction, after deleting commas and surrounding whitespace. Other texts `float()` accepts are echoed unchanged in the model, because the float arithmetic is not modelled. These include a sign, an exponent, ".5", "inf", "nan" and underscores.
- Money.FormatMoneyEchoes / Money.ParseAmountAccepts: stated for the reading above, so a cell such as "-5" or "1e3", which the program converts, counts here as not a number and is echoed.
- Money.ParseAmount / Money.FormatMoney: `float()` rounds a fraction that lies within half a unit in the last place of the next integer up, which the model truncates. This needs more than 15 significant digits: "9999.99999999999999999" is shown as "1만원" by the program and "9,999원" by the model, and "0.99999999999999999" as "1원" against "0원". Money.ParseAmountDecimal and Money.FormatMoneyDropsFraction are therefore stated for at most 15 digits.
- Projection.FormatBudget: a JSON `null` field value is not modelled, since a record maps field names to texts. The program shows a null budget as "-" through `not x`; the model's nearest cell, a missing key, is shown as "nan".
- Money.FormatMoney: float precision above 2^53 is not modelled. A cell that is a JSON number is modelled by its text, so a numeric 0, which `not x` treats as blank, is shown as "0원" instead of "-".
- Text.Lower: lower-cases ASCII letters only; Python's `lower()` also maps non-ASCII capitals. Hangul has no case.
- Search.SearchFor: `handle_success` and `show_context_menu` read the category from the selector again. The model uses the category the search started with, as if the selector did not change while the worker ran.
- Projection.Present: the frame's column order is not modelled, only its set of columns, because every projection picks its columns by name from a fixed list.
- TimePopup.Stamp: years above 9999 are not modelled.
