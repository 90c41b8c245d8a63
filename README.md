# Credit-card reward calculator: verified model of the statement pipeline

`app.py` is a Streamlit page. It reads a credit-card statement, finds the
purchases in the statement text and prices each one on a card the user picks.
Beneath the UI sits one pipeline, and this project models it in Dafny:

1. **Bank detection.** Marker substrings in the whole text pick the DBS parser,
   the E.SUN parser or the general parser.
2. **Line parsing.** The chosen parser splits on `'\n'`. The DBS and E.SUN
   parsers drop lines holding their bank's noise markers; the general parser
   drops none.
   It runs one regular expression per line with `re.search` and keeps at most
   one `(日期, 摘要, 金額)` record per line.
3. **Reward rule.** `CardRule.calculate` applies the special rate when one of
   the card's keywords occurs in the shop name, ignoring case, and the base rate
   otherwise. The points are rounded half to even.
4. **Totalling.** The loop makes one result row per transaction and adds up
   the points.

Modules, one per file:

- `Wrappers`: `Option`.
- `Text`: character classes, `in`, `strip`, `lower` and `split`.
- `Patterns`: the two regular expressions and `re.findall` of a date.
- `Rewards`: cards, `calculate`, `MY_CARDS` and the option keys.
- `Parsers`: the three parsers.
- `Classifier`: bank detection and dispatch.
- `Totals`: the result rows and the total.
- `Statement`: the whole pipeline.
- `Scenarios`: concrete lines worked through.
- `Formats`: purchase lines printed from their fields and read back by each parser.
- `Walkthrough`: a two-line statement taken through the whole pipeline on the League of Legends card.

How the regular expressions are modelled:

- A match is a `Span` of group boundaries. `IsMatch` states which boundaries
  the pattern admits.
- `Before` is the order in which a backtracking engine tries them:
  - leftmost start first;
  - optional groups taken before skipped;
  - greedy `\s+` and `[0-9,]+` longest first;
  - lazy `(.+?)` shortest first.
- `Preferred` is the admitted span that nothing admitted precedes. `Search`
  computes it and is proved to return exactly that span.

The round trips in `Formats` print a purchase as `date + " " + description + " "
+ digits of the amount`. They hold for every non-empty description with no surrounding
whitespace and no newline in which no word after the first starts with a digit
or a comma (`Formats.PlainDescription`); such a word could be taken for the
amount.

Rates are exact: in thousandths, so 0.012 is 12. Points are the exact
`amount × rate` rounded half to even.

The parsers and the totalling loop are methods with loops, proved equal to
specification functions (`Extract`, `Rows`, `SumPoints`). The reward rule,
the classifier and the card data are functions and lemmas.

Facts about `app.py` that the proofs bring out:

- The amount is the first whitespace-bounded `[0-9,]+` run after the lazy
  description (`Patterns.AmountIsFirstRun`, `Scenarios.FirstAmountTaken`).
- The DBS parser skips every line holding two non-overlapping dates, wherever
  they are on the line (app.py:64, `Patterns.ManyDatesIff`).
- The DBS parser's check for a description that starts with a date
  (app.py:69) never rejects a line. Such a description puts a second date on
  the line, and the two-date filter (app.py:64) has already skipped it
  (`Parsers.DbsIsFilteredGeneral`).
- A Taishin statement goes to the general parser, as does a statement with no
  bank marker (`Classifier.ParserFor`).

## Model

| member | source | states |
|---|---|---|
| Text.Lower | app.py:25 | `lower()` on ASCII: same length, no upper-case ASCII letter left, each character kept or replaced by its lower-case letter |
| Text.Contains | app.py:25 | Python's `p in s`: `p` occurs in `s` at some position |
| Text.ContainsAny | app.py:63 | `any(x in s for x in ps)`: some listed string occurs in `s` |
| Text.Strip | app.py:68 | `str.strip()`: the result has no leading or trailing whitespace and is the input minus a whitespace prefix and a whitespace suffix |
| Text.Split | app.py:61 | `split('\n')`: at least one piece, no piece holds a newline, and joining the pieces with newlines gives the text back |
| Text.SplitJoin | app.py:61 | splitting newline-joined, newline-free lines gives exactly those lines |
| Text.StripStripped | app.py:68 | `strip()` leaves text without surrounding whitespace unchanged |
| Text.ContainsExtend | app.py:156-167 | a substring present in a text stays present when text is added on either side |
| Patterns.PreferredUnique | app.py:66 | at most one match is the one `re.search` reports |
| Patterns.Search | app.py:66 | the result is the match a backtracking engine reports (admitted, nothing admitted tried before it); no result exactly when the pattern matches nowhere on the line |
| Patterns.AmountAfter | app.py:66 | after the description, `\s+([0-9,]+)(?:\s\|$)` matches in at most one way, both runs maximal |
| Patterns.AmountIsFirstRun | app.py:66 | the lazy description leaves no earlier whitespace-bounded `[0-9,]+` run inside it: the amount is the first such run |
| Patterns.LazyDescRun | app.py:66 | the lazy `(.+?)` moves past every description end after which the amount does not match |
| Patterns.DateTokens | app.py:64 | `re.findall` of a date: every reported position holds a date, and positions are increasing and at least 10 apart |
| Patterns.ManyDatesIff | app.py:64 | `findall` reports more than one date exactly when the line holds two non-overlapping date tokens |
| Rewards.RoundHalfEven | app.py:27 | Python's `round` on the exact quotient by 1000: within half a point, ties to the even neighbour |
| Rewards.RoundedUnique | app.py:27 | only one integer is the half-even rounding of a value |
| Rewards.RoundMonotone | app.py:27 | a larger exact value never rounds lower |
| Rewards.IsSpecial | app.py:25 | `is_special`: some keyword, lower-cased, occurs in the lower-cased shop name |
| Rewards.Calculate | app.py:24-28 | special rate and "🔥 指定加碼" exactly when a lower-cased keyword occurs in the lower-cased shop name, base rate and "一般回饋" otherwise; points are `amount × rate` rounded half to even |
| Rewards.NoKeywordsBaseRate | app.py:25-28 | a card without keywords always pays its base rate with the standard label |
| Rewards.PointsNonNegative | app.py:27 | a non-negative amount never earns negative points |
| Rewards.PointsMonotone | app.py:27 | at a fixed shop a larger amount never earns fewer points |
| Rewards.CaseInsensitive | app.py:25 | shop names equal up to case get the same reward |
| Rewards.KeywordlessCards | app.py:40-49 | Unicard always pays 1% and the CUBE card always 0.3% |
| Rewards.SpecialAtLeastBase | app.py:33-49 | every listed card's special rate is at least its base rate |
| Rewards.OptionKeys | app.py:52 | one key `"{bank} - {name}"` per card, in list order; this is the dictionary's key list when the keys are distinct, as `Rewards.MyCardsKeysDistinct` shows for the listed cards |
| Rewards.LookupOption | app.py:52 | dictionary lookup: nothing exactly when no card has the key, otherwise the last card with that key |
| Rewards.MyCardsKeysDistinct | app.py:31-52 | no two listed cards share a key |
| Rewards.LookupFindsCard | app.py:52 | with distinct keys, each card's key finds that very card |
| Rewards.SelectEveryCard | app.py:124-125 | every offered key selects the card it was made from |
| Parsers.RemoveCommasDigits | app.py:71 | removing commas from a `[0-9,]` run leaves digits only, and nothing exactly when the run is all commas |
| Parsers.RemoveCommas | app.py:71 | `replace(",", "")`: no comma is left, the result is no longer than the input, and a string without commas comes back unchanged; with `Parsers.CommaIgnored` (a comma anywhere changes nothing) this fixes the result |
| Parsers.ParseAmount | app.py:71 | `float(g.replace(",", ""))` on an amount group fails exactly when the group is all commas |
| Parsers.DecimalRoundTrip | app.py:71 | reading the decimal digits of a number gives the number |
| Parsers.ParseDecimal | app.py:71 | a number's digits parse to that number |
| Parsers.CommaIgnored | app.py:71 | a thousands separator anywhere does not change the digits read |
| Parsers.SeparatorIgnored | app.py:71 | a comma anywhere in an amount group leaves the amount read unchanged, so "1,200" reads as 1200 |
| Parsers.Record | app.py:68-72 | the record of a match: the date group, the stripped description group and the amount, or nothing when the amount group does not parse; `Parsers.RecordOfMatch` states its shape |
| Parsers.DbsLine | app.py:63-73 | what `parse_dbs_pdf` appends for one line; `Parsers.DbsLineSound`, `Parsers.DbsLineComplete` and `Parsers.DbsIsFilteredGeneral` state it |
| Parsers.ESunLine | app.py:84-102 | what `parse_esun_pdf` appends for one line; `Parsers.ESunLineSound` and `Parsers.ESunLineComplete` state it |
| Parsers.GeneralLine | app.py:110-115 | what `parse_general_pdf` appends for one line; `Parsers.GeneralLineIff` states it |
| Parsers.DbsLineSound | app.py:63-72 | a DBS record comes from a line with no noise marker and at most one date, from the reported match, and its description does not start with a date |
| Parsers.DbsLineComplete | app.py:63-72 | a line passing the DBS filters whose description is not a date yields its reported match's record |
| Parsers.DescriptionDateIsSecond | app.py:64-69 | a stripped description that starts with a date puts a second, non-overlapping date on the line |
| Parsers.DbsIsFilteredGeneral | app.py:63-73 | the DBS parser yields nothing for a noise line or a two-date line, and otherwise exactly what the general parser yields |
| Parsers.ESunLineSound | app.py:84-101 | an E.SUN record comes from a line with no noise marker, from the reported match, and its description holds neither "轉帳" nor "繳款" |
| Parsers.ESunLineComplete | app.py:84-101 | a line passing the E.SUN filters yields its reported match's record |
| Parsers.GeneralLineIff | app.py:110-115 | the general parser emits from a line exactly when the pattern matches and the reported amount group holds a digit |
| Parsers.RecordOfMatch | app.py:68-72 | a record built from a match has a `dddd/dd/dd` date and a stripped description |
| Parsers.RecordShape | app.py:62-114 | every record any parser emits has a `dddd/dd/dd` date and a stripped description |
| Parsers.CommaOnlySkipped | app.py:70-73 | an all-comma amount group skips the line under every parser |
| Parsers.ExtractInLineOrder | app.py:58-116 | one record per emitting line, in line order, none from other lines, never more records than lines |
| Parsers.ExtractAppend | app.py:62 | the records of two runs of lines are the first run's then the second's |
| Parsers.SkippedLine | app.py:63-73 | a line that yields nothing leaves the records of the other lines unchanged: the parse goes on |
| Parsers.ParseDbs | app.py:58-74 | `parse_dbs_pdf` returns exactly the DBS records of the text's lines |
| Parsers.ParseESun | app.py:76-103 | `parse_esun_pdf` returns exactly the E.SUN records of the text's lines |
| Parsers.ParseGeneral | app.py:105-116 | `parse_general_pdf` returns exactly the general records of the text's lines |
| Classifier.Detect | app.py:156-167 | DBS exactly when "星展" or "DBS" occurs; E.SUN exactly when "玉山" or "E.SUN" occurs and no DBS marker; Taishin exactly when "台新" occurs and neither of those; unknown otherwise |
| Classifier.ParserFor | app.py:156-167 | the DBS parser exactly for DBS, the E.SUN parser exactly for E.SUN, the general parser for Taishin and for an unknown bank |
| Classifier.ParserChoice | app.py:156-167 | the DBS parser exactly with a DBS marker, the E.SUN parser exactly with an E.SUN marker and no DBS one, the general parser otherwise |
| Classifier.DetectExtend | app.py:156-167 | adding text never moves a statement further down the detection chain |
| Classifier.ParseStatement | app.py:156-167 | the detected bank, and the records of the parser it selects |
| Totals.RowOf | app.py:206-213 | a row carries the transaction's description and amount; its rate is the special rate exactly when a keyword matches the shop name, else the base rate; its label is "🔥 指定加碼" exactly when a keyword matches and "一般回饋" otherwise; its points are `amount × rate` rounded half to even |
| Totals.Rows | app.py:202-213 | one row per transaction, in order |
| Totals.SumPoints | app.py:207 | the total of the rows' points, added in row order; `Totals.SumPointsAppend` and `Totals.TotalNonNegative` state it |
| Totals.SumPointsAppend | app.py:204 | the total of two tables is the sum of their totals |
| Totals.TotalNonNegative | app.py:204 | a table of purchases never totals negative points |
| Totals.TotalAppend | app.py:202-214 | the total over two statements is the sum of their totals |
| Totals.TotalRewards | app.py:199-214 | the loop yields exactly one row per transaction in order, and `total_points` equals the sum of the rows' points |
| Statement.ReportBounds | app.py:202-214 | a report has no more rows than the text has lines, a total of at least zero, and each row's amount is its transaction's |
| Statement.Analyze | app.py:156-214 | no transactions found when the selected parser finds none, otherwise the rows and total of those transactions |
| Scenarios.SpacedLineEmptyDescription | app.py:110-114 | with three spaces between the date and the amount, the description is empty |
| Scenarios.FirstAmountTaken | app.py:110-114 | in "A 1 2" the amount is 1, not the last number |
| Scenarios.CardTailBacktracks | app.py:92-101 | the card-tail group gives up "1234" so that it becomes the description |
| Scenarios.DbsSkipsTwoDates | app.py:64 | a DBS line with a transaction and a posting date is skipped |
| Scenarios.SteamBonus | app.py:24-33 | "STEAM 遊戲" earns the League of Legends card's 10% bonus despite the case |
| Scenarios.HalfPointsToEven | app.py:27 | 0.5 point rounds to 0 and 1.5 points to 2 |
| Formats.PurchaseSearch | app.py:110 | on a line `date description amount`, `re.search` reports the match that takes the whole description and the whole amount |
| Formats.ESunSearch | app.py:92 | when the description does not start with a digit, the E.SUN pattern skips both optional groups and reports the same match |
| Formats.GeneralRoundTrip | app.py:110-114 | the general parser reads back the date, description and amount a line was printed from |
| Formats.DbsRoundTrip | app.py:63-72 | the DBS parser reads a printed line back unless it carries a noise marker or a second date |
| Formats.ESunRoundTrip | app.py:84-101 | the E.SUN parser reads a printed line back unless it carries a noise marker or its description names a transfer or a payment |
| Formats.GeneralStatementRoundTrip | app.py:105-116 | the general parser reads every transaction of a printed statement back, in order |
| Walkthrough.SampleUnknownBank | app.py:156-167 | the sample statement has no bank marker |
| Walkthrough.SampleTransactions | app.py:156-167 | the sample statement yields exactly its two purchases, in order |
| Walkthrough.SampleRows | app.py:203-213 | the Uber purchase earns the 10% bonus, 35 points, and the 7-ELEVEN one the 1.2% base rate, 1 point, on the League of Legends card (app.py:33) |
| Walkthrough.SampleStatementTotal | app.py:156-214 | the whole pipeline on the sample statement totals 36 points |

## Left out

- The Streamlit UI is not modelled, being presentation only: page setup, the sidebar header and divider, the password box, the debug switch, the file uploader, the debug text area, the success, info, warning and error messages, the metrics and the result table (app.py:7-10, 122-123, 127-141, 150-153, 157, 160, 163, 166, 172, 199-200, 216-222).
- PDF decryption, page-text extraction and its exception handling (app.py:143-148, 174-175) are not modelled: they are calls into pdfplumber. The statement text is a parameter.
- The CSV/Excel path (app.py:177-195) is not modelled: it is pandas I/O and column renaming, and its amounts can be negative or fractional floats.
- The pandas `DataFrame` built from the records, and iterated with `iterrows`, is modelled as the record sequence itself, in the same order.
- Display formatting is not modelled: `f"{rate*100:.1f}%"`, `:,.0f` and the total spend metric (app.py:211, 217-220).
- Rewards.Calculate: rates and amounts are exact, so it does not capture floating-point `amount * rate`. Python's float product can land off an exact half and round differently, and an amount run over about 309 digits becomes `inf` and makes `round` raise `OverflowError`.
- Parsers.ParseAmount: returns the exact integer. `float()` loses precision above 2^53.
- Text.IsSpace, Text.Lower and Text.IsDigit cover ASCII only. Python's `\s` and `strip()` also treat other Unicode spaces as whitespace, `lower()` also lower-cases non-ASCII letters, and `\d` also matches non-ASCII digits.
- Rewards.Calculate: the amount is an `int`. Negative amounts are allowed; fractional ones are not modelled, and only the CSV path could supply them. `str(row["摘要"])` is the identity on the parsers' string descriptions.
- Patterns.Search: takes lines without newlines, as `split('\n')` gives them, so `$` is end of line and `.` is any character other than `'\n'`.
- Rewards.RoundedUnique and Rewards.RoundMonotone hold without any proof steps. They are kept as stated properties of the rounding.
- Formats.ESunRoundTrip: asks that the description not start with a digit. A description starting with four digits is first offered to the optional card-tail group; `Scenarios.CardTailBacktracks` works one such line through.
- Formats.GeneralRoundTrip, Formats.DbsRoundTrip and Formats.ESunRoundTrip: cover lines with single spaces and amounts printed without thousands separators. `Parsers.CommaIgnored` covers the separators on their own.
