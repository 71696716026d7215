# Income tax tracker: bank alert parsing and progressive tax, in Dafny

The income tax tracker reads Nigerian bank alerts. These arrive as SMS bodies, as pasted text or
as text recognised from receipts. The tracker decides whether each alert records income and pulls
out its amount, bank and description. It then adds up the income and estimates the annual tax
under a progressive bracket table. Several divergent copies of this logic exist, and each copy
is modelled here as its own module so that it can be compared with its own source file:

- `BankAlertParser` (`mobile-app/services/bankAlertParser.js`). It cleans the alert by dropping
  receipt footer lines. It decides debit or income with a cascade: a scan of the "Recipient
  Details" section for business words, then the whole words "debit"/"dr", then debit phrases.
  It then tries four amount patterns in order, skipping any that give NaN or a value that is not
  positive. Finally it picks a bank from an ordered pattern table and a description with
  fallbacks. The section scan is a method with a loop over the lines, proved against a
  specification function.
- `TxParser` (`mobile-app/utils/parser.js`). This older parser stops at the first amount pattern
  that matches, even when its value is NaN. Its credit test is symmetric, with a user-name
  tie-break. Bank detection is a first-match search with standardised names. The description
  skips footers.
- `WebApp` (`src/App.jsx`). It holds the web app's keyword classifiers and the receiver/sender
  name patterns, together with `escapeRegExp`. It also holds the first-match `parseSMS`, the
  accept/reject cascade of `handleAddTransaction`, the CSV export, `calculateTax` and the
  totals.
- `ServiceTax` (`mobile-app/services/taxCalculator.js`) and `LimitBrackets`. These use
  brackets given by cumulative limits. The loop is shared with `calculateTax` in `src/App.jsx`,
  which uses the same table.
- `UtilTax` (`mobile-app/utils/taxCalculator.js`). Its brackets are given by width, and the loop
  consumes the remaining income. It also builds the tax summary of a list of amounts.
- `SmsReader` (`mobile-app/services/smsReader.js`). It holds the bank sender test, the decision
  of `processBankSMS` before the server call, and the import tally. The tally is a class whose
  counters are updated in place.

Regular expressions are written out as small matchers that follow JavaScript's backtracking
order: leftmost match, alternatives in order, greedy or lazy repetition. The shared modules are:

- `Text`: ASCII case mapping, the whitespace set of `trim` and `\s`, the `\b` word boundary,
  splitting and joining;
- `Scan`: spans, first-match searches, lazy captures and amount shapes;
- `Decimal`: `parseFloat`, `Number` and comma stripping.

Amounts and rates are `real`. A NaN from `parseFloat` or `Number` is `None`.

## Model

| member | source | states |
|---|---|---|
| BankAlertParser.ParseBankAlert | mobile-app/services/bankAlertParser.js:4-30 | Empty text gives no result. Otherwise there is a result exactly when some amount pattern yields a positive value on the cleaned text, and its amount is positive. |
| BankAlertParser.ParseCleaned | mobile-app/services/bankAlertParser.js:10-29 | A result exists iff an amount is found, and the amount is that one and positive. The type is expense iff the text is classified as debit. The description is never empty, because of the "Bank debit"/"Bank credit" fallback. The bank is the name of the first table entry that matches, or "Unknown Bank" when none does. A non-empty description found in the text is kept as it is; when there is none, the description is "Bank debit" for an expense and "Bank credit" for income. The date is the given day. |
| BankAlertParser.CleanForDetection | mobile-app/services/bankAlertParser.js:32-46 | The cleaned text is empty iff no line survives trimming and the footer filter. |
| BankAlertParser.KeptLines | mobile-app/services/bankAlertParser.js:35-44 | Every kept line is trimmed, non-empty, free of junk phrases and free of newlines, and no more lines are kept than there are pieces. |
| BankAlertParser.KeptLinesStep | mobile-app/services/bankAlertParser.js:37-44 | A trimmed piece that is kept joins the clean lines after it, and the result stays clean. |
| BankAlertParser.KeptLinesOfCleanLines | mobile-app/services/bankAlertParser.js:35-45 | Cleaning leaves a list of already clean lines unchanged. |
| BankAlertParser.CleanedLines | mobile-app/services/bankAlertParser.js:32-46 | The lines of the cleaned text are exactly the kept lines of the original, in their original order, and each of them is clean. |
| BankAlertParser.CleanIdempotent | mobile-app/services/bankAlertParser.js:32-46 | Cleaning twice gives the same text as cleaning once. |
| BankAlertParser.Kinds | mobile-app/services/bankAlertParser.js:69-83 | Each line is classified as a recipient heading, a sender heading, a "transaction no" line or plain text. |
| BankAlertParser.CollectedFlags | mobile-app/services/bankAlertParser.js:85-90 | Flag j is set exactly when line j is collected into the section's text. |
| BankAlertParser.InSectionStep | mobile-app/services/bankAlertParser.js:69-83 | After line n, the section flag is on iff line n opens the section, or line n is plain and the flag was already on. |
| BankAlertParser.OpenAtStep | mobile-app/services/bankAlertParser.js:69-83 | The same step rule for the flag, computed over the line kinds. |
| BankAlertParser.ScanSections | mobile-app/services/bankAlertParser.js:63-91 | The loop over the lines, with its two section flags, returns the recipient text and the sender text that the section specification defines. |
| BankAlertParser.SectionTextStep | mobile-app/services/bankAlertParser.js:85-90 | Each line adds itself and a space to a section's text exactly when it is collected there. |
| BankAlertParser.IsDebitTransaction | mobile-app/services/bankAlertParser.js:48-126 | The method, with its early returns, agrees with the debit cascade. |
| BankAlertParser.IsDebit | mobile-app/services/bankAlertParser.js:48-126 | A whole "debit" or "dr" always makes a debit. Without both section headings, only the whole words and the debit phrases decide. |
| BankAlertParser.DebitCascade | mobile-app/services/bankAlertParser.js:53-125 | Debit iff one of these holds: both headings occur and some collected recipient line contains a whole business word; a whole "debit" or "dr" occurs; a debit phrase occurs. |
| BankAlertParser.GatherWord | mobile-app/services/bankAlertParser.js:85-96 | The gathered section text contains a whole word iff some collected line does. |
| BankAlertParser.GatherWordStep | mobile-app/services/bankAlertParser.js:85-96 | Appending a line and a space keeps or adds a whole word, and creates none across the join. |
| BankAlertParser.SectionTextBusinessWord | mobile-app/services/bankAlertParser.js:93-98 | A section's text has a business word iff one of its collected lines has one. |
| BankAlertParser.BusinessWordsAreWords | mobile-app/services/bankAlertParser.js:95 | Every business word is made of word characters only. |
| BankAlertParser.CriticalKeywordsSpelledOut | mobile-app/services/bankAlertParser.js:102-105 | The critical keyword test is a case-insensitive whole-word search for "debit" or for "dr". |
| BankAlertParser.DebitWordDominates | mobile-app/services/bankAlertParser.js:11-105 | An alert that contains the whole word "debit" is always an expense. |
| BankAlertParser.NoDebitSignalIsIncome | mobile-app/services/bankAlertParser.js:25-125 | Without the section pair, without critical words and without debit phrases, an alert is income. |
| BankAlertParser.CurrencyThenAmount | mobile-app/services/bankAlertParser.js:131 | A match of the currency-prefixed pattern starts inside the text, and its capture is a non-empty run of digits and commas, optionally followed by a point and two digits. |
| BankAlertParser.LabelThenAmount | mobile-app/services/bankAlertParser.js:132 | A match of the labelled pattern starts inside the text, and its capture is a non-empty run of digits and commas, optionally followed by a point and two digits. |
| BankAlertParser.VerbThenAmount | mobile-app/services/bankAlertParser.js:133 | A match of the verb-anchored pattern starts inside the text, and its capture is a non-empty run of digits and commas, optionally followed by a point and two digits. |
| BankAlertParser.AmountThenCurrency | mobile-app/services/bankAlertParser.js:134 | A match of the currency-suffixed pattern starts inside the text, and its capture is a non-empty run of digits and commas, optionally followed by a point and two digits. |
| BankAlertParser.AmountCaptureAt | mobile-app/services/bankAlertParser.js:130-135 | A capture of any of the four patterns starts inside the text and has the shape of `[\d,]+(?:\.\d{2})?`: digits and commas, optionally followed by a point and two digits. |
| BankAlertParser.AmountCapture | mobile-app/services/bankAlertParser.js:130-139 | The leftmost capture of a pattern has that same shape. |
| BankAlertParser.PatternAmount | mobile-app/services/bankAlertParser.js:138-144 | A pattern yields an amount only when its capture, with commas removed, parses, and the amount is then positive. |
| BankAlertParser.PatternAmounts | mobile-app/services/bankAlertParser.js:130-137 | The amounts of the four patterns, in table order. |
| BankAlertParser.AmountOf | mobile-app/services/bankAlertParser.js:128-149 | An amount is found iff some pattern yields one, and it is positive. |
| BankAlertParser.TryPattern | mobile-app/services/bankAlertParser.js:138-145 | One pattern's match, comma stripping, parse and positivity check gives that pattern's amount. |
| BankAlertParser.ExtractAmount | mobile-app/services/bankAlertParser.js:128-149 | The loop with its early return gives the amount of the first pattern that yields one, or none. |
| BankAlertParser.AmountFallsThrough | mobile-app/services/bankAlertParser.js:137-147 | When the first k patterns yield nothing, whether or not they matched, the result is the first yield from pattern k on. |
| BankAlertParser.AmountOfEmpty | mobile-app/services/bankAlertParser.js:5-15 | Empty text has no amount. |
| BankAlertParser.BankOf | mobile-app/services/bankAlertParser.js:151-180 | The name of the first table entry whose pattern matches, and none iff no pattern matches. |
| BankAlertParser.BankFrom | mobile-app/services/bankAlertParser.js:151-180 | The result is the name of the first table entry whose pattern matches, and none iff no pattern matches. |
| BankAlertParser.ExtractBankName | mobile-app/services/bankAlertParser.js:173-179 | The loop with its early return agrees with the first-match specification. |
| BankAlertParser.GTBankComesFirst | mobile-app/services/bankAlertParser.js:153-175 | An alert matching the GTBank pattern is GTBank, whatever other banks it mentions. |
| BankAlertParser.NonBlankLines | mobile-app/services/bankAlertParser.js:184 | The remaining lines are all non-blank. |
| BankAlertParser.NonBlankLinesEmpty | mobile-app/services/bankAlertParser.js:184-204 | No line remains iff every line is blank. |
| BankAlertParser.ExtractDescription | mobile-app/services/bankAlertParser.js:182-205 | A missing description means that no non-blank line exists, and a found description does not start with white space. |
| BankAlertParser.LabelDecides | mobile-app/services/bankAlertParser.js:187-197 | A desc/description/narration/details capture decides, trimmed, whatever the to/from pattern would capture. |
| BankAlertParser.CounterpartyDecides | mobile-app/services/bankAlertParser.js:187-197 | Without a label capture, a to/from capture decides, trimmed, over the first line. |
| BankAlertParser.FirstLineFallback | mobile-app/services/bankAlertParser.js:184-202 | Without either capture, the description is the first non-blank line cut to 100 characters: a prefix of it of at most 100 characters, all of it when it is no longer, and exactly its first 100 characters when it is longer. |
| BankAlertParser.PatternNeedsNonBlankLine | mobile-app/services/bankAlertParser.js:184-197 | A pattern capture needs a non-blank line, since both patterns start with a letter. |
| BankAlertParser.SpaceHasNoCapture | mobile-app/services/bankAlertParser.js:187-190 | Neither description pattern captures anything in a text of white space. |
| BankAlertParser.NoAltInSpace | mobile-app/services/bankAlertParser.js:188-189 | No alternative that starts with a lower-case letter occurs in a text of white space. |
| BankAlertParser.BlankLinesAreSpace | mobile-app/services/bankAlertParser.js:184 | A text whose every line is blank is all white space. |
| BankAlertParser.NoDescriptionIffBlank | mobile-app/services/bankAlertParser.js:182-205 | The description is missing iff no non-blank line remains, iff every line is blank. |
| BankAlertParser.ParseOfCleanedText | mobile-app/services/bankAlertParser.js:8-46 | Parsing the cleaned text gives the same result as parsing the original. |
| TxParser.ExtractAmount | mobile-app/utils/parser.js:17-37 | No match iff none of the naira, dollar and plain patterns matches. |
| TxParser.NairaDecides | mobile-app/utils/parser.js:19-22 | When the naira pattern matches, its capture decides the result, even when that capture is NaN. |
| TxParser.DollarDecides | mobile-app/utils/parser.js:24-28 | Without a naira match, a dollar match decides the result over any plain number. |
| TxParser.PlainDecides | mobile-app/utils/parser.js:30-34 | The plain-number pattern decides only when neither currency pattern matches. |
| TxParser.Standardize | mobile-app/utils/parser.js:46-56 | The standard name is one of the ten canonical names or the entry itself. |
| TxParser.BankFrom | mobile-app/utils/parser.js:43-60 | "Unknown Bank" iff no entry is contained case-insensitively. Otherwise the result is the standardised first entry that is contained. |
| TxParser.BankFromStep | mobile-app/utils/parser.js:43-58 | An entry that is not contained passes on the answer of the entries after it. |
| TxParser.DetectedBank | mobile-app/utils/parser.js:40-61 | "Unknown Bank" iff no entry is contained case-insensitively. Otherwise the standardised first entry that is contained. |
| TxParser.DetectBank | mobile-app/utils/parser.js:40-61 | The loop with its early return agrees with the first-match specification. |
| TxParser.DetectedBankIsKnown | mobile-app/utils/parser.js:43-60 | The detected bank is "Unknown Bank", a canonical name or a list entry. |
| TxParser.GtbIsGTBank | mobile-app/utils/parser.js:4-46 | Text containing "gtb" in any case is GTBank. |
| TxParser.IsCredit | mobile-app/utils/parser.js:64-95 | Credit words without debit words give true, and debit words without credit words give false. Otherwise the result is true iff the user's name is non-empty and contained, and "from" or "received" occurs. |
| TxParser.DepositAlsoReadsAsDebit | mobile-app/utils/parser.js:69-91 | "deposit" contains the debit word "pos", so such text always falls to the name rule. |
| TxParser.CreditNeedsNameOrOneSidedKeywords | mobile-app/utils/parser.js:80-94 | Without a user name, credit iff credit words occur and debit words do not. |
| TxParser.NextFooter | mobile-app/utils/parser.js:101-105 | Finds the leftmost footer match from a position, and none exactly when no match exists. |
| TxParser.RemoveUnchangedIffAbsent | mobile-app/utils/parser.js:101-105 | The text is unchanged iff the footer never matches. |
| TxParser.StripFooters | mobile-app/utils/parser.js:100-106 | The text without footers is trimmed. |
| TxParser.FirstPiece | mobile-app/utils/parser.js:121 | The text before the first '.' or newline, as a prefix. |
| TxParser.ExtractDescription | mobile-app/utils/parser.js:98-123 | The description is trimmed. When neither capture matches, it is at most 100 characters and contains no '.' or newline. |
| TxParser.LabelDecides | mobile-app/utils/parser.js:108-112 | When the label pattern matches the footer-free text, the description is its capture, trimmed. |
| TxParser.FromToDecides | mobile-app/utils/parser.js:114-118 | Without a label match, a from/to match decides: the description is its capture, trimmed. |
| TxParser.FirstSentenceFallback | mobile-app/utils/parser.js:120-122 | With neither match, the description is the footer-free text's first piece before '.' or newline, cut to 100 characters and trimmed: all of that piece when it is 100 characters or fewer, its first 100 otherwise. |
| TxParser.LabelAt | mobile-app/utils/parser.js:109 | A label match at one index captures a non-empty text. |
| TxParser.AfterLabel | mobile-app/utils/parser.js:109 | After a label word, nothing matches unless a colon stands there, and the lazy capture is never empty. |
| TxParser.FromToAt | mobile-app/utils/parser.js:115 | A from/to match at one index starts with "from" in any case followed by white space, and captures a non-empty text. |
| TxParser.RemoveFrom | mobile-app/utils/parser.js:99-105 | Cutting every footer match out of the text from an index on never gives more characters than that suffix has. |
| TxParser.ParseTransactionFromText | mobile-app/utils/parser.js:126-147 | A result exists iff the text is non-empty and its amount is a positive number. The result keeps that amount, the raw text unchanged, IsCredit's verdict, the bank detectBank finds in the text (a known bank) and extractDescription's description of the text (trimmed). |
| LimitBrackets.TaxOver | mobile-app/services/taxCalculator.js:11-26 | An empty table taxes nothing. An income inside the first bracket pays that bracket's rate on its positive part. |
| LimitBrackets.AccrueTax | mobile-app/services/taxCalculator.js:11-26 | The loop, with its break and its running previous limit, computes the bracket specification. |
| LimitBrackets.FloorsIncrease | mobile-app/services/taxCalculator.js:2-9 | In a well-formed table, each limit is at most the floor of every later bracket. |
| LimitBrackets.AccrueFrom | mobile-app/services/taxCalculator.js:17-25 | An income above the floor of bracket k pays every full band below k, plus what bracket k on accrues. |
| LimitBrackets.BelowBracket | mobile-app/services/taxCalculator.js:17-25 | Passing a full bracket raises the floor to its limit and adds its band. |
| LimitBrackets.TableWellFormed | mobile-app/services/taxCalculator.js:2-9 | The table's limits increase and its last bracket is unbounded. |
| LimitBrackets.TableBands | mobile-app/services/taxCalculator.js:2-9 | The full lower bands total 0, 330000, 1950000, 4680000 and 10430000. |
| LimitBrackets.TaxIsSchedule | mobile-app/services/taxCalculator.js:11-26 | The loop's tax equals the closed-form piecewise schedule for every income. |
| LimitBrackets.NothingUpToFirstLimit | mobile-app/services/taxCalculator.js:3-19 | No tax is due on an income up to 800000, negative incomes included. |
| LimitBrackets.ThreeMillion | mobile-app/services/taxCalculator.js:2-25 | An income of 3000000 pays 330000. |
| LimitBrackets.ScheduleSlope | mobile-app/services/taxCalculator.js:2-9 | Between two incomes the schedule rises by between 0 and 25% of the difference, so it is continuous at the limits. |
| LimitBrackets.TaxMonotone | mobile-app/services/taxCalculator.js:11-26 | Tax never decreases with income and rises by at most 25% of the increase. |
| LimitBrackets.TaxBounds | mobile-app/services/taxCalculator.js:11-26 | The tax is never negative and is at most 25% of a non-negative income. |
| ServiceTax.Tax | mobile-app/services/taxCalculator.js:11-27 | The tax is never negative and is at most 25% of a non-negative income. |
| ServiceTax.CalculateTax | mobile-app/services/taxCalculator.js:11-27 | The guard for a non-positive income and the loop compute the bracket specification. |
| ServiceTax.GuardIsRedundant | mobile-app/services/taxCalculator.js:12 | The early return for incomes of 0 or less changes nothing, because the first rate is 0. |
| ServiceTax.NetIncome | mobile-app/services/taxCalculator.js:29-32 | The net income of a non-negative gross is between 75% and 100% of it. |
| ServiceTax.NetIncomeMonotone | mobile-app/services/taxCalculator.js:29-32 | Net income rises by at least 75% of any rise in gross income. |
| ServiceTax.MonthlyTax | mobile-app/services/taxCalculator.js:41-44 | Twelve monthly taxes make the annual tax. The monthly tax is non-negative and at most 25% of a month's income. |
| ServiceTax.EffectiveRate | mobile-app/services/taxCalculator.js:46-50 | The rate lies in [0, 25], and it is 0 exactly for incomes up to 800000. |
| UtilTax.Taxable | mobile-app/utils/taxCalculator.js:21-22 | A bracket's share never exceeds the remaining income, is non-negative, and is all of it in the unbounded bracket. |
| UtilTax.TableShape | mobile-app/utils/taxCalculator.js:3-10 | Every bracket is wide and the last is unbounded. |
| UtilTax.Tax | mobile-app/utils/taxCalculator.js:12-29 | Nothing is due on a non-positive income, and an income up to 300000 pays 7% of itself. |
| UtilTax.FirstBracketShare | mobile-app/utils/taxCalculator.js:15-24 | An income up to 300000 is taxed at the first rate alone. |
| UtilTax.CalculateTax | mobile-app/utils/taxCalculator.js:12-29 | The guard for a non-positive income and the loop compute the bracket specification. |
| UtilTax.TakeShares | mobile-app/utils/taxCalculator.js:15-26 | The loop keeps the remaining income non-negative, and the tax so far plus the tax still due equals the whole tax. |
| UtilTax.TakeShare | mobile-app/utils/taxCalculator.js:21-25 | One turn takes a share between 0 and the remaining income and adds exactly that share's tax. |
| UtilTax.ShareStep | mobile-app/utils/taxCalculator.js:21-25 | One turn of the loop splits both the tax and the taxed income into this bracket's share and the rest. |
| UtilTax.AllIncomeTaxed | mobile-app/utils/taxCalculator.js:15-26 | The shares add up to the whole positive income, so no income is left on exit. |
| UtilTax.TaxedFrom | mobile-app/utils/taxCalculator.js:18-26 | From any bracket on, the shares add up to the remaining income, because the last bracket is unbounded. |
| UtilTax.LastShare | mobile-app/utils/taxCalculator.js:21-24 | A remaining income that fits in bracket k is taxed at bracket k's rate alone. |
| UtilTax.FullShare | mobile-app/utils/taxCalculator.js:21-25 | A remaining income that overflows bracket k pays that whole band and carries the rest on. |
| UtilTax.StartsIncrease | mobile-app/utils/taxCalculator.js:3-10 | In a contiguous table, each bracket ends at or before every later one starts. |
| UtilTax.ConsumeFrom | mobile-app/utils/taxCalculator.js:18-26 | An income above the start of bracket k fills every bracket below k and is taxed from k on. |
| UtilTax.TableFullTax | mobile-app/utils/taxCalculator.js:3-10 | The table is contiguous, and its full lower brackets total 21000, 54000, 129000, 224000 and 560000. |
| UtilTax.FromBracket | mobile-app/utils/taxCalculator.js:18-26 | For a table bracket k, the tax is the full lower brackets plus what is taxed from k on. |
| UtilTax.TaxIsSchedule | mobile-app/utils/taxCalculator.js:12-29 | The loop's tax equals the closed-form piecewise schedule for every income. |
| UtilTax.FirstBracketFull | mobile-app/utils/taxCalculator.js:4-24 | An income of 300000 pays 21000. |
| UtilTax.TaxBounds | mobile-app/utils/taxCalculator.js:3-29 | A positive income pays between 7% and 24% of it. |
| UtilTax.TaxMonotone | mobile-app/utils/taxCalculator.js:12-29 | Between two non-negative incomes, tax rises by between 7% and 24% of the difference. |
| UtilTax.ScheduleSlope | mobile-app/utils/taxCalculator.js:3-10 | Between two non-negative incomes the schedule rises by between 7% and 24% of the difference. |
| UtilTax.TotalIncome | mobile-app/utils/taxCalculator.js:47 | The total is a number iff every amount parses. |
| UtilTax.Sum | mobile-app/utils/taxCalculator.js:47 | A left-to-right sum is a number iff every term is. |
| UtilTax.TaxOfTotal | mobile-app/utils/taxCalculator.js:47-48 | The tax is NaN iff the total is. A positive total pays between 7% and 24% of itself. |
| UtilTax.RateOf | mobile-app/utils/taxCalculator.js:51 | The effective rate of a positive income lies between 7 and 24. |
| UtilTax.TaxSummary | mobile-app/utils/taxCalculator.js:46-60 | The annual income is the total. Net income is the total less the tax. The rate is 0 for a NaN or non-positive total and lies between 7 and 24 otherwise. |
| UtilTax.UnparsableAmountPoisons | mobile-app/utils/taxCalculator.js:47-51 | One unparsable amount makes the total NaN and the rate 0. |
| WebApp.EscapeRegExp | src/App.jsx:7-9 | The output is longer than the input by the number of special characters. Text without special characters is unchanged. |
| WebApp.UnescapeEscape | src/App.jsx:7-9 | Removing the escapes gives back the input: one backslash goes before each special character and nothing else changes. |
| WebApp.IsDebitTransaction | src/App.jsx:265-289 | A whole "debit" or "dr", or "withdraw" or "purchase" anywhere in any case, makes the text a debit. |
| WebApp.IsCreditTransaction | src/App.jsx:291-305 | "credit" or "transfer from" anywhere in any case makes the text a credit. |
| WebApp.DebitCoversMobileKeywords | src/App.jsx:265-289 | Every text that the mobile parser's keyword rules call debit is also debit here. |
| WebApp.TransferFromYourIsBoth | src/App.jsx:277-298 | "transfer from your" reads as both a debit and a credit phrase. |
| WebApp.NamePattern | src/App.jsx:357-370 | The escaped name matches exactly the trimmed user name. |
| WebApp.CheckIfUserIsReceiver | src/App.jsx:355-366 | False for an empty user name. Otherwise true iff a receiver lead is followed by the trimmed name at a word boundary. |
| WebApp.CheckIfUserIsSender | src/App.jsx:368-378 | False for an empty user name. Otherwise true iff a sender lead is followed by the trimmed name at a word boundary. |
| WebApp.TwoWordLeadSubsumed | src/App.jsx:359-375 | A two-word lead whose last word is a lead itself adds no matches. |
| WebApp.CreditedToSubsumed | src/App.jsx:359-362 | Every "credited to" match is also a "to" match. |
| WebApp.TransferFromSubsumed | src/App.jsx:372-375 | Every "transfer from" match is also a "from" match. |
| WebApp.SmsAmountCaptures | src/App.jsx:316-320 | The captures of the three amount patterns, in order. |
| WebApp.SmsAmount | src/App.jsx:310-328 | The amount is NaN only when some pattern matched. |
| WebApp.SmsAmountFirstMatch | src/App.jsx:322-328 | The first pattern that matches decides the amount, whether or not it parses. |
| WebApp.SmsAmountDefault | src/App.jsx:310-328 | When no pattern matches, the amount stays 0. |
| WebApp.SmsBankFrom | src/App.jsx:330-336 | The first of the seven names contained case-insensitively, and "" iff none is. |
| WebApp.SmsDescriptionCaptures | src/App.jsx:338-341 | The captures of the two description patterns, in order. |
| WebApp.SmsDescription | src/App.jsx:343-351 | The description is never empty. Without a capture it is the first 60 characters plus "...". |
| WebApp.LabelledDescriptionDecides | src/App.jsx:338-351 | When the first pattern matches, the description is its capture, trimmed, or the first 60 characters plus "..." when that trims to nothing. |
| WebApp.TransferDescriptionIsDead | src/App.jsx:339-340 | The second description pattern can never be reached, because the first one matches whenever it does. |
| WebApp.FromInsideTransfer | src/App.jsx:339-340 | A "transfer from"/"payment from" capture contains a "from" match. |
| WebApp.TransferAlternative | src/App.jsx:340 | Exhibits the alternative of the second pattern that matched. |
| WebApp.TransferAlternativesEndInFrom | src/App.jsx:340 | Both alternatives end in "from". |
| WebApp.FromAfter | src/App.jsx:339-340 | A matched alternative that ends in "from" gives a "from" match. |
| WebApp.LabelledMatchesAfterFrom | src/App.jsx:339 | A "from" followed by a capturable rest makes the first pattern match. |
| WebApp.ParsedSms | src/App.jsx:307-353 | The transaction keeps the raw text and the given date. Its amount is the first matching amount pattern's value, its bank the first of the seven names the text mentions ("" iff none), and its description the one the description patterns settle on, never empty. |
| WebApp.ParseSms | src/App.jsx:307-353 | The loops that fill the transaction field by field agree with its first-match specification. |
| WebApp.ProcessAsCredit | src/App.jsx:380-386 | Rejected iff the amount is a number of 0 or less. Otherwise the parsed transaction is submitted. |
| WebApp.NoAmountIsRejected | src/App.jsx:310-382 | An alert without an amount match is rejected. |
| WebApp.UnparsableAmountIsSubmitted | src/App.jsx:325-382 | A matched amount that parses to NaN passes the check and is submitted. |
| WebApp.HandleAddTransaction | src/App.jsx:413-444 | Blank text is rejected. A receiver match goes to processing. Otherwise a sender match or a debit word gives a debit rejection, and no credit word gives a rejection. The rest goes to processing. |
| WebApp.SubmittedIsCredit | src/App.jsx:413-444 | Whatever is submitted is addressed to the user, or is a credit without debit words or a sender match. Its amount is positive or NaN. |
| WebApp.NoUserNameUsesKeywords | src/App.jsx:356-443 | Without a user name only the keywords decide. |
| WebApp.TransferFromYourIsRejected | src/App.jsx:277-436 | "transfer from your" without a receiver match is always a debit rejection. |
| WebApp.TrimNonEmpty | src/App.jsx:417 | Text that contains a word not starting with a space is not blank. |
| WebApp.DoubleQuotes | src/App.jsx:468 | Doubling quotes never shortens the text and leaves quote-free text unchanged. |
| WebApp.Row | src/App.jsx:469 | A row starts with the transaction's date and ends with a newline. |
| WebApp.Rows | src/App.jsx:467-470 | There are no rows iff there are no transactions, and otherwise the rows end with a newline. |
| WebApp.RowsAppend | src/App.jsx:467-470 | Each further transaction appends exactly its own row. |
| WebApp.HandleExport | src/App.jsx:465-470 | The accumulated CSV is the header followed by one row per transaction, in order. |
| WebApp.FieldRoundTrip | src/App.jsx:469 | A field without the delimiter reads back from a row. |
| WebApp.QuotedRoundTrip | src/App.jsx:468-469 | A quoted description with doubled quotes reads back as the original. |
| WebApp.RowRoundTrip | src/App.jsx:469 | A row reads back as its transaction. |
| WebApp.RowsRoundTrip | src/App.jsx:467-470 | The rows read back as the transactions. |
| WebApp.ExportRoundTrip | src/App.jsx:465-470 | The exported CSV reads back as the transactions whenever dates, amounts and banks contain no comma, quote or newline. |
| WebApp.CalculateTax | src/App.jsx:481-504 | The loop computes the cumulative-limit specification over the app's table. |
| WebApp.AppTaxAgreesWithService | src/App.jsx:481-504 | The app's tax equals the mobile service's tax for every income. |
| WebApp.AppTaxProperties | src/App.jsx:481-504 | The tax is 0 up to 800000, never decreases, and never exceeds 25% of a non-negative income. |
| WebApp.TotalIncome | src/App.jsx:506 | With no negative amount, the total is not negative. |
| WebApp.TotalIncomeConcat | src/App.jsx:506 | The total of two lists joined is the sum of their totals. |
| WebApp.UnparsableAmountCountsZero | src/App.jsx:506 | A non-numeric amount contributes nothing to the total. |
| WebApp.AppTotals | src/App.jsx:506-509 | Net income plus tax is the total. Net income is between 75% and 100% of a non-negative total. The rate lies in [0, 25] and is 0 exactly up to 800000. |
| SmsReader.Normalize | mobile-app/services/smsReader.js:62-64 | The normal form is no longer than the input and contains only A-Z and 0-9. |
| SmsReader.NormalizeIdempotent | mobile-app/services/smsReader.js:62 | Normalising twice is normalising once. |
| SmsReader.NormalizeFixes | mobile-app/services/smsReader.js:62 | Text that is already upper-case alphanumeric is unchanged. |
| SmsReader.NormalizeIgnoresCase | mobile-app/services/smsReader.js:62 | Lower-casing or upper-casing first does not change the normal form. |
| SmsReader.NormalizeDropsPunctuation | mobile-app/services/smsReader.js:62 | Punctuation anywhere does not change the normal form. |
| SmsReader.IsBankSender | mobile-app/services/smsReader.js:60-66 | Every listed sender ID is recognised as a bank. |
| SmsReader.ListedSendersMatchThemselves | mobile-app/services/smsReader.js:63-65 | Every listed ID is non-empty, and its normal form contains itself. |
| SmsReader.SameNormalFormSameAnswer | mobile-app/services/smsReader.js:60-66 | Senders with the same normal form get the same answer. |
| SmsReader.BankSenderIgnoresCaseAndPunctuation | mobile-app/services/smsReader.js:60-66 | The test ignores case and punctuation. |
| SmsReader.ContainedIdIsBank | mobile-app/services/smsReader.js:63-65 | A sender whose normal form contains a known ID's normal form is a bank. |
| SmsReader.PrepareBankSms | mobile-app/services/smsReader.js:101-128 | Declined iff the body does not parse or parses as not a credit. Otherwise the parsed figures are sent with the raw body and date, and the amount is positive. |
| SmsReader.EmptyBodyDeclined | mobile-app/services/smsReader.js:108-113 | An empty body is never sent. |
| SmsReader.OutcomeOf | mobile-app/services/smsReader.js:160-182 | A declined message is skipped. A message is imported iff it is sent and created, and errored iff it is sent and the call fails. |
| SmsReader.Count | mobile-app/services/smsReader.js:149-186 | No counter exceeds the number of messages. |
| SmsReader.CountStep | mobile-app/services/smsReader.js:163-177 | Each message adds one to exactly one counter. |
| SmsReader.CountsPartition | mobile-app/services/smsReader.js:149-186 | Imported, skipped and errors add up to the number of messages. |
| SmsReader.ScanResults.constructor | mobile-app/services/smsReader.js:149-155 | The tally starts at the message count with every counter at 0. |
| SmsReader.ScanResults.Record | mobile-app/services/smsReader.js:163-177 | Processed rises by one, and so does exactly the counter of the outcome, keeping processed = imported + skipped + errors. |
| SmsReader.Tally | mobile-app/services/smsReader.js:157-186 | The counting loop ends with processed = total, and each counter equals the count of its outcome. |
| SmsReader.ScanAndImport | mobile-app/services/smsReader.js:144-188 | Tallying the outcomes of all messages gives processed = total = the message count, with each counter equal to its count. |
| SmsReader.ImportedOnlyCredits | mobile-app/services/smsReader.js:108-136 | An imported message parsed as a credit and was created by the server. |
| Text.Trim | mobile-app/services/bankAlertParser.js:37 | The trimmed text neither starts nor ends with whitespace and draws only on the input's characters. |
| Text.TrimIdempotent | mobile-app/services/bankAlertParser.js:37-184 | Trimming twice is trimming once. |
| Text.TrimEmpty | src/App.jsx:417 | The trimmed text is empty iff every character is whitespace. |
| Text.JoinSplit | mobile-app/services/bankAlertParser.js:36-45 | Joining the pieces of a split gives back the text. |
| Text.SplitJoin | mobile-app/services/bankAlertParser.js:36-45 | Splitting joined pieces that contain no delimiter gives back the pieces. |
| Text.HasWordConcat | mobile-app/services/bankAlertParser.js:86-96 | After a non-word character, a whole word occurs in a joined text iff it occurs in one of the parts. |
| Text.Take | src/App.jsx:351 | Cutting to n characters gives a prefix of at most n characters: the whole of a text no longer than n, exactly n characters of a longer one. |
| Decimal.ParseFloat | mobile-app/utils/parser.js:21 | After leading white space, a digit guarantees a number and a number needs a digit somewhere; without a leading minus sign the number is not negative. |
| WebApp.AmountOrZero | src/App.jsx:506 | A stored amount counts as its numeric value, and as 0 when it is blank or not a number. |
| Scan.FirstSome | mobile-app/services/bankAlertParser.js:192-197 | The first pattern in order with a capture gives the result, and there is none iff no pattern captures. |
| Scan.FirstFrom | mobile-app/services/bankAlertParser.js:137-147 | The first present value from index k on, and none iff no value is present. |
| Scan.FirstFromSkips | mobile-app/services/bankAlertParser.js:137-147 | Leading absent values are skipped. |
| Scan.GroupedAmount | mobile-app/services/bankAlertParser.js:131 | A capture exists iff a digit or comma stands at the position. It is the text found there, made of digits and commas, optionally followed by a point and two digits. |
| Scan.Leftmost | mobile-app/utils/parser.js:109-115 | The match at the leftmost position that has one, and none iff no position has one. |
| Decimal.StripCommas | mobile-app/services/bankAlertParser.js:140 | The result has no comma and draws only on the input's characters. |
| Decimal.DecimalPrefix | mobile-app/services/bankAlertParser.js:141 | A literal is read when a digit starts it, it contains a digit, and it is non-negative without a minus sign. |
| Decimal.NumberValue | src/App.jsx:506 | Blank text reads as 0. |

## Left out

- User interface, screens, navigation, React state, pop-ups and timers: rendering, not logic.
- The backend server, the API client, the native SMS listener and its config plugin: I/O and
  foreign libraries.
- `readRecentSMS`, `requestPermissions`, `startMonitoring`, `stopMonitoring` and the
  `listeners`/`isMonitoring` fields of `SMSReader`: permission prompts, the inbox query and
  background monitoring are I/O. The `messages` input of `ScanAndImport` stands for what
  `readRecentSMS(100)` returns: the most recent inbox messages (at most 100), already filtered
  to those whose address `isBankSender` accepts (mobile-app/services/smsReader.js:93).
- SmsReader.ScanAndImport: the server's reply to each create call is an input (`replies`), and
  the progress callback and the 100 ms delay are not modelled.
- SmsReader.PrepareBankSms: the date is taken as the message's own text, because converting
  epoch milliseconds to an ISO date needs a clock model.
- BankAlertParser.ParseBankAlert: today's date is a parameter, because `new Date()` reads the
  clock.
- WebApp.ParseSms: the date is a parameter for the same reason.
- WebApp.HandleAddTransaction: models the decision only. Component state, the network call
  and the messages shown are left out.
- The `userName` that callers pass to `parseBankAlert` is ignored by the source, so the model
  has no such parameter.
- `formatCurrency`, `formatNumber` and `formatNGN`: locale formatting through `Intl`.
- Case-insensitive matching and `toLowerCase`/`toUpperCase`: only ASCII letters change case.
  Other Unicode case mappings are not modelled.
- Decimal.DecimalPrefix: `parseFloat` is modelled for an optional sign, digits and an optional
  fraction. Exponents, "Infinity" and hexadecimal forms are not modelled. No capture the parsers
  feed it can contain them. The same reader stands for `parseFloat(t.amount)` in
  UtilTax.TotalIncome and for `Number(t.amount)` in WebApp.AmountOrZero. Those amounts are stored
  as NUMERIC(10, 2) (backend/server.js:52), so they are plain decimals and cannot contain those
  forms either.
- Text.Take: JavaScript's `substring(0, n)` counts UTF-16 code units, while the model counts
  characters (Unicode scalar values). The same holds for the cuts in
  BankAlertParser.ExtractDescription, TxParser.ExtractDescription and WebApp.SmsDescription. The
  two agree on text without characters beyond the Basic Multilingual Plane, such as emoji. On
  other text the JavaScript cut keeps fewer characters and can split a surrogate pair.
- Amounts are `real`: IEEE rounding of the sums and products is not modelled, and NaN is `None`.
- WebApp.Tx: a missing description or bank prints as "" in the CSV, so the model keeps every
  field as text, with "" for a missing one.
- WebApp.ExportRoundTrip: holds only for dates, amounts and banks without commas, quotes or
  newlines, since the source quotes only the description.
- The CSV download itself (Blob, object URL, click) is browser I/O.
- A NaN amount from `parseSMS` passes `processAsCredit`'s check. The model states this
  (WebApp.UnparsableAmountIsSubmitted) and leaves the server's response to it out.
