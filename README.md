# SGX filings and buy-back pipeline — a verified model

This project models the core of a scraper for Singapore Exchange (SGX) announcements.
The model takes in a disclosure PDF of a substantial shareholder's dealing, reduced to its text blocks, vector drawings, tables and page texts. From it the model produces the transaction records the pipeline stores.
It also models the same pipeline's buy-back announcement parser, the rule that holds suspicious filings back for review, and the command-line helpers that clean and de-duplicate payloads before they reach the database.

The Dafny modules follow the program's files:

| module | models |
|---|---|
| `Checkboxes` | text blocks, checkbox detection in Y-bands, page stitching, section bands, the three checkbox extractors |
| `ShareTables` | share-table classification, gathering and merging across pages |
| `Shareholders` | shareholder-name lookup and the tiling of shareholder sections from anchors |
| `Constants` | the option-label tables, the other-circumstances rules and the transaction keywords |
| `FilingValues` | number extraction, price per share, rounding and value of a filing |
| `FilingTypes` | circumstance-of-interest lookup, transaction-type classification, buy/sell netting, holder type |
| `PdfText` | page-text reconstruction from lines grouped by their top coordinate |
| `FilingRecords` | share counts from the merged table, tranche and multi-date splitting, the page fallback cascade, the record join and validation, the document-level fallback, the voting-shares gate |
| `ParserHelper` | symbol extraction and the date conversions of both copies of the parser helper |
| `BuybackHelpers` | number extraction, price shape, value picking and section fallback, mandate remainder of the buy-back helpers |
| `BuybackParser` | table rows, section merging and re-keying, symbol, buy-back type, prices, totals and mandate assembly |
| `Alerts` | the insertable / not-insertable filter and the split of a payload |
| `CliHelper` | command-line date normalisation, payload clean-up, duplicate removal |

The modules `Wrappers` (Option), `Text` (ASCII strings and the `str` methods used), `Numbers` (decimal tokens, `float` of a text, half-even `round`, truncation, `math.isclose`), `Dates` (calendar dates, the `strptime`/`strftime` formats used, one-year shift), `Regex` (a small backtracking matcher with Python's priority order, used for the fixed patterns) and `ODicts` (an insertion-ordered dictionary) model the Python built-ins the core relies on.

Everything outside the program's own logic is a parameter:
- The PDF library: text blocks, drawings, text search, tables and crops are input sequences or search functions.
- The fuzzy symbol matcher `matching_symbol`.
- The latest-rate currency conversion used by `build_value` (`fx`).
- The market-price lookup `get_price` of the alert filter.
- The three lazy capture readers `extract_date`, `extract_number_of_stock` and `extract_value` (`Readers`).
- The JSON files read by `remove_duplicate`.

Where the source mutates lists and dictionaries in loops (checkbox scans, `compute_transactions`, the record join, payload clean-up, the alert split), the model is a method with loop invariants. That method is proved equal to a reference function, and the properties are lemmas about that function.
Floats are reals; integers are unbounded.

## Model

| member | source | states |
|---|---|---|
| Constants.Literal | src/fetch_sgx_filings/utils/constants.py:2-6 | an option whose pattern is its own label, read literally |
| Constants.Lookup | src/fetch_sgx_filings/utils/constants.py:25-30 | `dict.get` on the rule table: a value exactly when some entry has the key, and then that entry's value |
| Constants.TablesHaveDistinctKeys | src/fetch_sgx_filings/utils/constants.py:1-23 | every option table has distinct keys, so a result dict holds one entry per option (also lines 62-67) |
| Constants.RulesShape | src/fetch_sgx_filings/utils/constants.py:25-30 | the rules map exactly four distinct lower-case labels, each to 'award', 'buy' or 'sell' |
| Constants.RuleRange | src/fetch_sgx_filings/utils/constants.py:25-30 | any rule found is 'award', 'buy' or 'sell' |
| Constants.TakeOverOptionsSharePattern | src/fetch_sgx_filings/utils/constants.py:17-22 | the two take-over options have different keys but one pattern, so they always get the same checkbox state |
| Constants.DisposalRepeatsAcquisition | src/fetch_sgx_filings/utils/constants.py:2-13 | the disposal table is the first two acquisition options, patterns included, so only the Y-bands keep them apart |
| Constants.TakeOverLabelsHaveNoRule | src/fetch_sgx_filings/utils/constants.py:17-30 | neither take-over label, lower-cased and stripped, is a rule key ("for listed issuer" lacks "the") |
| Checkboxes.ToTextBlock | src/fetch_sgx_filings/utils/payload_pdf_helper.py:17-30 | a text block keeps the raw block's bbox, takes x0, y0 and y1 from it, and its text is the stripped concatenation of every span's text followed by a space |
| Checkboxes.AllTextBlocks | src/fetch_sgx_filings/utils/payload_pdf_helper.py:15-16 | a page whose blocks are all of type 0 gives one text block per raw block, in order |
| Checkboxes.NoTextBlocks | src/fetch_sgx_filings/utils/payload_pdf_helper.py:15-16 | a page without a block of type 0 gives no text blocks |
| Checkboxes.LineText | src/fetch_sgx_filings/utils/payload_pdf_helper.py:21-22 | the span loop yields each span's text followed by a space, in order |
| Checkboxes.BlockText | src/fetch_sgx_filings/utils/payload_pdf_helper.py:20-22 | the line loop yields the lines' span texts one after the other |
| Checkboxes.GetAllTextBlocks | src/fetch_sgx_filings/utils/payload_pdf_helper.py:12-32 | the result is the converted type-0 blocks in page order, never more than there are raw blocks |
| Checkboxes.ToleranceWidens | src/fetch_sgx_filings/utils/payload_pdf_helper.py:57 | a box that checks a label within the 10-point tolerance also checks it within 15 points (also line 104) |
| Checkboxes.ScanForCheckedBox | src/fetch_sgx_filings/utils/payload_pdf_helper.py:54-65 | true exactly when some drawing of type 'f' has a fill that is present and not white, a top within the tolerance of the label's top, and a right edge at or left of the label |
| Checkboxes.HasCheckedBox | src/fetch_sgx_filings/utils/payload_pdf_helper.py:54-65 | some drawing checks the label: a filled, non-white box of type 'f' whose top is within the tolerance of the label's and whose right edge is at or left of the label |
| Checkboxes.FirstHit | src/fetch_sgx_filings/utils/payload_pdf_helper.py:46-49 | a found index lies in the searched range and its block is in the band and matches the pattern |
| Checkboxes.FirstHitIsFirst | src/fetch_sgx_filings/utils/payload_pdf_helper.py:46-49 | no block before the found one is hit, and None means no block at all is hit |
| Checkboxes.FirstHitSkips | src/fetch_sgx_filings/utils/payload_pdf_helper.py:46-49 | skipping blocks that miss does not change the first hit |
| Checkboxes.FindFirst | src/fetch_sgx_filings/utils/payload_pdf_helper.py:91-95 | the loop that breaks at the first hit returns the first hit |
| Checkboxes.OptionStateMeaning | src/fetch_sgx_filings/utils/payload_pdf_helper.py:44-72 | an option is None exactly when no block in [y_start, y_end) matches its pattern; otherwise its state is whether the first matching block has a checked box within 10 points |
| Checkboxes.OptionState | src/fetch_sgx_filings/utils/payload_pdf_helper.py:44-72 | None when no block in [lo, hi) matches the pattern; otherwise whether the first matching block has a checked box at tolerance 10 |
| Checkboxes.OptionStates | src/fetch_sgx_filings/utils/payload_pdf_helper.py:42-44 | one entry per option, carrying the option's key, in table order |
| Checkboxes.FindOptionsInRange | src/fetch_sgx_filings/utils/payload_pdf_helper.py:35-74 | the nested loops give exactly the per-option states, in table order |
| Checkboxes.FindOptionState | src/fetch_sgx_filings/utils/payload_pdf_helper.py:45-72 | the block loop with its break gives the option's tri-state |
| Checkboxes.DescriptionParts | src/fetch_sgx_filings/utils/payload_pdf_helper.py:119-130 | at most one part per block, each longer than 3 characters |
| Checkboxes.OthersState | src/fetch_sgx_filings/utils/payload_pdf_helper.py:84-135 | checked exactly when the first matching block has a checked box within 15 points; a description only when checked, then the describing parts joined with single spaces, or None when there are none |
| Checkboxes.OthersStateMeaning | src/fetch_sgx_filings/utils/payload_pdf_helper.py:90-112 | checked exactly when some block of the band matches, no earlier one does, and that block has a checked box within 15 points |
| Checkboxes.ExtractOthersDescription | src/fetch_sgx_filings/utils/payload_pdf_helper.py:77-135 | the method's result is the free-text option's state and description |
| Checkboxes.DescriptionPartsStep | src/fetch_sgx_filings/utils/payload_pdf_helper.py:120-130 | one more block adds its stripped text exactly when it lies in [label.y1, y_end), starts at or right of label.x0 − 20 and is longer than 3 characters |
| Checkboxes.CollectDescription | src/fetch_sgx_filings/utils/payload_pdf_helper.py:119-130 | the loop collects exactly the describing parts, in block order |
| Checkboxes.ConvertBbox | src/fetch_sgx_filings/utils/payload_pdf_helper.py:138-143 | the flip keeps x0, x1 and the height of the box, and the new top is h − y1 (the new top plus the old bottom is the page height) |
| Checkboxes.ConvertTwice | src/fetch_sgx_filings/utils/payload_pdf_helper.py:138-143 | flipping twice with the same page height gives the box back |
| Checkboxes.ShiftBlock | src/fetch_sgx_filings/utils/payload_pdf_helper.py:170-172 | only y0 and y1 move, both by the offset; text, the stale bbox and x0 are unchanged |
| Checkboxes.ShiftDrawing | src/fetch_sgx_filings/utils/payload_pdf_helper.py:189-195 | only the rectangle's y0 and y1 move, both by the offset; type, fill, x0 and x1 are unchanged |
| Checkboxes.ShiftKeepsChecks | src/fetch_sgx_filings/utils/payload_pdf_helper.py:57-63 | shifting a label and a drawing by the same offset keeps whether the drawing checks the label (also lines 219-223) |
| Checkboxes.ShiftCompose | src/fetch_sgx_filings/utils/payload_pdf_helper.py:170-172 | two shifts are one shift by the sum, and a zero shift changes nothing |
| Checkboxes.ShiftBlocks | src/fetch_sgx_filings/utils/payload_pdf_helper.py:167-174 | same length, and each block is its shifted original at the same position |
| Checkboxes.ShiftDrawings | src/fetch_sgx_filings/utils/payload_pdf_helper.py:186-197 | same length, and each drawing is its shifted original at the same position |
| Checkboxes.AdjustBlockCoordinates | src/fetch_sgx_filings/utils/payload_pdf_helper.py:162-178 | the copy loop returns the blocks shifted one by one, same length and order |
| Checkboxes.AdjustDrawingCoordinates | src/fetch_sgx_filings/utils/payload_pdf_helper.py:181-201 | the copy loop returns the drawings shifted one by one, same length and order |
| Checkboxes.Stop | src/fetch_sgx_filings/utils/payload_pdf_helper.py:213 | the end of the page range is min(start + max_pages, page count) |
| Checkboxes.GatheredStartsWithFirstPage | src/fetch_sgx_filings/utils/payload_pdf_helper.py:213-226 | the first page's blocks come first and unshifted; the next page's blocks are shifted by the first page's height |
| Checkboxes.PageContent | src/fetch_sgx_filings/utils/payload_pdf_helper.py:214-223 | one page's blocks and drawings, shifted by the summed heights of the pages before it in the stitch |
| Checkboxes.GatherStep | src/fetch_sgx_filings/utils/payload_pdf_helper.py:225-226 | extending the combined lists by one page keeps them equal to the stitch read so far |
| Checkboxes.GatherPageContent | src/fetch_sgx_filings/utils/payload_pdf_helper.py:204-228 | the combined blocks and drawings are those of pages start .. min(start + max_pages, count) − 1, page k shifted by the heights of pages start .. k − 1 |
| Checkboxes.SectionHeader | src/fetch_sgx_filings/utils/payload_pdf_helper.py:146-156 | a header found names the circumstance section and starts no more than 50 points above the box |
| Checkboxes.FindSectionHeader | src/fetch_sgx_filings/utils/payload_pdf_helper.py:151-156 | the early-return loop gives the first such block |
| Checkboxes.LastOfKind | src/fetch_sgx_filings/utils/payload_pdf_helper.py:245-254 | a found block is a header of the kind at or below the starting Y |
| Checkboxes.LastOfKindIsLast | src/fetch_sgx_filings/utils/payload_pdf_helper.py:245-254 | no header of the kind comes after the one kept, and None means there is none |
| Checkboxes.KindsDisjoint | src/fetch_sgx_filings/utils/payload_pdf_helper.py:247-254 | the elif chain gives each block at most one kind, so two kinds never keep the same block |
| Checkboxes.LastOfKindStep | src/fetch_sgx_filings/utils/payload_pdf_helper.py:246-254 | one more block replaces the kept header of its kind exactly when it is a header of that kind at or below the start |
| Checkboxes.SubsectionsStep | src/fetch_sgx_filings/utils/payload_pdf_helper.py:245-254 | one loop step updates only the variable of the block's kind |
| Checkboxes.FindSubsectionBlocks | src/fetch_sgx_filings/utils/payload_pdf_helper.py:235-256 | the loop keeps, for each of the four kinds, the last matching block at or below the start |
| Checkboxes.CalculateSectionRanges | src/fetch_sgx_filings/utils/payload_pdf_helper.py:263-295 | every present band start has an end; without an acquisition header the result is ((0,0), (None,None), (None,None), (None,None)); otherwise a band starts exactly when its header exists |
| Checkboxes.BandsTile | src/fetch_sgx_filings/utils/payload_pdf_helper.py:269-289 | with all four headers in reading order the bands follow each other without overlap and each ends at the next header's top |
| Checkboxes.Flags | src/fetch_sgx_filings/utils/payload_pdf_helper.py:340-343 | each option state becomes a result entry under the same key, in order |
| Checkboxes.ResultsFor | src/fetch_sgx_filings/utils/payload_pdf_helper.py:332-368 | acquisition has one entry per option in table order; disposal is empty or one per option; other circumstances is empty or one per option plus the corporate-action entry; others-specify is (False, None) unless its band start is truthy |
| Checkboxes.BuildResults | src/fetch_sgx_filings/utils/payload_pdf_helper.py:332-368 | the method builds exactly those results |
| Checkboxes.CircumstanceFrom | src/fetch_sgx_filings/utils/payload_pdf_helper.py:304-377 | a hit is reported with a 1-based page after the starting index and at most the stop, and its acquisition entries cover every option |
| Checkboxes.CircumstancePage | src/fetch_sgx_filings/utils/payload_pdf_helper.py:305-375 | one page: the header found with the flipped box, then the stitched pages below it; no header or no acquisition header gives nothing |
| Checkboxes.ExtractCircumstanceInterestCheckbox | src/fetch_sgx_filings/utils/payload_pdf_helper.py:298-381 | the first of the section's page and the two after it that yields results, with its 1-based page number |
| Checkboxes.FallbackFrom | src/fetch_sgx_filings/utils/payload_pdf_helper.py:389-462 | a hit's 1-based page lies after the starting index and within the document |
| Checkboxes.ExtractCheckboxFallback | src/fetch_sgx_filings/utils/payload_pdf_helper.py:384-466 | from the third page on, the first page with a block matching the section pattern gives that page's results |
| Checkboxes.TypeStates | src/fetch_sgx_filings/utils/payload_pdf_helper.py:504-530 | at most one entry per option, each under some option's key; an option whose label is missing has no entry |
| Checkboxes.TypeAttempt | src/fetch_sgx_filings/utils/payload_pdf_helper.py:485-536 | a page counts only when it has at least one type-of-securities entry |
| Checkboxes.TypeSecuritiesFrom | src/fetch_sgx_filings/utils/payload_pdf_helper.py:474-542 | a hit's 1-based page lies after the starting index and within the document, and its results are not empty |
| Checkboxes.TypeStatesIn | src/fetch_sgx_filings/utils/payload_pdf_helper.py:501-530 | the option loop gives exactly the entries of the options found in the closed band [y1, y1 + range] |
| Checkboxes.FindTypeState | src/fetch_sgx_filings/utils/payload_pdf_helper.py:505-530 | the block loop with its break gives the option's state or no entry |
| Checkboxes.TypePage | src/fetch_sgx_filings/utils/payload_pdf_helper.py:476-536 | one page of the search gives its non-empty results or nothing |
| Checkboxes.ExtractTypeSecuritiesCheckbox | src/fetch_sgx_filings/utils/payload_pdf_helper.py:469-542 | the first page whose section lists at least one option, with its 1-based page number |
| FilingTypes.SubsectionInterest | sgx_scraper/fetch_sgx_filings/utils/payload_helper.py:320-336 | a subsection yields an interest exactly when one of its entries is checked, and then it names the first checked entry |
| FilingTypes.ScanSubsection | sgx_scraper/fetch_sgx_filings/utils/payload_helper.py:320-336 | the loop over one subsection's entries returns the first checked entry, as the reference scan does |
| FilingTypes.GetCircumstanceInterest | sgx_scraper/fetch_sgx_filings/utils/payload_helper.py:307-340 | the loop over the four sections in dict order returns the first checked box, as the reference function does |
| FilingTypes.NoInterestIff | sgx_scraper/fetch_sgx_filings/utils/payload_helper.py:307-340 | no interest is found exactly when no entry of any subsection and not the others-specify box is checked |
| FilingTypes.AcquisitionFirst | sgx_scraper/fetch_sgx_filings/utils/payload_helper.py:309-330 | a checked acquisition box wins over every later section |
| FilingTypes.InterestNamesCheckedBox | sgx_scraper/fetch_sgx_filings/utils/payload_helper.py:310-336 | the interest found names a box that is checked: others-specify with its description, or a subsection entry with its key and no description |
| FilingTypes.FirstKeywordKey | sgx_scraper/fetch_sgx_filings/utils/payload_helper.py:351-355 | the `next(...)` over the keyword table: the first entry one of whose keywords occurs, or none when no keyword occurs |
| FilingTypes.TransactionTypeFromDesc | sgx_scraper/fetch_sgx_filings/utils/payload_helper.py:343-368 | no description gives none; any result is award, buy, transfer or sell; transfer only when no value is known |
| FilingTypes.AwardTakesPrecedence | sgx_scraper/fetch_sgx_filings/utils/payload_helper.py:351-355 | a description mentioning an award is an award whatever else it says |
| FilingTypes.BuyBeforeTransfer | sgx_scraper/fetch_sgx_filings/utils/payload_helper.py:351-355 | without award keywords, a description mentioning an acquisition is a buy |
| FilingTypes.TransferNeedsNoValue | sgx_scraper/fetch_sgx_filings/utils/payload_helper.py:357-364 | a transfer description is a transfer when no value is known and yields none otherwise |
| FilingTypes.BuildTransactionType | sgx_scraper/fetch_sgx_filings/utils/payload_helper.py:371-414 | no checkbox result gives none, and an empty detail list (an IndexError) gives none |
| FilingTypes.TransactionTypeRange | sgx_scraper/fetch_sgx_filings/utils/payload_helper.py:391-410 | any transaction type built is one of buy, sell, others, award, transfer |
| FilingTypes.TypeOfInterestRange | sgx_scraper/fetch_sgx_filings/utils/payload_helper.py:396-408 | the type mapped from any interest is one of buy, sell, others, award, transfer |
| FilingTypes.TypeOfInterest | sgx_scraper/fetch_sgx_filings/utils/payload_helper.py:396-408 | others-specify is classified from its description; acquisition is buy, or others for management securities; disposal is sell; other circumstances take the rule of their stripped lower-cased label |
| FilingTypes.AcquisitionIsBuy | sgx_scraper/fetch_sgx_filings/utils/payload_helper.py:400-403 | a checked acquisition box makes the filing a buy, or others for management securities |
| FilingTypes.TakeOverClassifiesToNone | sgx_scraper/fetch_sgx_filings/utils/payload_helper.py:406-408 | the take-over and "other" circumstance labels have no rule and give no type |
| FilingTypes.Summary | sgx_scraper/fetch_sgx_filings/utils/payload_helper.py:540-577 | the netted value is never negative; with buys or sells the type follows the sign of buy value minus sell value and the price is not negative, otherwise the type is others |
| FilingTypes.Price3 | sgx_scraper/fetch_sgx_filings/utils/payload_helper.py:561-574 | `round(p, 3)` lies within half a thousandth of p |
| FilingTypes.ComputeTransactionsSpec | sgx_scraper/fetch_sgx_filings/utils/payload_helper.py:506-508 | the result is the empty dict exactly when there are no rows |
| FilingTypes.ComputeTransactions | sgx_scraper/fetch_sgx_filings/utils/payload_helper.py:506-577 | the loop over the rows accumulates the six totals and the buy/sell flag and nets them, as the reference totals do |
| FilingTypes.TotalsStep | sgx_scraper/fetch_sgx_filings/utils/payload_helper.py:521-538 | the totals of one more row are the old totals with that row added |
| FilingTypes.TotalsOf | sgx_scraper/fetch_sgx_filings/utils/payload_helper.py:521-538 | the buy, sell and other totals of the rows, added left to right |
| FilingTypes.TotalsAppend | sgx_scraper/fetch_sgx_filings/utils/payload_helper.py:521-538 | the totals of two lists joined are the sum of their totals |
| FilingTypes.CombineAddRow | sgx_scraper/fetch_sgx_filings/utils/payload_helper.py:528-538 | adding a row commutes with summing totals |
| FilingTypes.OrderDoesNotMatter | sgx_scraper/fetch_sgx_filings/utils/payload_helper.py:506-577 | the netted result does not depend on the order of the price rows |
| FilingTypes.OthersIgnoredBesideBuySell | sgx_scraper/fetch_sgx_filings/utils/payload_helper.py:536-564 | once there is a buy or a sell, extra rows of other types do not change the result |
| FilingTypes.SummaryIgnoresOthers | sgx_scraper/fetch_sgx_filings/utils/payload_helper.py:540-564 | with buys or sells the summary reads only the buy and sell totals |
| FilingTypes.OthersOnlyTotals | sgx_scraper/fetch_sgx_filings/utils/payload_helper.py:536-538 | rows of other types leave the buy and sell totals at zero and the flag unset |
| FilingTypes.ClassifyHolderType | sgx_scraper/fetch_sgx_filings/utils/payload_helper.py:611-638 | the type is insider or institution; an empty name is an insider; an institution token makes an institution; an insider has neither a token nor a pattern match |
| FilingTypes.ClassifyClean | sgx_scraper/fetch_sgx_filings/utils/payload_helper.py:627-638 | a cleaned name is an institution exactly when it holds an institution token or matches the institution pattern |
| FilingTypes.ClassifyIgnoresCase | sgx_scraper/fetch_sgx_filings/utils/payload_helper.py:616-617 | lower-casing the name does not change its holder type |
| FilingTypes.NormalizedIgnoresCase | sgx_scraper/fetch_sgx_filings/utils/payload_helper.py:616-617 | the normalised name is the same for the name and its lower-cased form |
| FilingValues.StripReferences | sgx_scraper/fetch_sgx_filings/utils/payload_helper.py:60-69 | the loop over the five reference patterns leaves the text each removal in turn produces |
| FilingValues.AddValues | sgx_scraper/fetch_sgx_filings/utils/payload_helper.py:81-106 | the running total over the parsed tokens, which fails as soon as one token does not parse |
| FilingValues.SafeConvertFloat | sgx_scraper/fetch_sgx_filings/utils/payload_helper.py:46-110 | the step-by-step rewriting of the text and the tiers tried in order give the reference reading of the cell |
| FilingValues.SafeConvertFloatSpec | sgx_scraper/fetch_sgx_filings/utils/payload_helper.py:46-110 | an empty text or a not-available token gives None; otherwise the cleaned text is read by the currency tier, then the sum of the share counts, then the fallback number |
| FilingValues.CurrencyMatchesAtDigit | sgx_scraper/fetch_sgx_filings/utils/payload_helper.py:72-75 | a digit or a comma anywhere in the text lets the currency search succeed |
| FilingValues.NoCurrencyNoDigits | sgx_scraper/fetch_sgx_filings/utils/payload_helper.py:72-75 | when the currency search fails, the text holds no digit and no comma |
| FilingValues.NumberGroupFindsNothing | sgx_scraper/fetch_sgx_filings/utils/payload_helper.py:78-95 | a pattern that starts with the number group finds nothing in a text without digits or commas |
| FilingValues.DropThousandDotsKeepsAbsent | sgx_scraper/fetch_sgx_filings/utils/payload_helper.py:88-90 | dropping the thousand-separator dots adds no digit and no comma |
| FilingValues.LaterTiersNeverAnswer | sgx_scraper/fetch_sgx_filings/utils/payload_helper.py:71-106 | the shares tier, the malformed-number repair and the fallback sum never give a value: the result is the first currency match's number or None |
| FilingValues.NoValueCells | sgx_scraper/fetch_sgx_filings/utils/payload_helper.py:47-57 | an empty cell and an N/A-style cell have no number |
| FilingValues.CommaTokenGivesNone | sgx_scraper/fetch_sgx_filings/utils/payload_helper.py:74-110 | a first token made only of commas fails `float` and gives None |
| FilingValues.CommasRemoveToEmpty | sgx_scraper/fetch_sgx_filings/utils/payload_helper.py:75 | removing the commas of a comma-only token leaves the empty string |
| FilingValues.CueNumber | sgx_scraper/fetch_sgx_filings/utils/payload_helper.py:120-158 | the cues are tried in order: a number exactly when some cue matches, and none when no cue does |
| FilingValues.BuildPricePerShare | sgx_scraper/fetch_sgx_filings/utils/payload_helper.py:113-115 | no raw text or no quantity gives no price |
| FilingValues.TotalOverQuantityFacts | sgx_scraper/fetch_sgx_filings/utils/payload_helper.py:176-181 | the division gives a price exactly when both numbers are non-zero, and then it is the quotient to four places |
| FilingValues.TotalOverQuantity | sgx_scraper/fetch_sgx_filings/utils/payload_helper.py:176-181 | the number divided by the quantity, to four places, when both are non-zero; None otherwise |
| FilingValues.PriceWithoutCue | sgx_scraper/fetch_sgx_filings/utils/payload_helper.py:160-181 | without a cue and without a mention of shares, the cell is read as a total and divided by the quantity |
| FilingValues.Ratio | sgx_scraper/fetch_sgx_filings/utils/payload_helper.py:180 | `round(v / q, 4)` lies within half a ten-thousandth of the quotient |
| FilingValues.PriceIgnoresQuantityWhenStated | sgx_scraper/fetch_sgx_filings/utils/payload_helper.py:120-174 | a cue or a mention of shares makes the cell a per-share price that does not depend on the quantity |
| FilingValues.PriceIsTotalOverQuantity | sgx_scraper/fetch_sgx_filings/utils/payload_helper.py:176-181 | without a cue, a non-zero number and a non-zero quantity give the total over the quantity to four places |
| FilingValues.NoPriceWithoutBoth | sgx_scraper/fetch_sgx_filings/utils/payload_helper.py:176-181 | without a cue, a zero quantity or a zero or missing number gives no price |
| FilingValues.SafeRound | sgx_scraper/fetch_sgx_filings/utils/payload_helper.py:188-196 | None stays None and a number is rounded to within half a ten-thousandth |
| FilingValues.Scaled | sgx_scraper/fetch_sgx_filings/utils/payload_helper.py:275-296 | the product exists exactly when both the quantity and the number do (a TypeError otherwise) |
| FilingValues.BuildValue | sgx_scraper/fetch_sgx_filings/utils/payload_helper.py:213-220 | no raw text gives no value |
| FilingValues.RouteValue | sgx_scraper/fetch_sgx_filings/utils/payload_helper.py:262-296 | without "us" or "hk" in the text, the quantity times the number when the text is a per-share rate and the rounded number otherwise; "us" and "hk" convert through the latest rate first |
| FilingValues.ValueMultipliesRate | sgx_scraper/fetch_sgx_filings/utils/payload_helper.py:262-296 | without an FX cue a per-share rate gives quantity times rate to four places, and none without a quantity or a number |
| FilingValues.ValueIgnoresQuantity | sgx_scraper/fetch_sgx_filings/utils/payload_helper.py:262-300 | an amount that is not a rate does not depend on the quantity, and without an FX cue it is the cell's number rounded |
| FilingValues.ClarificationStopsMultiplying | sgx_scraper/fetch_sgx_filings/utils/payload_helper.py:254-267 | a per-share rate stated beside the amount always stops the multiplication |
| FilingValues.ThousandHasUs | sgx_scraper/fetch_sgx_filings/utils/payload_helper.py:269 | a text containing "thousand" contains "us" |
| FilingValues.ThousandTakesUsdPath | sgx_scraper/fetch_sgx_filings/utils/payload_helper.py:269-278 | a text containing "thousand" is converted from USD, the currency routing being a bare substring test |
| FilingRecords.ConvertFloat | sgx_scraper/fetch_sgx_filings/parser_sgx_filings.py:281-285 | a missing text converts to no number |
| FilingRecords.TotalCell | sgx_scraper/fetch_sgx_filings/parser_sgx_filings.py:241-251 | a row contributes at most its one "Total" cell |
| FilingRecords.ParseShareTableValues | sgx_scraper/fetch_sgx_filings/parser_sgx_filings.py:228-272 | the loop over the merged table keeps cell 3 of each value row with at least four cells, and no table gives None |
| FilingRecords.TotalCellsClosedForm | sgx_scraper/fetch_sgx_filings/parser_sgx_filings.py:238-251 | only rows 1, 2, 4 and 5 contribute, in that order |
| FilingRecords.ShortRowShifts | sgx_scraper/fetch_sgx_filings/parser_sgx_filings.py:246-260 | a short row 2 shifts the later totals forward: the before-percentage reads row 4, the after count row 5, and the after-percentage is None |
| FilingRecords.CompleteRowsRead | sgx_scraper/fetch_sgx_filings/parser_sgx_filings.py:238-260 | with the four value rows complete, the four totals are their cell 3 in order |
| FilingRecords.HoldingsOf | sgx_scraper/fetch_sgx_filings/parser_sgx_filings.py:275-292 | unpacking a missing table raises; otherwise the shares before and after are the converted cells |
| FilingRecords.ReadText | sgx_scraper/fetch_sgx_filings/parser_sgx_filings.py:295-313 | a known date is kept; the number is the converted raw number and the value is built from the raw value and that number (also lines 537-546) |
| FilingRecords.PageIndex | sgx_scraper/fetch_sgx_filings/parser_sgx_filings.py:553-562 | Python page indexing: an index exists exactly within minus the length up to the length, a negative one counting from the end |
| FilingRecords.RunCascade | sgx_scraper/fetch_sgx_filings/parser_sgx_filings.py:550-565 | one fallback loop over page indices, stopping at the first page that yields a value or a number, as the reference cascade does |
| FilingRecords.Cascade | sgx_scraper/fetch_sgx_filings/parser_sgx_filings.py:550-565 | the page readings in the given order, stopping at the first that finds a truthy value or number; a page outside the document raises (None) and a known date is carried along |
| FilingRecords.CascadeFailsOnMissingPage | sgx_scraper/fetch_sgx_filings/parser_sgx_filings.py:550-565 | the cascade fails only on a missing page, and always answers when every page exists (also lines 593-595) |
| FilingRecords.CascadeKeepsDate | sgx_scraper/fetch_sgx_filings/parser_sgx_filings.py:301-303 | a transaction date already known survives the cascade |
| FilingRecords.FoundNeedsNoPages | sgx_scraper/fetch_sgx_filings/parser_sgx_filings.py:550-559 | a reading that already found a value or a number is final and consults no page |
| FilingRecords.PreviousOfFirstPageIsLast | sgx_scraper/fetch_sgx_filings/parser_sgx_filings.py:560 | on the first page the previous-page fallback reads the last two pages of the document |
| FilingRecords.ForwardPastEndFails | sgx_scraper/fetch_sgx_filings/parser_sgx_filings.py:551-553 | on the last page the forward loop raises unless that page itself finds something (also lines 593-595) |
| FilingRecords.RoundedProduct | sgx_scraper/fetch_sgx_filings/parser_sgx_filings.py:410-411 | `round(a * b, 2)` is within half a cent of the product (also lines 489-490) |
| FilingRecords.Tranche | sgx_scraper/fetch_sgx_filings/parser_sgx_filings.py:405-416 | a match gives a tranche exactly when both its numbers convert; the tranche keeps the base date and count and takes the price and the rounded product |
| FilingRecords.TranchesFacts | sgx_scraper/fetch_sgx_filings/parser_sgx_filings.py:404-422 | one tranche per match in match order, failing exactly when some match does not convert |
| FilingRecords.Tranches | sgx_scraper/fetch_sgx_filings/parser_sgx_filings.py:404-422 | one tranche per price match, in match order; the first match whose numbers do not convert raises (None) |
| FilingRecords.SpecialCaseValueFacts | sgx_scraper/fetch_sgx_filings/parser_sgx_filings.py:373-429 | the value is split exactly when there are two or more matches that all convert; a split never yields one record; no split gives the base record alone or, on an error, nothing |
| FilingRecords.BuildSpecialCaseValue | sgx_scraper/fetch_sgx_filings/parser_sgx_filings.py:373-429 | the loop over the matches gives the reference split and flag |
| FilingRecords.ByDate | sgx_scraper/fetch_sgx_filings/parser_sgx_filings.py:473-482 | each match becomes its stripped date and its converted number |
| FilingRecords.DatedTranche | sgx_scraper/fetch_sgx_filings/parser_sgx_filings.py:485-500 | a date gives a detail exactly when both dicts hold a number for it, with the converted date, that count and that price |
| FilingRecords.Paired | sgx_scraper/fetch_sgx_filings/parser_sgx_filings.py:485-486 | a date is paired exactly when it is a number date that the price dict also has |
| FilingRecords.DatedRecordsFacts | sgx_scraper/fetch_sgx_filings/parser_sgx_filings.py:484-506 | one detail per paired date in key order, failing exactly when a paired date lacks a number or a price |
| FilingRecords.DatedRecords | sgx_scraper/fetch_sgx_filings/parser_sgx_filings.py:484-506 | one detail per number date that the price dict also has, in key order; a date without a price is skipped and a missing number or price raises (None) |
| FilingRecords.MultipleDatesFacts | sgx_scraper/fetch_sgx_filings/parser_sgx_filings.py:469-513 | the dates are the quantity dates in first-seen order with the last number kept; only dates with a price are kept; the flag is set exactly when none fails |
| FilingRecords.MultipleDatesGuard | sgx_scraper/fetch_sgx_filings/parser_sgx_filings.py:437-438 | the split is tried exactly when both texts are non-empty and each has at least two matches (also lines 469, 508-509) |
| FilingRecords.BuildByDate | sgx_scraper/fetch_sgx_filings/parser_sgx_filings.py:472-482 | the dict built in match order equals the reference dict of the pairs, later duplicates overwriting |
| FilingRecords.JoinDates | sgx_scraper/fetch_sgx_filings/parser_sgx_filings.py:484-503 | the loop over the number dates gives the reference joined details |
| FilingRecords.PairedIndex | sgx_scraper/fetch_sgx_filings/parser_sgx_filings.py:485-486 | a number date that the price dict has is among the paired dates |
| FilingRecords.BuildMultipleDates | sgx_scraper/fetch_sgx_filings/parser_sgx_filings.py:432-513 | the whole multiple-dates split equals the reference split and flag |
| FilingRecords.BaseOf | sgx_scraper/fetch_sgx_filings/parser_sgx_filings.py:567-575 | the base detail carries the date, number and value after the cascade |
| FilingRecords.ExtractTransactionDetails | sgx_scraper/fetch_sgx_filings/parser_sgx_filings.py:516-595 | reading, cascade, price and the two special cases in order give the reference details |
| FilingRecords.TransactionDetailsSpec | sgx_scraper/fetch_sgx_filings/parser_sgx_filings.py:516-595 | an empty section text or a failed cascade gives None; otherwise the price split when it gives more than one detail, else the date split when it does, else the base detail with the date split's flag |
| FilingRecords.DetailsShape | sgx_scraper/fetch_sgx_filings/parser_sgx_filings.py:577-591 | a section that reads yields at least one detail, and exactly one unless a split happened |
| FilingRecords.FoundInSectionIgnoresPages | sgx_scraper/fetch_sgx_filings/parser_sgx_filings.py:549-565 | when the section text itself yields a value or a number, no page is read and nothing fails |
| FilingRecords.FlaggedBaseWithoutPairs | sgx_scraper/fetch_sgx_filings/parser_sgx_filings.py:505-506 | a dated split that pairs no date still sets the flag, so the lone base detail comes back flagged special (also lines 588-591) |
| FilingRecords.MakeRecord | sgx_scraper/fetch_sgx_filings/parser_sgx_filings.py:640-646 | the record takes name and type (falsy ones as None), the detail fields, then the holdings |
| FilingRecords.SectionRecords | sgx_scraper/fetch_sgx_filings/parser_sgx_filings.py:640-648 | one record per detail, in order |
| FilingRecords.SharePairs | sgx_scraper/fetch_sgx_filings/parser_sgx_filings.py:658-664 | every record's (before, after) pair is in the set |
| FilingRecords.KeepRecords | sgx_scraper/fetch_sgx_filings/parser_sgx_filings.py:650-670 | records that are kept are returned unchanged |
| FilingRecords.OnePairIffSame | sgx_scraper/fetch_sgx_filings/parser_sgx_filings.py:666 | one distinct pair means every record has the first record's shares before and after |
| FilingRecords.KeepRecordsFacts | sgx_scraper/fetch_sgx_filings/parser_sgx_filings.py:650-668 | records are dropped exactly when not special and either one record or all records show the same shares before and after |
| FilingRecords.JoinSections | sgx_scraper/fetch_sgx_filings/parser_sgx_filings.py:609-648 | the records of the sections in order, one per detail, with the last section's flag; a section without a share table or with unreadable details ends the join (None) |
| FilingRecords.ExtractRecordsSpec | sgx_scraper/fetch_sgx_filings/parser_sgx_filings.py:598-677 | no section leaves the flag unbound (None); otherwise the join, then the no-change filter |
| FilingRecords.JoinSectionsNonEmpty | sgx_scraper/fetch_sgx_filings/parser_sgx_filings.py:609-648 | every section that joins contributes at least one record |
| FilingRecords.MissingTableFails | sgx_scraper/fetch_sgx_filings/parser_sgx_filings.py:610-617 | a section without a share table makes the whole filing fail (also lines 675-677) |
| FilingRecords.JoinSection | sgx_scraper/fetch_sgx_filings/parser_sgx_filings.py:610-648 | a section fails exactly when its holdings or its details fail, and otherwise gives one record per detail and the details' flag |
| FilingRecords.SeenShares | sgx_scraper/fetch_sgx_filings/parser_sgx_filings.py:658-664 | the loop fills the set of distinct (before, after) pairs |
| FilingRecords.ExtractRecords | sgx_scraper/fetch_sgx_filings/parser_sgx_filings.py:598-677 | the loop over the sections and the no-change filter give the reference records |
| FilingRecords.JoinSectionsFails | sgx_scraper/fetch_sgx_filings/parser_sgx_filings.py:609-648 | once a prefix of the sections fails, the whole join does (also lines 675-677) |
| FilingRecords.JoinSectionsAsWritten | sgx_scraper/fetch_sgx_filings/parser_sgx_filings.py:609-648 | the join as written, where the one-argument call at line 638 raises a TypeError: any result it gives holds no records |
| FilingRecords.ExtractRecordsAsWritten | sgx_scraper/fetch_sgx_filings/parser_sgx_filings.py:598-677 | `extract_records` as written: the join as written, an unbound `is_special_value` at line 650 raising as well, then the no-change filter; every error gives None |
| FilingRecords.ExtractRecordsAsWrittenNeverYields | sgx_scraper/fetch_sgx_filings/parser_sgx_filings.py:638-650 | as written, the join gives a result exactly for an empty list of sections, and `extract_records` always gives None |
| FilingRecords.AsWrittenLosesEveryJoin | sgx_scraper/fetch_sgx_filings/parser_sgx_filings.py:609-648 | whenever the two-argument join yields records, the join as written raises instead |
| FilingRecords.DocumentPatch | sgx_scraper/fetch_sgx_filings/parser_sgx_filings.py:317-347 | the fallback type and the number, value and price read from the whole document |
| FilingRecords.Patched | sgx_scraper/fetch_sgx_filings/parser_sgx_filings.py:325-347 | an incomplete record takes the patch's four fields; a complete one is unchanged; name, date and holdings never change |
| FilingRecords.FallbackSpec | sgx_scraper/fetch_sgx_filings/parser_sgx_filings.py:325-347 | each record is patched independently, the length kept |
| FilingRecords.ApplyFallback | sgx_scraper/fetch_sgx_filings/parser_sgx_filings.py:316-349 | the records are patched in place, one at a time |
| FilingRecords.FallbackIdempotent | sgx_scraper/fetch_sgx_filings/parser_sgx_filings.py:316-349 | a second fallback with the same document changes nothing |
| FilingRecords.FallbackCompletes | sgx_scraper/fetch_sgx_filings/parser_sgx_filings.py:330-347 | every record comes out complete exactly when each was complete already or the patch is complete |
| FilingRecords.VotingGate | sgx_scraper/fetch_sgx_filings/parser_sgx_filings.py:683-688 | a missing checkbox result raises; the gate passes exactly when the voting-shares box is checked |
| FilingRecords.ExtractAllFields | sgx_scraper/fetch_sgx_filings/parser_sgx_filings.py:680-701 | the gate, the record extraction and the fallback in order give the reference result |
| FilingRecords.ExtractAllFieldsSpec | sgx_scraper/fetch_sgx_filings/parser_sgx_filings.py:680-701 | None unless the voting-shares box is checked; then the records, with the document-level fallback applied when there are any |
| FilingRecords.GateDecides | sgx_scraper/fetch_sgx_filings/parser_sgx_filings.py:683-697 | only filings whose voting-shares box is checked yield records, one per extracted record; with the box checked and records extracted there is always a result |
| FilingRecords.ExtractAllFieldsAsWritten | sgx_scraper/fetch_sgx_filings/parser_sgx_filings.py:680-701 | `extract_all_fields` as written: a result only past the voting-shares gate, and then the records as written |
| FilingRecords.ExtractAllFieldsAsWrittenNone | sgx_scraper/fetch_sgx_filings/parser_sgx_filings.py:680-701 | as written, `extract_all_fields` gives None for every document |
| PdfText.ReadLine | sgx_scraper/fetch_sgx_filings/parser_sgx_filings.py:79-81 | the loop over a line's spans gives their concatenation |
| PdfText.GroupedIsTextsAt | sgx_scraper/fetch_sgx_filings/parser_sgx_filings.py:73-86 | a rounded top is a key of the grouping exactly when some non-blank line sits there, and its group is those lines' stripped texts in reading order |
| PdfText.TopsAreKeys | sgx_scraper/fetch_sgx_filings/parser_sgx_filings.py:84-86 | the keys in insertion order are distinct and are exactly the grouping's keys |
| PdfText.InsertSorted | sgx_scraper/fetch_sgx_filings/parser_sgx_filings.py:90 | insertion keeps exactly the old elements and the new one |
| PdfText.InsertSortedAscending | sgx_scraper/fetch_sgx_filings/parser_sgx_filings.py:90 | inserting a new element into an ascending list keeps it ascending |
| PdfText.SortInts | sgx_scraper/fetch_sgx_filings/parser_sgx_filings.py:90 | sorting keeps exactly the elements of the input |
| PdfText.SortIntsAscending | sgx_scraper/fetch_sgx_filings/parser_sgx_filings.py:90 | sorting distinct keys gives an ascending list |
| PdfText.SortedTops | sgx_scraper/fetch_sgx_filings/parser_sgx_filings.py:88-91 | the rows are read in ascending order of top, each a key of the grouping |
| PdfText.PageTextByRows | sgx_scraper/fetch_sgx_filings/parser_sgx_filings.py:88-93 | a page's text is its rows, in ascending order of top, each the space-joined texts at that top, joined by newlines and ending in one |
| PdfText.AllLinesStep | sgx_scraper/fetch_sgx_filings/parser_sgx_filings.py:73-75 | a text block adds its lines and an image block adds none |
| PdfText.GroupedStep | sgx_scraper/fetch_sgx_filings/parser_sgx_filings.py:83-86 | one more line updates the grouping and adds its top as a new key only if it is new and the line is not blank |
| PdfText.AddLine | sgx_scraper/fetch_sgx_filings/parser_sgx_filings.py:77-86 | adding one line to the accumulated dict and key list gives the reference grouping of the lines so far |
| PdfText.AddLines | sgx_scraper/fetch_sgx_filings/parser_sgx_filings.py:75-86 | adding a block's lines gives the reference grouping of the lines so far |
| PdfText.GroupPage | sgx_scraper/fetch_sgx_filings/parser_sgx_filings.py:71-86 | the loops over blocks and lines build the reference grouping of the page |
| PdfText.ReadPage | sgx_scraper/fetch_sgx_filings/parser_sgx_filings.py:66-93 | the page's text is the reference page text |
| PdfText.JoinGroups | sgx_scraper/fetch_sgx_filings/parser_sgx_filings.py:89-91 | the loop over the sorted tops gives the space-joined groups in order |
| PdfText.PageAt | sgx_scraper/fetch_sgx_filings/parser_sgx_filings.py:66 | Python page indexing, negative indices counting from the end |
| PdfText.ParsePdf | sgx_scraper/fetch_sgx_filings/parser_sgx_filings.py:58-99 | the loop over the page range concatenates each readable page's text, as the reference does |
| PdfText.ParsePdfSpec | sgx_scraper/fetch_sgx_filings/parser_sgx_filings.py:58-99 | the text of the pages from the start page up to the end page, the page count when none is given |
| PdfText.PagesText | sgx_scraper/fetch_sgx_filings/parser_sgx_filings.py:64-99 | each readable page's text in page order, over the range lo up to hi exclusive |
| PdfText.PagesTextShape | sgx_scraper/fetch_sgx_filings/parser_sgx_filings.py:64-99 | the text is empty or ends with a newline, and it is empty exactly when no page in the range can be read |
| PdfText.PagesTextSplit | sgx_scraper/fetch_sgx_filings/parser_sgx_filings.py:64-93 | reading a range is reading its two halves one after the other |
| PdfText.FailedPageSkipped | sgx_scraper/fetch_sgx_filings/parser_sgx_filings.py:95-97 | a page that fails to parse contributes nothing and the loop continues |
| ShareTables.CellTexts | src/fetch_sgx_filings/utils/payload_pdf_helper.py:587 | the kept cells are non-empty texts of the row, no more of them than the row has |
| ShareTables.RowTexts | src/fetch_sgx_filings/utils/payload_pdf_helper.py:586-589 | one text per row, in order |
| ShareTables.ShareRuleClosedForm | src/fetch_sgx_filings/utils/payload_pdf_helper.py:585-617 | a table holds the share rule exactly when it mentions voting shares, or it mentions no rights line and holds both the immediately before/after and the direct and deemed interest phrases |
| ShareTables.ContainsShareRule | src/fetch_sgx_filings/utils/payload_pdf_helper.py:585-617 | the share rule applied to the table's cleaned text |
| ShareTables.RightsTableRejected | src/fetch_sgx_filings/utils/payload_pdf_helper.py:593-596 | a rights/options/warrants table that does not mention voting shares is rejected |
| ShareTables.MergeTables | src/fetch_sgx_filings/utils/payload_pdf_helper.py:620-653 | the loop over the matched tables gives the reference merge |
| ShareTables.MergeFromKeepsPrefix | src/fetch_sgx_filings/utils/payload_pdf_helper.py:624-651 | merging only appends: the first table is a prefix of the result |
| ShareTables.MergeFromNonEmpty | src/fetch_sgx_filings/utils/payload_pdf_helper.py:635-651 | a merge that starts from a non-empty table always succeeds |
| ShareTables.MergeFromRowsFromItems | src/fetch_sgx_filings/utils/payload_pdf_helper.py:646-651 | every merged row comes from one of the tables |
| ShareTables.MergeFromDistantPages | src/fetch_sgx_filings/utils/payload_pdf_helper.py:635 | tables more than one page apart are never merged |
| ShareTables.MergeProperties | src/fetch_sgx_filings/utils/payload_pdf_helper.py:620-653 | the merge starts with the first table, its rows all come from the tables, and without consecutive pages it is the first table alone |
| ShareTables.Tagged | src/fetch_sgx_filings/utils/payload_pdf_helper.py:558-566 | each table is tagged with its page, in order |
| ShareTables.NextStop | src/fetch_sgx_filings/utils/payload_pdf_helper.py:562 | the look-ahead stops at the end of the document and at most three pages on |
| ShareTables.Matching | src/fetch_sgx_filings/utils/payload_pdf_helper.py:568-572 | the matching tables are non-empty tables of the input that hold the share rule |
| ShareTables.GatherTables | src/fetch_sgx_filings/utils/payload_pdf_helper.py:551-566 | the loops over the cropped page and the next three pages collect the reference list of tables |
| ShareTables.FilterMatching | src/fetch_sgx_filings/utils/payload_pdf_helper.py:568-572 | the loop keeps the reference matching tables |
| ShareTables.ExtractShareTables | src/fetch_sgx_filings/utils/payload_pdf_helper.py:545-582 | gathering, filtering and merging give the reference result |
| ShareTables.ShareTablesSpec | src/fetch_sgx_filings/utils/payload_pdf_helper.py:545-582 | a page past the end or no matching table gives None; otherwise the matching tables merged |
| ShareTables.ShareTablesProperties | src/fetch_sgx_filings/utils/payload_pdf_helper.py:545-582 | a result starts with the first matching table, which holds the share rule, and there is a result whenever the page exists and some table matches |
| Shareholders.CleanName | src/fetch_sgx_filings/utils/payload_pdf_helper.py:662-666 | a cleaned name never ends with a dot |
| Shareholders.NameFrom | src/fetch_sgx_filings/utils/payload_pdf_helper.py:659-672 | a name found is acceptable and does not end with a dot |
| Shareholders.GetShareholderName | src/fetch_sgx_filings/utils/payload_pdf_helper.py:656-672 | the loop over the patterns gives the reference name |
| Shareholders.NameFoundIff | src/fetch_sgx_filings/utils/payload_pdf_helper.py:659-670 | a name is found exactly when some pattern gives an acceptable candidate |
| Shareholders.NameIsFirstAccepted | src/fetch_sgx_filings/utils/payload_pdf_helper.py:659-670 | the name found is the candidate of the first accepting pattern |
| Shareholders.FirstNamedIsFirst | src/fetch_sgx_filings/utils/payload_pdf_helper.py:695-729 | the pages are tried in order: a name is found exactly when some page in the order gives one, and it is the first such page's |
| Shareholders.NearOrder | src/fetch_sgx_filings/utils/payload_pdf_helper.py:702-705 | the near fallback visits only earlier pages |
| Shareholders.EarlierOrder | src/fetch_sgx_filings/utils/payload_pdf_helper.py:718 | the far fallback visits the earlier pages from the previous one down to page 1 |
| Shareholders.VisitOrder | src/fetch_sgx_filings/utils/payload_pdf_helper.py:695-729 | no page after the section's own page is read |
| Shareholders.NameFromPages | src/fetch_sgx_filings/utils/payload_pdf_helper.py:700-729 | the loop over the visiting order gives the reference first name |
| Shareholders.ExtractShareholderNameWith | src/fetch_sgx_filings/utils/payload_pdf_helper.py:675-734 | the section's page, then the two previous pages, then all earlier pages, as the reference does |
| Shareholders.ExtractShareholderName | src/fetch_sgx_filings/utils/payload_pdf_helper.py:675-734 | the same with the three standard name patterns (also lines 687-691) |
| Shareholders.ShareholderNameSpec | src/fetch_sgx_filings/utils/payload_pdf_helper.py:675-734 | the name lookup with the three standard name patterns |
| Shareholders.FirstNamedAppend | src/fetch_sgx_filings/utils/payload_pdf_helper.py:700-729 | searching two orders one after the other gives the first's name if it has one, else the second's |
| Shareholders.ShareholderNameProperties | src/fetch_sgx_filings/utils/payload_pdf_helper.py:694-730 | a name on the section's own page wins; any name found comes from that page or an earlier one; with no name on pages 1 to p none is found |
| Shareholders.UnassignedNameGivesNone | src/fetch_sgx_filings/utils/payload_pdf_helper.py:694-734 | without text on the section's page, `name` is unbound when the fallback reads it, and the exception gives None |
| Shareholders.Insert | src/fetch_sgx_filings/utils/payload_pdf_helper.py:768-769 | insertion keeps the anchors sorted by (page, top) and adds exactly one anchor |
| Shareholders.SortAnchors | src/fetch_sgx_filings/utils/payload_pdf_helper.py:768-769 | the anchors come out sorted by (page, top) and are a permutation of the input |
| Shareholders.AnchorsAt | src/fetch_sgx_filings/utils/payload_pdf_helper.py:755-756 | one anchor per search hit, with the anchor text, page and hit top |
| Shareholders.TransactionAt | src/fetch_sgx_filings/utils/payload_pdf_helper.py:763-765 | a transaction heading gives at most one anchor, on its page |
| Shareholders.PrimaryFromOnPage | src/fetch_sgx_filings/utils/payload_pdf_helper.py:753-756 | every primary anchor found on a page is on that page |
| Shareholders.TransactionsInOnPage | src/fetch_sgx_filings/utils/payload_pdf_helper.py:761-765 | every transaction anchor found on a page is on that page |
| Shareholders.PrimaryOnPages | src/fetch_sgx_filings/utils/payload_pdf_helper.py:751-756 | every primary anchor found lies on an existing page |
| Shareholders.TransactionsOnPages | src/fetch_sgx_filings/utils/payload_pdf_helper.py:751-765 | every transaction anchor found lies on an existing page |
| Shareholders.PageTransactionsOnPage | src/fetch_sgx_filings/utils/payload_pdf_helper.py:759-765 | a page's transaction anchors are on that page |
| Shareholders.SelectAnchors | src/fetch_sgx_filings/utils/payload_pdf_helper.py:771-780 | the anchors chosen are the primary ones or the transaction ones, the latter only when there are at least two |
| Shareholders.SectionsOf | src/fetch_sgx_filings/utils/payload_pdf_helper.py:787-800 | one section per anchor: full page width, from the anchor's top to the next anchor's top on the same page or the page bottom |
| Shareholders.BuildSections | src/fetch_sgx_filings/utils/payload_pdf_helper.py:783-802 | the loop over the anchors gives the reference sections |
| Shareholders.SectionsTile | src/fetch_sgx_filings/utils/payload_pdf_helper.py:793-794 | consecutive sections on one page meet, and sections on one page are in order and do not overlap |
| Shareholders.StepOnSamePage | src/fetch_sgx_filings/utils/payload_pdf_helper.py:790-794 | a section ends no higher than it starts and no lower than the next anchor on its page |
| Shareholders.Heights | src/fetch_sgx_filings/utils/payload_pdf_helper.py:791 | one height per page |
| Shareholders.AnchorsFound | src/fetch_sgx_filings/utils/payload_pdf_helper.py:754-756 | the loop over the search hits gives the reference anchors |
| Shareholders.PrimaryOnPage | src/fetch_sgx_filings/utils/payload_pdf_helper.py:753-756 | the loop over the four primary anchors gives the reference anchors of a page |
| Shareholders.TransactionsOnPage | src/fetch_sgx_filings/utils/payload_pdf_helper.py:759-765 | the loop over the heading matches gives the reference transaction anchors of a page |
| Shareholders.CollectPrimary | src/fetch_sgx_filings/utils/payload_pdf_helper.py:751-756 | the loop over the pages gives all primary anchors, page by page |
| Shareholders.CollectTransactions | src/fetch_sgx_filings/utils/payload_pdf_helper.py:751-765 | the loop over the pages gives all transaction anchors, page by page |
| Shareholders.FindShareholderSections | src/fetch_sgx_filings/utils/payload_pdf_helper.py:737-802 | collecting, sorting, choosing and tiling give the reference sections |
| Shareholders.SectionsSpec | src/fetch_sgx_filings/utils/payload_pdf_helper.py:737-802 | the primary and transaction anchors sorted, the anchors chosen and tiled into sections; no anchors give no sections |
| Shareholders.SectionsProperties | src/fetch_sgx_filings/utils/payload_pdf_helper.py:737-802 | one section per chosen anchor, the chosen anchors sorted by (page, top), each section on its anchor's page and starting at its top |
| ParserHelper.ExtractSymbol | sgx_scraper/utils/sgx_parser_helper.py:10-21 | no text gives none; a symbol has no surrounding blanks and is the stripped last of two or three `" - "` parts |
| ParserHelper.SplitDashFree | sgx_scraper/utils/sgx_parser_helper.py:12 | splitting a join of separator-free parts gives the parts back |
| ParserHelper.SymbolIsLastPart | sgx_scraper/utils/sgx_parser_helper.py:12-16 | for separator-free parts, the symbol is the stripped last part exactly when there are two or three parts and it is not blank |
| ParserHelper.SymbolOfParts | sgx_scraper/utils/sgx_parser_helper.py:12-21 | the symbol is decided by the split alone |
| ParserHelper.ParseWith | sgx_scraper/utils/sgx_parser_helper.py:44 | a date parsed by any format is a valid calendar date |
| Dates.ParseDaySlashMonthSlashYear | sgx_scraper/utils/sgx_parser_helper.py:42 | `%d/%m/%Y`: three slash-separated fields read as day, month and year; a result is always a valid calendar date |
| Dates.ParseDayDashAbbrevDashYear | sgx_scraper/utils/sgx_parser_helper.py:42 | `%d-%b-%Y`: a day, a month abbreviation and a year separated by dashes; a result is always a valid calendar date |
| Dates.ParseDaySpaceAbbrevSpaceYear | sgx_scraper/utils/sgx_parser_helper.py:42 | `%d %b %Y` on the stripped text; a result is always a valid calendar date |
| Dates.ParseDaySpaceMonthSpaceYear | sgx_scraper/utils/sgx_parser_helper.py:42 | `%d %B %Y` on the stripped text; a result is always a valid calendar date |
| Dates.ParseYearDashMonthDashDay | sgx_scraper/utils/cli_helper.py:15 | `%Y-%m-%d`: a result is always a valid calendar date |
| Dates.ParseCompactYearMonthDay | sgx_scraper/utils/cli_helper.py:17 | `%Y%m%d`: a result is always a valid calendar date |
| ParserHelper.Attempts | sgx_scraper/utils/sgx_parser_helper.py:42-44 | one parse attempt per format, in order |
| ParserHelper.FirstSuccess | sgx_scraper/utils/sgx_parser_helper.py:42-47 | the first attempt that succeeded |
| ParserHelper.FirstSuccessIsFirst | sgx_scraper/utils/sgx_parser_helper.py:42-47 | every earlier attempt failed, and there is none exactly when all failed |
| ParserHelper.FirstSuccessAt | sgx_scraper/utils/sgx_parser_helper.py:42-47 | the first success is the attempt after only failures |
| ParserHelper.ConvertWith | sgx_scraper/utils/sgx_parser_helper.py:37-38 | an empty or missing date gives none |
| ParserHelper.ConvertNoneIff | sgx_scraper/utils/sgx_parser_helper.py:41-48 | a non-empty date gives none exactly when every format fails on the stripped text |
| ParserHelper.SafeConvertDatetime | sgx_scraper/utils/sgx_parser_helper.py:36-51 | an empty date gives none (four formats) |
| ParserHelper.SafeConvertDatetimeTwoFormats | src/utils/sgx_parser_helper.py:33-48 | an empty date gives none (two formats) |
| ParserHelper.ConvertAt | sgx_scraper/utils/sgx_parser_helper.py:42-45 | the first format that parses decides the ISO result |
| ParserHelper.ScraperRejects | sgx_scraper/utils/sgx_parser_helper.py:42-51 | a date that none of the four formats reads gives none |
| ParserHelper.SourceRejects | src/utils/sgx_parser_helper.py:39-48 | a date that neither of the two formats reads gives none |
| ParserHelper.FirstFormatReads | sgx_scraper/utils/sgx_parser_helper.py:42-45 | a day/month/year date is formatted as ISO by both versions (also src/utils/sgx_parser_helper.py lines 39-42) |
| ParserHelper.NoSlashRejected | sgx_scraper/utils/sgx_parser_helper.py:42 | the day/month/year format needs a slash |
| ParserHelper.NoDashRejected | sgx_scraper/utils/sgx_parser_helper.py:42 | the day-abbreviation-year format needs a dash |
| ParserHelper.SingleFieldRejected | sgx_scraper/utils/sgx_parser_helper.py:42 | a single word without dashes or blanks fits none of the dash and space formats |
| ParserHelper.SlashDateConverts | sgx_scraper/utils/sgx_parser_helper.py:42-45 | a valid date written as dd/mm/yyyy converts to its ISO text in both versions (also src/utils/sgx_parser_helper.py lines 39-42) |
| ParserHelper.ImpossibleDayRejected | sgx_scraper/utils/sgx_parser_helper.py:42-47 | a day past the end of its month is rejected by both versions (also src/utils/sgx_parser_helper.py lines 39-44) |
| ParserHelper.OutputNotAccepted | sgx_scraper/utils/sgx_parser_helper.py:42-45 | the ISO output is not itself an accepted input, so the conversion is not idempotent (also src/utils/sgx_parser_helper.py lines 39-42) |
| ParserHelper.TwoFormatsNeedSeparators | src/utils/sgx_parser_helper.py:39-44 | the two-format version rejects every text without a slash or a dash |
| ParserHelper.AbbreviationMonth | sgx_scraper/utils/sgx_parser_helper.py:42 | each month abbreviation is read back as its month |
| ParserHelper.AbbreviationsDistinct | sgx_scraper/utils/sgx_parser_helper.py:42 | the twelve month abbreviations are distinct |
| ParserHelper.ThirdFormatReads | sgx_scraper/utils/sgx_parser_helper.py:42-45 | a date that only the day-space-abbreviation-year format reads is formatted as ISO |
| ParserHelper.SpacedDateConverts | sgx_scraper/utils/sgx_parser_helper.py:42-45 | a valid one-digit-day date written as "d Mon yyyy" converts to its ISO text in the four-format version |
| BuybackHelpers.ExtractValue | sgx_scraper/fetch_sgx_buyback/utils/payload_helper.py:45-58 | a value exactly for a non-empty text (itself) or a non-empty list (its first element) (also src/fetch_sgx_buyback/utils/payload_helper.py lines 25-38; src/fetch_sgx_buyback/utils/payload_standardize_helper.py lines 48-61) |
| BuybackHelpers.SectionValue | sgx_scraper/fetch_sgx_buyback/utils/payload_helper.py:63-64 | a broken section yields nothing |
| BuybackHelpers.ExtractFallback | sgx_scraper/fetch_sgx_buyback/utils/payload_helper.py:61-78 | a non-empty value from section A when it has one, else from section B, else none (also src/fetch_sgx_buyback/utils/payload_helper.py lines 41-58) |
| BuybackHelpers.FallbackSurvivesBrokenSection | sgx_scraper/fetch_sgx_buyback/utils/payload_helper.py:62-76 | a broken section is skipped: the other section's value is used, whichever side is broken |
| BuybackHelpers.RunStart | sgx_scraper/fetch_sgx_buyback/utils/payload_helper.py:13 | the first number character at or after a position, with none before it |
| BuybackHelpers.RunLength | sgx_scraper/fetch_sgx_buyback/utils/payload_helper.py:13 | the longest run of number characters from a position |
| BuybackHelpers.NumberRun | sgx_scraper/fetch_sgx_buyback/utils/payload_helper.py:13 | the first run of digits, commas and dots; empty exactly when the text has none (also src/fetch_sgx_buyback/utils/payload_standardize_helper.py line 22) |
| BuybackHelpers.BuyFloat | sgx_scraper/fetch_sgx_buyback/utils/payload_helper.py:8-10 | an empty or missing text gives none (also src/fetch_sgx_buyback/utils/payload_standardize_helper.py lines 17-19) |
| BuybackHelpers.BuyFloatWithoutRun | sgx_scraper/fetch_sgx_buyback/utils/payload_helper.py:17-18 | a text without digits, commas or dots gives none |
| BuybackHelpers.BuyFloatOfDigits | sgx_scraper/fetch_sgx_buyback/utils/payload_helper.py:13-16 | a text whose first run is plain digits reads as their value (also src/fetch_sgx_buyback/utils/payload_standardize_helper.py lines 22-25) |
| BuybackHelpers.RunAfterPrefix | sgx_scraper/fetch_sgx_buyback/utils/payload_helper.py:13 | the first run is the digits after a prefix without number characters |
| BuybackHelpers.ParseDigits | sgx_scraper/fetch_sgx_buyback/utils/payload_helper.py:16 | `float` of a digit string is its value |
| BuybackHelpers.BuyFloatNonNegative | sgx_scraper/fetch_sgx_buyback/utils/payload_helper.py:8-22 | a number read is never negative, the run holding no sign |
| BuybackHelpers.TwoDotsRefused | sgx_scraper/fetch_sgx_buyback/utils/payload_helper.py:13-22 | a run with two dots such as 68.640.19 fails `float` and gives none |
| BuybackHelpers.BuyFloatOfRun | sgx_scraper/fetch_sgx_buyback/utils/payload_helper.py:13-16 | a comma-free run of number characters reads as `float` of the whole text |
| BuybackHelpers.UnsignedTwoDots | sgx_scraper/fetch_sgx_buyback/utils/payload_helper.py:16 | `float` refuses digits with two dots |
| BuybackHelpers.SecondDotRefused | sgx_scraper/fetch_sgx_buyback/utils/payload_helper.py:16 | `float` refuses a second dot after the fraction digits |
| BuybackHelpers.PriceShape | src/fetch_sgx_buyback/utils/payload_helper.py:5-22 | a paid price exactly when only the paid text is present, a range exactly when only the highest and lowest are, with the converted values |
| BuybackHelpers.BuildPricePerShare | sgx_scraper/fetch_sgx_buyback/utils/payload_helper.py:25-42 | the paid price is the converted paid text; no prices exactly when neither shape applies (also src/fetch_sgx_buyback/utils/payload_standardize_helper.py lines 34-45) |
| BuybackHelpers.UrlHasNoEffect | src/fetch_sgx_buyback/utils/payload_helper.py:5-22 | the url parameter of the older copy plays no part, and the conversion is the given one |
| BuybackHelpers.MandateRemaining | sgx_scraper/fetch_sgx_buyback/utils/payload_helper.py:81-91 | a remainder exactly when both the mandate and the purchases are non-zero, and then the two add up to the mandate |
| BuybackHelpers.OverboughtMandateNegative | sgx_scraper/fetch_sgx_buyback/utils/payload_helper.py:86-87 | purchases above the mandate give a negative remainder, which is not clamped |
| BuybackHelpers.StandardizeDatetime | src/fetch_sgx_buyback/utils/payload_standardize_helper.py:8-14 | an empty or missing date gives none |
| BuybackHelpers.StandardizeDatetimeFacts | src/fetch_sgx_buyback/utils/payload_standardize_helper.py:8-14 | a non-empty date gives none exactly when it is not day/month/year, and otherwise its ISO text |
| BuybackParser.NonEmptyTexts | sgx_scraper/fetch_sgx_buyback/parser_sgx_buyback.py:40-44 | the non-empty texts of the cells, in order |
| BuybackParser.RowEntry | sgx_scraper/fetch_sgx_buyback/parser_sgx_buyback.py:35-52 | a row gives an entry exactly when it has two cells, a key and a non-empty value text; one text is stored alone and several as a list |
| BuybackParser.RowEntries | sgx_scraper/fetch_sgx_buyback/parser_sgx_buyback.py:34-52 | at most one entry per row |
| BuybackParser.RowEntriesGood | sgx_scraper/fetch_sgx_buyback/parser_sgx_buyback.py:46-52 | every entry has a non-empty key and a non-empty value |
| BuybackParser.TableDataFacts | sgx_scraper/fetch_sgx_buyback/parser_sgx_buyback.py:29-54 | the table dict has distinct keys, each holding the last row's value for that key, and every value is non-empty |
| BuybackParser.TableData | sgx_scraper/fetch_sgx_buyback/parser_sgx_buyback.py:29-54 | the entries of a table assigned in row order, a later row overwriting an earlier one with the same label |
| BuybackParser.CollectTexts | sgx_scraper/fetch_sgx_buyback/parser_sgx_buyback.py:40-44 | the loop over the cells keeps the reference non-empty texts |
| BuybackParser.ExtractTableData | sgx_scraper/fetch_sgx_buyback/parser_sgx_buyback.py:29-54 | the loop over the rows builds the reference table dict |
| BuybackParser.TermEntries | sgx_scraper/fetch_sgx_buyback/parser_sgx_buyback.py:74-81 | each term entry has a non-empty key and a single text |
| BuybackParser.MergeTablesFacts | sgx_scraper/fetch_sgx_buyback/parser_sgx_buyback.py:84-87 | after the updates the keys stay distinct and each key holds its value in the last table that has it, else its term value |
| BuybackParser.MergeTables | sgx_scraper/fetch_sgx_buyback/parser_sgx_buyback.py:84-87 | the section dict updated with each table's entries in turn |
| BuybackParser.ConsiderationLabelWith | sgx_scraper/fetch_sgx_buyback/parser_sgx_buyback.py:90 | every label starting with "Total Consideration" is renamed |
| BuybackParser.LowerTotalConsideration | sgx_scraper/fetch_sgx_buyback/parser_sgx_buyback.py:90 | the target label itself lower-cases to "total consideration" |
| BuybackParser.UnrenamedFacts | sgx_scraper/fetch_sgx_buyback/parser_sgx_buyback.py:89-91 | the entries left in place are entries of the dict whose labels are not renamed |
| BuybackParser.LastRenamedFacts | sgx_scraper/fetch_sgx_buyback/parser_sgx_buyback.py:89-91 | the moved value is that of the last renamed label, and there is none when no label is renamed |
| BuybackParser.UnrenamedGet | sgx_scraper/fetch_sgx_buyback/parser_sgx_buyback.py:89-91 | a label that is not renamed keeps its value |
| BuybackParser.UnrenamedDistinct | sgx_scraper/fetch_sgx_buyback/parser_sgx_buyback.py:89-91 | removing the renamed labels keeps the keys distinct |
| BuybackParser.RekeyedFacts | sgx_scraper/fetch_sgx_buyback/parser_sgx_buyback.py:89-91 | after the re-key the keys are distinct, "Total Consideration" holds the last renamed value, others are unchanged and the other renamed labels are gone |
| BuybackParser.Rekeyed | sgx_scraper/fetch_sgx_buyback/parser_sgx_buyback.py:89-91 | the re-key as intended: the consideration labels dropped and "Total Consideration" appended with the last one's value |
| BuybackParser.RekeyAsWritten | sgx_scraper/fetch_sgx_buyback/parser_sgx_buyback.py:89-91 | the re-key loop as written, label by label over the keys taken before the loop: each consideration label popped and re-stored under "Total Consideration" |
| BuybackParser.RekeyAsWrittenLosesLastValue | sgx_scraper/fetch_sgx_buyback/parser_sgx_buyback.py:89-91 | with a renamed label before "Total Consideration" itself, the loop as written keeps the first value where the last was intended |
| BuybackParser.CurrencyLabelShowsLoss | sgx_scraper/fetch_sgx_buyback/parser_sgx_buyback.py:89-91 | with "Total Consideration (S$)" before "Total Consideration", the loop as written loses the later value |
| BuybackParser.SectionDataFacts | sgx_scraper/fetch_sgx_buyback/parser_sgx_buyback.py:61-93 | a missing section is empty; the keys are distinct; other labels hold their last table value, else their term value; "Total Consideration" holds the last renamed value |
| BuybackParser.SectionDataSpec | sgx_scraper/fetch_sgx_buyback/parser_sgx_buyback.py:61-97 | a missing section is empty; otherwise the term entries, updated by each table, then re-keyed as intended |
| BuybackParser.UnrenamedSnoc | sgx_scraper/fetch_sgx_buyback/parser_sgx_buyback.py:89-91 | one more entry is kept exactly when its label is not renamed |
| BuybackParser.LastRenamedSnoc | sgx_scraper/fetch_sgx_buyback/parser_sgx_buyback.py:89-91 | one more renamed entry becomes the moved value |
| BuybackParser.RenameLabels | sgx_scraper/fetch_sgx_buyback/parser_sgx_buyback.py:89-91 | the loop over the keys gives the corrected re-keyed dict |
| BuybackParser.PopRenamed | sgx_scraper/fetch_sgx_buyback/parser_sgx_buyback.py:89-91 | the loop pops every renamed label and keeps the last value popped |
| BuybackParser.AppendTotal | sgx_scraper/fetch_sgx_buyback/parser_sgx_buyback.py:91 | storing a value under "Total Consideration" after the pops appends it at the end |
| BuybackParser.RenameStep | sgx_scraper/fetch_sgx_buyback/parser_sgx_buyback.py:89-91 | one step of the loop pops a renamed label or leaves the dict as it is |
| BuybackParser.ExtractSectionData | sgx_scraper/fetch_sgx_buyback/parser_sgx_buyback.py:61-97 | terms, tables and the corrected re-key in order give the reference section dict |
| BuybackParser.CellText | sgx_scraper/fetch_sgx_buyback/parser_sgx_buyback.py:101 | a text cell's text, and none for a list or a missing key |
| BuybackParser.CellFloat | sgx_scraper/fetch_sgx_buyback/parser_sgx_buyback.py:152-170 | a missing key or a list gives no number |
| BuybackParser.ResolveSymbol | sgx_scraper/fetch_sgx_buyback/parser_sgx_buyback.py:100-108 | the symbol of the securities line when it has one, else the name match of the issuer |
| BuybackParser.SymbolFromSecuritiesLine | sgx_scraper/fetch_sgx_buyback/parser_sgx_buyback.py:100-104 | a securities line of two or three parts gives its last part, whatever the name matcher does |
| BuybackParser.GetBuybackType | sgx_scraper/fetch_sgx_buyback/parser_sgx_buyback.py:111-120 | on market exactly for a market yes and an off-market no, off market exactly for the reverse |
| BuybackParser.BuybackTypeNeedsBothFlags | sgx_scraper/fetch_sgx_buyback/parser_sgx_buyback.py:111-120 | a missing flag, two equal flags or a list value gives no type |
| BuybackParser.PurchaseDate | sgx_scraper/fetch_sgx_buyback/parser_sgx_buyback.py:124-125 | no purchase date in either section gives none |
| BuybackParser.MandateStart | sgx_scraper/fetch_sgx_buyback/parser_sgx_buyback.py:127-128 | no textual start date gives none |
| BuybackParser.ParsePricesFacts | sgx_scraper/fetch_sgx_buyback/parser_sgx_buyback.py:133-144 | a paid price exactly when the paid or payable text is found and neither extreme is, read from the paid text first; a range exactly when neither paid text and both extremes are found |
| BuybackParser.ParsePrices | sgx_scraper/fetch_sgx_buyback/parser_sgx_buyback.py:133-144 | the paid price, falling back to the paid-or-payable text when it is falsy, together with the highest and lowest prices |
| BuybackParser.TotalValues | sgx_scraper/fetch_sgx_buyback/parser_sgx_buyback.py:147-172 | the mandate and treasury numbers are read from their cells; an empty cumulative list gives none and a list gives its first element; the purchased count is read from the fallback |
| BuybackParser.MandateEnd | sgx_scraper/fetch_sgx_buyback/parser_sgx_buyback.py:207-210 | no start date gives no end date |
| BuybackParser.MandateEndOfDate | sgx_scraper/fetch_sgx_buyback/parser_sgx_buyback.py:207-210 | the end is one year on, with 29 February becoming 28 February, and none for the year 9999 |
| BuybackParser.BuybackFields | sgx_scraper/fetch_sgx_buyback/parser_sgx_buyback.py:175-234 | an announcement exactly when the mandate end can be computed; the mandate carries the start, the total and a remainder computed from the same numbers |
| BuybackParser.MissingStartLosesAnnouncement | sgx_scraper/fetch_sgx_buyback/parser_sgx_buyback.py:127-128 | a missing or unreadable mandate start loses the whole announcement (also lines 208, 232-234) |
| BuybackParser.ExtractAllFields | sgx_scraper/fetch_sgx_buyback/parser_sgx_buyback.py:175-234 | reading the six sections, each with the corrected re-key (SectionDataSpec over Rekeyed), and building the fields give the reference announcement |
| BuybackParser.ExtractAllFieldsSpec | sgx_scraper/fetch_sgx_buyback/parser_sgx_buyback.py:175-234 | the six sections read with the corrected re-key, then the announcement fields built from them |
| Alerts.Reasons | sgx_scraper/alerting/filter_data_alert.py:19-52 | the missing-field reason applies exactly when a required field is missing |
| Alerts.FilterFiling | sgx_scraper/alerting/filter_data_alert.py:9-54 | the checks in the order written: a missing field, a quantity that differs from the change in holdings, a direction that contradicts it, a price above the cap, a price off the market, a value that is not quantity times price |
| Alerts.FilterFilingIffReason | sgx_scraper/alerting/filter_data_alert.py:9-54 | the early returns lose nothing: a record is held back exactly when some reason applies |
| Alerts.WrongDirectionFlagged | sgx_scraper/alerting/filter_data_alert.py:33-35 | a fall in holdings filed as a buy is held back |
| Alerts.NoChangeNeverWrongDirection | sgx_scraper/alerting/filter_data_alert.py:33-37 | a record whose holdings did not change passes the direction check whatever its type |
| Alerts.PriceAboveCapIgnoresLookup | sgx_scraper/alerting/filter_data_alert.py:39-47 | above the 200 cap the market price is never consulted |
| Alerts.ConsistentBuyPasses | sgx_scraper/alerting/filter_data_alert.py:19-52 | a complete buy whose quantity equals its rise in holdings and that has no price is insertable |
| Alerts.PartitionFacts | sgx_scraper/alerting/filter_data_alert.py:57-73 | the two lists hold every record exactly as often as the input, the first only passing records and the second only held-back ones |
| Alerts.Partition | sgx_scraper/alerting/filter_data_alert.py:57-73 | the insertable records and the held-back ones, each in input order |
| Alerts.PartitionComplete | sgx_scraper/alerting/filter_data_alert.py:64-71 | every record lands in the list its verdict names |
| Alerts.GetDataAlert | sgx_scraper/alerting/filter_data_alert.py:57-73 | the loop over the records gives the reference split, in input order |
| CliHelper.ParseDateText | sgx_scraper/utils/cli_helper.py:14-17 | a date read from either format is a valid calendar date |
| CliHelper.NormalizeDatetime | sgx_scraper/utils/cli_helper.py:9-22 | a date object is printed as YYYYMMDD; a text gives a result exactly when it parses; every result is all digits |
| CliHelper.NoDashInDigits | sgx_scraper/utils/cli_helper.py:14 | an all-digit text has no dash, so a result is re-read with the compact format |
| CliHelper.CompactReadsBack | sgx_scraper/utils/cli_helper.py:17-19 | a compact date text reads back as the same date |
| CliHelper.NormalizeDatetimeIdempotent | sgx_scraper/utils/cli_helper.py:9-22 | normalising a normalised date gives it back |
| CliHelper.NormalizeDatetimeStrict | src/utils/cli_helper.py:8-20 | the strict version raises the bad-parameter error exactly when the text does not parse, and otherwise gives digits |
| CliHelper.StrictAgreesWithLenient | src/utils/cli_helper.py:8-20 | the two versions fail on the same texts and agree where both succeed (also sgx_scraper/utils/cli_helper.py lines 13-22) |
| CliHelper.PushToDbStub | src/utils/cli_helper.py:23-24 | the stub returns None |
| CliHelper.ToFloat | sgx_scraper/utils/cli_helper.py:65 | `float(v)`: a boolean as 1 or 0, an integer or float as its value, a text through the decimal parser, and None (the ValueError or TypeError) for null, lists and objects |
| CliHelper.ToCount | sgx_scraper/utils/cli_helper.py:63-68 | `int(float(v))`: an integer exactly when the value converts, truncated toward zero, else None |
| CliHelper.ToCountFixes | sgx_scraper/utils/cli_helper.py:65 | an integer stays itself and a digit string becomes its integer |
| CliHelper.ToCountTruncates | sgx_scraper/utils/cli_helper.py:65 | `int` truncates toward zero on both signs |
| CliHelper.CleanKey | sgx_scraper/utils/cli_helper.py:63-68 | one key of the inner loop: a present, non-None value is replaced by its count; a missing or None value is left alone |
| CliHelper.CleanKeys | sgx_scraper/utils/cli_helper.py:58-68 | the inner loop over the listed keys, applied first to last |
| CliHelper.CleanKeyFacts | sgx_scraper/utils/cli_helper.py:63-68 | converting one key keeps the keys, converts that key's value and changes no other key |
| CliHelper.CleanKeysFacts | sgx_scraper/utils/cli_helper.py:58-68 | converting distinct keys keeps the keys, converts the listed keys' values and leaves the others unchanged |
| CliHelper.CleanKeysIdempotent | sgx_scraper/utils/cli_helper.py:58-68 | converting twice is converting once |
| CliHelper.CountKeysDistinct | sgx_scraper/utils/cli_helper.py:58-87 | the count keys are distinct and the name is not one of them |
| CliHelper.CleanBuybackRow | sgx_scraper/utils/cli_helper.py:57-68 | one buy-back row: the three buy-back count keys converted |
| CliHelper.CleanBuybackRows | sgx_scraper/utils/cli_helper.py:57-68 | one cleaned row per row, in order |
| CliHelper.CleanPayloadBuyback | sgx_scraper/utils/cli_helper.py:52-70 | the rows are cleaned in place and the same list is returned |
| CliHelper.CleanRowCounts | sgx_scraper/utils/cli_helper.py:58-68 | the loop over the keys gives the reference conversion |
| CliHelper.CleanBuybackRowFacts | sgx_scraper/utils/cli_helper.py:57-68 | the keys are kept, the three count keys converted, others unchanged, and cleaning is idempotent |
| CliHelper.CleanName | sgx_scraper/utils/cli_helper.py:79-81 | an all-uppercase shareholder name is replaced by its title case, any other row is kept |
| CliHelper.CleanFilingRow | sgx_scraper/utils/cli_helper.py:78-93 | one filing row: the name title-cased when all upper case, then the three filing count keys converted |
| CliHelper.TitleCaseName | sgx_scraper/utils/cli_helper.py:79-81 | an all-upper name is title-cased and any other name is kept |
| CliHelper.CleanFilingRows | sgx_scraper/utils/cli_helper.py:78-93 | one cleaned row per row, in order |
| CliHelper.CleanPayloadFilings | sgx_scraper/utils/cli_helper.py:73-95 | an empty payload gives the pair of empty lists; otherwise the rows are cleaned in place and the same list returned |
| CliHelper.TitleFromIdempotent | sgx_scraper/utils/cli_helper.py:81 | title-casing twice is title-casing once |
| CliHelper.CleanFilingRowFacts | sgx_scraper/utils/cli_helper.py:78-93 | the keys are kept, an all-upper name title-cased, the three counts converted, others unchanged, and cleaning is idempotent |
| CliHelper.HashValue | sgx_scraper/utils/cli_helper.py:106 | a value as a set member: None for null, the number for a boolean, integer or float (True is 1, 1 equals 1.0), the text for a string, and unhashable exactly for a list or object |
| CliHelper.UrlOf | sgx_scraper/utils/cli_helper.py:106 | `item.get("url")` as a set member: None exactly when the key is missing or null, unhashable exactly for a list or object |
| CliHelper.SeenUrls | sgx_scraper/utils/cli_helper.py:106 | exactly the url values of yesterday's rows, a missing or null url as None |
| CliHelper.KeepUnseen | sgx_scraper/utils/cli_helper.py:108-111 | never longer than today's rows, and every kept row's url is unseen |
| CliHelper.RemoveDuplicate | sgx_scraper/utils/cli_helper.py:98-114 | an empty yesterday gives today unchanged; otherwise the TypeError is raised exactly when some url of either day is unhashable; the result is never longer than today |
| CliHelper.KeepUnseenMembers | sgx_scraper/utils/cli_helper.py:108-111 | a row is kept exactly when it is one of today's and its url, compared as Python compares set members, was not seen |
| CliHelper.KeepUnseenConcat | sgx_scraper/utils/cli_helper.py:108-111 | the filter keeps order and works row by row |
| CliHelper.KeepUnseenIdempotent | sgx_scraper/utils/cli_helper.py:108-111 | filtering twice is filtering once |
| CliHelper.RemoveDuplicateFacts | sgx_scraper/utils/cli_helper.py:98-114 | an empty yesterday gives today; otherwise, when nothing raises, a row is kept exactly when no row of yesterday has an equal url; removal is idempotent |
| CliHelper.UrlLessRowsDropTogether | sgx_scraper/utils/cli_helper.py:106-111 | one row of yesterday whose url is missing or null drops every row of today whose url is missing or null |
| CliHelper.MissingUrlMatchesNull | sgx_scraper/utils/cli_helper.py:106-111 | a row of today without a url is removed by a row of yesterday whose url is null |
| CliHelper.NumericUrlsCompareAsNumbers | sgx_scraper/utils/cli_helper.py:106-111 | the urls 1, 1.0 and True are one set member, so a url True today is removed by a url 1 yesterday |
| CliHelper.UnhashableUrlRaises | sgx_scraper/utils/cli_helper.py:106 | a list or object url yesterday makes the call raise |

## Left out

- Network, browser and API paging (`get_sgx_filings`, `get_sgx_buybacks`, `open_pdf`, `extract_html_content`, `extract_symbol_fallback`, `HttpClient`): I/O; their results enter the model as inputs.
- Logging and printing: no effect on results.
- `push_to_db` of the scraper package: a database insert. Only the no-op stub of the command-line package is modelled.
- `write_to_json` and `open_json`: file I/O. `remove_duplicate` takes the two decoded lists as parameters.
- `populate_extra_data`: network and file I/O.
- `build_shareholder_name_transfer`: a regex cascade over names, outside the extraction core.
- `generate_title_and_body`: presentation text with thousands formatting.
- `shares_percentage_to_decimal`: float-to-string formatting.
- The PDF library (`get_text`, `get_drawings`, `search`, `crop`, `extract_tables`, `extract_text`): replaced by input sequences and search functions. The crop of a section to its bounding box is not modelled.
- The fuzzy symbol matcher, the currency conversion and the market-price lookup: oracles given as function parameters.
- The lazy DOTALL captures of `extract_date`, `extract_number_of_stock` and `extract_value`: abstract readers returning an optional text.
- Regular expressions: only the fixed patterns the core uses are modelled, and only with ASCII case folding, whitespace and word characters. Searches that use `.*?` ask only whether a match exists, and there greedy and lazy matching agree.
- Numbers.ParseFloat: `float()` also accepts `_` between digits (`"1_000"` is 1000.0); the model reads such a text as no number.
- Floating point: every float is a real, so binary rounding, `inf` and `nan` are not modelled. `round` is half-even on the exact value, and `math.isclose` is written with its default relative tolerance.
- `build_transaction_type` takes two arguments, but the record join calls it with one (sgx_scraper/fetch_sgx_filings/parser_sgx_filings.py:320 and :638). The join as written, with that TypeError, is modelled separately (see Findings). FilingRecords.ExtractRecords, used by the rest of the model, takes each section's transaction type as an input, the result of the two-argument call; the classifier is modelled against its own signature.
- The import of a `safe_convert_float` that the older buy-back helper's module does not define: the conversion is a parameter of that copy.
- FilingRecords.ParseShareTableValues: the `(None, None)` return when the table gathering raises is not modelled. A missing table takes the single-`None` path, which the caller cannot unpack.
- PdfText.ReadPage: a page whose text reader returns nothing and a page whose reading raises are the same case (the page is skipped).
- ShareTables.MergeTables: the merged rows are a new sequence. That `merged.extend` also grows the first table's own row list in place (aliasing) is not modelled.
- CliHelper.CleanPayloadBuyback and CliHelper.CleanPayloadFilings: rows are values in an array. Aliasing between row dictionaries, or between the list and other references to it, is not modelled.
- CliHelper.CleanPayloadFilings: a missing or non-text `shareholder_name` raises AttributeError in the source. The model makes a text name a precondition instead.
- CliHelper.ToCount: `int(float(v))` on a value whose float rounding differs from the real value is not modelled.
- CliHelper.NormalizeDatetimeIdempotent: stated only for years from 1000 on, because `%Y` writes earlier years without zero padding.
- CliHelper.RemoveDuplicateFacts: urls are compared as JSON values; a NaN url, which Python compares by identity, is not modelled, as floats are reals.
- Alerts.FilterFiling: numbers are reals. The TypeError of comparing or subtracting non-numeric values is not modelled.
- BuybackParser.ExtractSectionData: parser exceptions are not modelled, nor is a table reader returning `None`, which makes the merge raise.
- Constants: two facts about the literal tables are not stated as lemmas. First, that the other three other-circumstances option labels lower-case to rule keys. Second, that the voting-shares pattern also matches the rights-over-voting-shares label. Both are concrete string facts over long literals.

## Findings

| source | as written | input that shows it | evidently intended | confidence | as-written member | corrected member |
|---|---|---|---|---|---|---|
| sgx_scraper/fetch_sgx_buyback/parser_sgx_buyback.py:89-91 | the re-key loop moves each label containing "total consideration" to the key `Total Consideration` in key order; when the plain key comes after another such label, the first move overwrites the plain key's value, and the later move of the plain key only re-stores the first value | section entries `Total Consideration (S$)` = v1 then `Total Consideration` = v2 (v1 ≠ v2) give `Total Consideration` = v1 | every such label is re-keyed and the last one's value wins | not executed | BuybackParser.RekeyAsWritten (BuybackParser.RekeyAsWrittenLosesLastValue, BuybackParser.CurrencyLabelShowsLoss) | BuybackParser.Rekeyed (BuybackParser.RekeyedFacts) |
| sgx_scraper/fetch_sgx_filings/parser_sgx_filings.py:638 | `build_transaction_type` takes two parameters (payload_helper.py line 371) but is called with one, so the TypeError is raised inside the try and `extract_records` gives None; with no section read, `is_special_value` is unbound at line 650 and the result is None too; the same one-argument call at line 320 would raise outside the fallback's try | any filing whose voting-shares box is checked and whose sections join: `extract_all_fields` gives None instead of its records | the type is built from the checkbox result and the section's transaction details, and the records are returned | not executed | FilingRecords.ExtractRecordsAsWritten (FilingRecords.ExtractRecordsAsWrittenNeverYields, FilingRecords.AsWrittenLosesEveryJoin, FilingRecords.ExtractAllFieldsAsWrittenNone) | FilingRecords.ExtractRecords (FilingRecords.ExtractRecordsSpec, FilingRecords.GateDecides) |
