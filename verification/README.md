# Finance-Auditor-LLM table-to-metrics pipeline, in Dafny

This project models the deterministic core of Finance-Auditor-LLM and proves
properties about it. That core is the pipeline that turns decomposed annual
reports into canonical tables, then into four observed metrics per company,
and finally into an evidence report that says how far a language model may
reason from those metrics. The following parts are modelled:

- `src/canonicalizer.py` (module `Canonicalizer`):
  - the cell normalizer `clean_cell`;
  - the markdown table parser `parse_markdown_table`;
  - the table qualifier `is_high_quality`;
  - the `process_file` loop, which writes every table fragment that parses
    and qualifies to `<id>.csv`.
- `src/evaluator.py` (module `Evaluator`):
  - the value cleaner `_clean_value`;
  - the unit and currency detector `_detect_context`;
  - the metric extractor `_get_metrics`: file filter, target-year column,
    row classification, and a slot store that later rows overwrite;
  - the evidence report `analyze_company`.
- `src/agent_system.py` (module `AgentSystem`):
  - the query noise filter;
  - the margin archetype;
  - the sovereign ratios;
  - the denominator audit;
  - the normalization stress test;
  - the insufficiency guard of `run`.
- `run_evaluator.py` (module `RunEvaluator`): the loop that collects company
  ids from file names.
- Supporting modules:
  - `Strings`: Python's `in`, `startswith`, `strip`, `lower`, `split` and `join`
    on strings;
  - `Numeral`: `float()` on the characters the cleaners leave, and `round(x, n)`
    as exact half-even rounding on reals;
  - `Wrappers`: `Option`.

The style follows the source:
- Pure code becomes functions with lemmas.
- The loops become methods proved equal to those functions:
  - `ParseMarkdownTable` and `ProcessFile`;
  - the column search `FindTargetColumn`;
  - the row loop `ReadRows` and the file loop `GetMetrics`;
  - the step-by-step scoring in `Assess`;
  - the id loop `CollectCompanyIds`.

Some behaviour of the code differs from what a reader might expect; the model
keeps the code's behaviour:
- A table is accepted on the financial-keyword rule only when its density is strictly above 5%.
- A later matching row overwrites a slot; the first match does not win.
- A file with no year column fills nothing. There is no fallback to the first numeric cell.
- The store starts with the currency "unknown" (lower case), and the score penalizes only
  "Unknown". So a company whose files cannot be listed gets a perfect sanity score
  (`Evaluator.FailedListingPasses`).

## Model

| member | source | states |
|---|---|---|
| Canonicalizer.CleanText | src/canonicalizer.py:33-56 | a placeholder (after trimming and lowering) becomes 0; a text result is the original text trimmed, with its case |
| Canonicalizer.TextIffUnparsed | src/canonicalizer.py:34-56 | a cell is kept as text iff it is no placeholder and what `clean_regex` leaves, sign-rewritten, does not parse; the text is the trimmed original |
| Canonicalizer.NoDigitIsText | src/canonicalizer.py:34-56 | a cell with no digit that is not a placeholder is kept as its trimmed text |
| Canonicalizer.SeparatorsIgnored | src/canonicalizer.py:39-53 | a cell without `%` from which `clean_regex` keeps a plain numeral is that number, whatever letters, currency signs and separators surround it |
| Canonicalizer.CleanScalar | src/canonicalizer.py:19-31 | a missing value (`None`, NaN) becomes 0 |
| Canonicalizer.CleanCell | src/canonicalizer.py:24-25 | an empty list cleans to 0, a non-empty list cleans as its first element |
| Canonicalizer.ZeroTextIsZero | src/canonicalizer.py:25 | the `0.0` an empty list is replaced by cleans to the number 0 |
| Canonicalizer.PlainNumeralIsItself | src/canonicalizer.py:50-53 | a cell that already holds a plain decimal number normalizes to that number |
| Canonicalizer.NegatedFormParsed | src/canonicalizer.py:39-53 | a cell from which `clean_regex` keeps `(u)` or `u-`, for an unsigned numeral `u`, normalizes to minus the value of `u`, a hundredth of that when the cell holds `%` |
| Canonicalizer.PercentIsHundredth | src/canonicalizer.py:39-53 | a cell with `%` from which `clean_regex` keeps a plain numeral normalizes to a hundredth of that number |
| Canonicalizer.AccountingForms | src/canonicalizer.py:45-48 | both accounting forms, `(u)` and `u-`, are rewritten as `-u` |
| Canonicalizer.TextIsStable | src/canonicalizer.py:54-56 | normalizing a label that a cell normalized to gives the same label again |
| Canonicalizer.AccountingExamples | src/canonicalizer.py:42-53 | `(1234.5)` gives -1234.5, `500-` gives -500 and `45%` gives 0.45 |
| Canonicalizer.LineCells | src/canonicalizer.py:95 | a table line splits into at least one cell, none holding a pipe |
| Canonicalizer.LineCellsOfJoin | src/canonicalizer.py:95 | a line that joins pipe-free pieces with pipes, with a pipe at each end and a non-blank first and last piece, splits back into exactly those pieces, each trimmed |
| Canonicalizer.PaddedRowCells | src/canonicalizer.py:95 | a line holding two plain cells, each set off by a pipe and a space on both sides, splits into exactly those two cells |
| Canonicalizer.KeptRows | src/canonicalizer.py:93-99 | the kept rows are no more than the lines, and none is a separator row |
| Canonicalizer.KeptRowsFromPipeLines | src/canonicalizer.py:94-99 | every kept row is the cells of a line with a pipe |
| Canonicalizer.KeptRowsCounted | src/canonicalizer.py:94-99 | no more rows are kept than there are lines with a pipe |
| Canonicalizer.NoPipeNoTable | src/canonicalizer.py:94-101 | a fragment without a pipe line gives no table |
| Canonicalizer.Label | src/canonicalizer.py:105 | a column label is never blank: the header cell when present and non-blank, otherwise exactly `Col_<i>` |
| Canonicalizer.BlankLabelsDistinct | src/canonicalizer.py:105 | two blank or missing header cells in different columns get different labels |
| Numeral.NatToStringValue | src/canonicalizer.py:105 | the digits written for a column index read back as that index |
| Canonicalizer.BuildTable | src/canonicalizer.py:103-106 | the first kept row gives the labels, and the data rows are the other kept rows padded to the widest |
| Canonicalizer.MarkdownTable | src/canonicalizer.py:89-106 | no table iff fewer than 2 rows are kept; otherwise kept-1 data rows, no blank label, rectangular |
| Canonicalizer.ParseMarkdownTable | src/canonicalizer.py:89-106 | the line loop computes `MarkdownTable` |
| Canonicalizer.TwoColumnTable | src/canonicalizer.py:89-106 | a header line, a separator line and two data lines of plain cells parse to the header as labels and the two data lines as rows |
| Canonicalizer.MarkdownExample | src/canonicalizer.py:89-106 | the four-line table with header `a`, `b`, a `---` separator line and the rows `1`, `2` and `3`, `4` parses to labels `a`, `b` and those two rows as text cells |
| Canonicalizer.CleanParsed | src/canonicalizer.py:125 | every cell is normalized in place, and the labels and the shape are kept |
| Canonicalizer.IsHighQuality | src/canonicalizer.py:58-87 | rejects empty or one-column tables; otherwise accepts iff (time marker and density > 0.02) or (keyword and density > 0.05) or density > 0.2 |
| Canonicalizer.DensityIsFraction | src/canonicalizer.py:76-77 | the density of a data frame lies in [0, 1] |
| Canonicalizer.NumberCountBound | src/canonicalizer.py:76 | a table holds no more nonzero numbers than cells |
| Canonicalizer.DensityGrows | src/canonicalizer.py:76-77 | one more nonzero number raises the density |
| Canonicalizer.ContextIgnoresLaterRows | src/canonicalizer.py:63-66 | rows after the third do not enter the context |
| Canonicalizer.ContextHasLabel | src/canonicalizer.py:64-66 | the context holds every column label, lower-cased |
| Canonicalizer.ContextHasCell | src/canonicalizer.py:65-66 | the context holds every cell of the first three rows, rendered and lower-cased |
| Canonicalizer.RevenueLabelFinancial | src/canonicalizer.py:64-84 | a `Total Revenue` label makes the context financial, so such a table of two or more columns passes above density 0.05 |
| Canonicalizer.MoreNumbersKeepQuality | src/canonicalizer.py:60-87 | turning a cell below the third row into a nonzero number keeps an accepted table accepted |
| Canonicalizer.QualityMonotone | src/canonicalizer.py:83-87 | with the shape and context fixed, acceptance is monotone in density |
| Canonicalizer.Canonical | src/canonicalizer.py:121-127 | a fragment yields a table iff it is a `table` item that parses and whose cleaned table qualifies; the table yielded is that cleaned table |
| Canonicalizer.QualifiedTablesQualify | src/canonicalizer.py:127-131 | every table written qualifies |
| Canonicalizer.QualifiedAtMostTables | src/canonicalizer.py:119-132 | the count never exceeds the number of table items |
| Canonicalizer.SavedNames | src/canonicalizer.py:128-130 | the directory afterwards holds the old files plus `<id>.csv` for every table written, and nothing else |
| Canonicalizer.SavedFilesQualify | src/canonicalizer.py:127-130 | every file in the directory was there before or holds a qualifying table |
| Canonicalizer.ProcessStep | src/canonicalizer.py:120-131 | one item raises the count and writes its file exactly when it yields a qualifying table |
| Canonicalizer.CanonicalizeFragment | src/canonicalizer.py:121-127 | the loop body computes `Canonical` |
| Canonicalizer.ProcessFile | src/canonicalizer.py:108-132 | a missing or unreadable document gives 0; otherwise the count is the number of qualifying tables and the directory is the one those writes leave |
| Evaluator.CleanValue | src/evaluator.py:11-13 | missing, empty and zero-token cells give 0 |
| Evaluator.ValueTextForm | src/evaluator.py:14-18 | the text `float()` receives is the cell's digits, points and minus signs in their order, behind a `-` when the cell holds both `(` and `)` |
| Evaluator.ZeroTokenIsZero | src/evaluator.py:12 | none of the zero tokens leaves a text that `float()` reads as nonzero |
| Evaluator.CleanValueIsFloat | src/evaluator.py:11-21 | a present cell is worth `float()` of the cleaned text, or 0 when `float()` fails: the zero-token shortcut never changes the value |
| Evaluator.SeparatorsIgnored | src/evaluator.py:14-19 | without both parentheses, the numeral left after deleting every other character is the value |
| Evaluator.NoDigitIsZero | src/evaluator.py:17-21 | a cell without a digit is worth 0, because parse failures give 0 |
| Evaluator.PlainNumberIsItself | src/evaluator.py:12-19 | a cell holding a plain decimal number is read as that number |
| Evaluator.ParenthesizedValue | src/evaluator.py:14-19 | a cell holding `(` and `)` whose digits and points form an unsigned numeral `u` is worth minus `u`, whatever separators and currency signs it holds |
| Evaluator.DetectContext | src/evaluator.py:23-27 | millions over thousands over units; USD (`$`, `usd`, `dollar`) over EUR over Unknown, each iff its words occur |
| Evaluator.ExtractYear | src/evaluator.py:41 | the year is the four digits after the leftmost `_dddd`, and absent iff no `_dddd` occurs in the id |
| Evaluator.SelectedFiles | src/evaluator.py:44 | only listed files that start with the id and end in `.csv`, and every such file |
| Evaluator.SelectedFilesAppend | src/evaluator.py:44 | the selection keeps the listing order: selecting from two listings in a row selects from each in turn |
| Evaluator.SelectedFilesCount | src/evaluator.py:44 | a selected file occurs as often as it is listed, any other file never |
| Evaluator.YearColumn | src/evaluator.py:55-59 | the first column whose label or first three cells hold the year, and none before it |
| Evaluator.FindTargetColumn | src/evaluator.py:55-61 | the column search with `break` computes `YearColumn` |
| Evaluator.ColumnHeaderHas | src/evaluator.py:56 | the header text of a column holds its label and each of its first three cells |
| Evaluator.YearInHeader | src/evaluator.py:56-58 | a column whose label or one of whose first three cells holds the year is a year column |
| Evaluator.Classify | src/evaluator.py:69-75 | each slot iff its branch of the `if/elif` chain is the first to match and its exclusion words are absent; a revenue line mentioning cost or growth is dropped, not tried against later branches |
| Evaluator.ReadRows | src/evaluator.py:63-78 | the row loop computes the store `ScanRows` describes |
| Evaluator.RowTextHas | src/evaluator.py:64 | the row text holds every cell left of the target column, lower-cased |
| Evaluator.MetricsExample | src/evaluator.py:29-82 | for id `ACME_2022`, a file `ACME_2022.csv` with columns `item`, `2022` and the row `Total revenue`, `500` gives revenue 500 sourced from that file, no other slot, and that file listed |
| Evaluator.GetMetrics | src/evaluator.py:29-82 | the file loop, with its early exit on an unreadable file, computes `Metrics` |
| Evaluator.MetricsSourced | src/evaluator.py:31-78 | a slot is nonzero iff it names a source, and every source and listed file starts with the id and ends in `.csv` |
| Evaluator.NoYearNoValues | src/evaluator.py:41-61 | an id without `_dddd` leaves every slot unobserved |
| Evaluator.NoYearColumnNoValues | src/evaluator.py:61 | a file with no year column fills nothing |
| Evaluator.ContextFrozen | src/evaluator.py:49-51 | once the unit is set, later files change neither unit nor currency |
| Evaluator.FirstFileSetsContext | src/evaluator.py:47-51 | the first non-empty file decides the unit and the currency |
| Evaluator.LastFillWins | src/evaluator.py:63-78 | the last row that fills a slot decides its value and source |
| Evaluator.UnfilledSlotKept | src/evaluator.py:66-78 | a slot that no row fills keeps what it held |
| Evaluator.Unknowns | src/evaluator.py:117-145 | the known unknowns are exactly the zero slots, and with the nonzero count they make four |
| Evaluator.Entity | src/evaluator.py:126 | the entity never holds a `_` |
| Evaluator.Period | src/evaluator.py:127 | the period never holds a `_` |
| Evaluator.EntityPeriodPrefix | src/evaluator.py:126-127 | an id with a `_` starts with entity, `_`, period |
| Evaluator.EquityRoundingSmall | src/evaluator.py:104-111 | the identity test is never failed by the rounding of the equity |
| Evaluator.CountObserved | src/evaluator.py:117 | the count over the four slots is the number of nonzero slots |
| Evaluator.Score | src/evaluator.py:118-123 | the penalty steps with rounding to hundredths give max(0.1, 1 - 0.8 on a collision - 0.4 on assets without the identity - 0.2 on the currency "Unknown") |
| Evaluator.Assess | src/evaluator.py:84-149 | the step-by-step scoring equals the closed-form `Evaluate`: identity iff assets and liabilities are both nonzero, sanity = max(0.1, 1 - penalties) |
| Evaluator.AnalyzeCompany | src/evaluator.py:84-86 | the report of the extracted store; every named source starts with the id and ends in `.csv` |
| Evaluator.ReportRanges | src/evaluator.py:117-123 | the sanity score lies in [0.1, 1] and completeness in [0, 1] |
| Evaluator.CollisionReport | src/evaluator.py:108-139 | assets = liabilities != 0: exactly one critical collision anomaly, equity UNRELIABLE, sanity <= 0.2, integrity FAILED |
| Evaluator.NoCollisionReport | src/evaluator.py:113-132 | without a collision there is no anomaly and the equity is deduced |
| Evaluator.IntegrityPassed | src/evaluator.py:117-139 | PASSED iff no collision and not (assets != 0 with liabilities = 0) |
| Evaluator.SafeNeedsThreeSlots | src/evaluator.py:117-143 | safe to reason implies at least three nonzero slots and no collision |
| Evaluator.KnownUnknownsExact | src/evaluator.py:117-145 | known unknowns are exactly the zero slots, and completeness is (4 - their number)/4 |
| Evaluator.ModeAndMargin | src/evaluator.py:94-146 | deductive iff the identity holds iff assets and liabilities are nonzero; a margin iff revenue and income are nonzero; a caution note iff the identity fails with assets present |
| Evaluator.FailedListingPasses | src/evaluator.py:38-123 | a listing that raises leaves the "unknown" currency, which is not penalized: sanity 1, PASSED, completeness 0 |
| Evaluator.RevenueAndAssetsOnly | src/evaluator.py:117-146 | revenue 500 and assets 1000 only: completeness 0.5, unknowns net income and liabilities, sanity 0.6, FAILED, not safe, investigative, caution note |
| AgentSystem.Detected | src/agent_system.py:25 | a word is detected iff it is listed and occurs in the text |
| AgentSystem.DetectedAppend | src/agent_system.py:24-25 | detection over a concatenated list is the detections over each part, in order |
| AgentSystem.NoiseFilter | src/agent_system.py:19-31 | noisy iff something is detected; detected words are exactly the listed words in the lower-cased query; BLOCK_RECO iff a speculative word occurs |
| AgentSystem.NoiseOrder | src/agent_system.py:24-25 | detected words come speculative first, then sentiment, then temporal |
| AgentSystem.Margin | src/agent_system.py:69-71 | 0 when revenue or net income is missing or zero; otherwise the margin times revenue is net income |
| AgentSystem.BusinessArchetype | src/agent_system.py:68-77 | premium iff margin > 0.15, commodity iff margin < 0.05 |
| AgentSystem.MissingDataIsCommodity | src/agent_system.py:71-76 | missing or zero revenue or income gives the commodity archetype |
| AgentSystem.ArchetypeMonotone | src/agent_system.py:73-77 | a higher margin never gives a lower band |
| AgentSystem.SovereignMetrics | src/agent_system.py:79-92 | empty iff not (revenue > 0 and assets > 0); otherwise exactly the four keys, turnover and intensity non-negative |
| AgentSystem.SovereignMetricsClose | src/agent_system.py:86-90 | each of the four ratios is within 0.005 of its exact value, the net margin and the return on assets in percent |
| AgentSystem.ProfitMarginIsMargin | src/agent_system.py:69-89 | with nonzero net income, the reported net margin is the archetype's margin in percent, to within 0.005 |
| AgentSystem.AuditDenominator | src/agent_system.py:94-105 | asset-light iff the exact PPE share < 0.15; EXTERNALIZED iff asset-light; share 0 when assets <= 0; reported share within 0.0005 |
| AgentSystem.PpeShareIsFraction | src/agent_system.py:99 | PPE within total assets gives a share in [0, 1] |
| AgentSystem.StressTest | src/agent_system.py:124-140 | ALREADY_CAPITAL_INTENSE iff intensity >= median, with the ROA unchanged; collapse 0 when ROA <= 0; HIGH iff collapse > 40; division by zero only for a zero median |
| AgentSystem.DefaultMedianNeverDivides | src/agent_system.py:127 | without a sector median the default 1.5 is used and no division by zero happens |
| AgentSystem.NormalizedRoaScales | src/agent_system.py:132 | below the median the normalized ROA is within 0.005 of ROA x intensity / median |
| AgentSystem.Run | src/agent_system.py:142-182 | insufficient iff the fundamentals are empty or total assets are 0; EVIDENCE_STRONG iff the query is not noisy; the stress test never divides by zero |
| AgentSystem.NegativeAssetsStable | src/agent_system.py:142-182 | negative assets pass the guard but yield no ratios and a stable zero stress result |
| RunEvaluator.CompanyIdOf | run_evaluator.py:18-21 | a name contributes an id iff it ends in `.csv` and holds a `_` |
| RunEvaluator.CollectCompanyIds | run_evaluator.py:15-21 | the set holds exactly the contributed ids, each once, and no more ids than names |
| RunEvaluator.IdSelectsItsFile | run_evaluator.py:21 | the evaluator's file filter selects every file an id came from |
| RunEvaluator.IdEntityPeriod | run_evaluator.py:19-21 | the report's entity and period of an id are the two name parts it was made of |

## Left out

- File and network I/O is not modelled; inputs are values instead:
  - `process_file` takes the decomposed document as `Option<seq<Fragment>>`. `None` stands for a missing or unreadable JSON file. The output directory is a map from file names to tables.
  - `_get_metrics` takes the listing as `Option<seq<CsvFile>>`. `None` stands for a listing that raised. A file whose read raises is `Unreadable`, and the loop stops there, as the caught exception does.
  - `_get_deep_fundamentals` (yfinance) and the Tavily searches are left out. `Run` takes the fundamentals as a map.
  - `_get_sector_benchmarks` adds only text fields to its fallback numbers, so its numeric part is the constant `SectorBenchmarks`.
- Not modelled:
  - the narratives, dates, evidence weights and decision-perimeter strings of `run`;
  - the `print` calls;
  - the JSON dump and the analysis loop of `run_evaluator.py` (lines 25-32);
  - the `datetime.now()` time stamp of an observation.
- Floating point is not modelled:
  - Money values are exact reals.
  - `round(x, n)` is exact half-even rounding of the real `x` (`Numeral.RoundTo`). Python rounds the binary double, and near a tie the two can differ.
- Pandas rendering is abstracted:
  - `df.to_string()` is the given `rendered` text of a frame.
  - `str()` of a float in `is_high_quality` is the parameter `render`.
  - CSV cells reach `_clean_value` as their texts; the CSV round trip between the two stages is not modelled.
- Unicode: `lower()`, `strip()` and `\d` are modelled on ASCII and Latin-1. Other scripts' capitals, spaces and digits are not.
- Canonicalizer.AccountingExamples: proves `(1234.5)`, not the `(1,234.5)` form with a thousands separator, because the literal's character-by-character evaluation is too costly for the verifier. The separator is one that `clean_regex` deletes, and `NegatedFormParsed` covers the general case.
- Canonicalizer.ProcessFile: an item without `content` or `id`, an item that is not an object, a document that is not a list, and a failing `to_csv` all make `process_file` raise; the model's fragments always carry the three fields and every write succeeds, so those exceptions are not modelled.
