# Lead tool: a verified model of the lead-processing pipeline

The lead tool takes a table of sales leads (Company, Email, Industry),
checks each e-mail address, derives a domain, a free-provider flag and a
guessed LinkedIn company URL, scores the lead from fixed keyword weights,
labels it High, Medium or Low, sorts the table by score, optionally
removes duplicate e-mails and companies, and writes a short summary report
with a top-5 leaderboard.

This project models that core in Dafny. A table is a `seq` of row records
and a string is a `seq<char>`.

| file | module | models |
|---|---|---|
| `wrappers.dfy` | `Wrappers` | `Option`, for a missing cell or a non-string argument |
| `text.dfy` | `Text` | ASCII character classes, `lower()`, `strip()`, substring search (`kw in text`), index search |
| `validator.dfy` | `Validator` | `validate_email` as a decision procedure, and the regular expression as a reference predicate |
| `enricher.dfy` | `Enricher` | `FREE_EMAIL_DOMAINS`, `enrich_lead` (domain, free flag, LinkedIn slug) |
| `scorer.dfy` | `Scorer` | `score_lead` (a method with the two keyword loops and the `for … else`), the closed-form score, `priority_label` |
| `leads.dfy` | `Leads` | the input row and the processed row |
| `dedup.dfy` | `Dedup` | the descending sort, `drop_duplicates(keep="first")`, `deduplicate` |
| `reporter.dfy` | `Reporter` | `generate_report`: counts, top five, rendered lines, `"\n".join` |
| `pipeline.dfy` | `Pipeline` | "Process Leads": fill missing cells, derive the columns row by row, sort, deduplicate |

Design decisions:

- Characters are ASCII. `\w` is `[A-Za-z0-9_]`. `isalnum` is `[A-Za-z0-9]`.
  `lower()` maps `A`–`Z` only. `strip()` removes Python's ASCII
  whitespace: space, `\t`, `\n`, `\v`, `\f`, `\r` and `\x1c`–`\x1f`.
- `validate_email` is modelled as a procedure. It takes the first `@`,
  then the last `.` after it, and checks the character classes of the
  parts. A ghost predicate states the regular expression directly:
  some `@` position and some `.` position split the string into the
  pattern's parts. A lemma proves that the two agree on every string.
- `score_lead` is a method with the source's loops, `break` and
  `for … else`. It is proved equal to a closed-form function. Every fact
  about scores is stated on that function.
- pandas' default sort is not stable. The model sorts with a stable
  insertion sort (`SortByScore`). The deduplication properties that do
  not depend on tie order are proved for every non-increasing
  permutation (`Dedup.DropPassesSpec`,
  `Dedup.SecondDeduplicateRemovesNothing`).
- Duplicate detection uses exact string equality, as the code does. The
  empty e-mail is an ordinary value, and companies are not case-folded.
  The tool's own description speaks loosely of de-duplicating "leads".
  The model follows the code.

## Model

| member | source | states |
|---|---|---|
| Text.TrimEmptyIffBlank | main.py:10 | `strip()` gives the empty string exactly when every character is whitespace |
| Text.ContainsIsSubstring | main.py:36 | the keyword test `kw in text` holds exactly when `kw` occurs at some position of `text` |
| Validator.AddressShapeIffPattern | main.py:12-13 | on a stripped string, the first-`@`/last-`.` procedure accepts exactly the strings the regular expression `^[\w.-]+@[\w.-]+\.\w+$` matches |
| Validator.ValidateEmailIffPattern | main.py:9-13 | `validate_email(s)` is true exactly when the pattern matches the whole of `s.strip()` |
| Validator.BlankEmailIsInvalid | main.py:10-11 | a non-string, the empty string and an all-whitespace string are invalid |
| Validator.ValidEmailHasOneAt | main.py:12-13 | an accepted address holds exactly one `@` |
| Validator.AddressAccepted | main.py:12-13 | every string `local@name.tld` is valid when `local` and `name` are non-empty runs of `[\w.-]` (so `local` holds no `@`), `name` holds no `.`, and `tld` is a non-empty run of `\w` |
| Validator.SampleAddressesAccepted | main.py:99-103 | the sample addresses of TechNova AI, GreenFarm Ltd, BuildMax, FinSolve and EduSmart are valid |
| Validator.TrailingAtRejected | main.py:10-13 | every string ending in `@` is invalid: the stripped string still ends in `@`, and the pattern must end in a `\w` character |
| Validator.SampleAddressRejected | main.py:104 | `random_email@` is invalid |
| Enricher.SlugShape | main.py:27 | the slug has the company name's length; each character is the lower-case form of an alphanumeric character and `-` for every other one, so the slug is over `[a-z0-9-]` |
| Enricher.EnrichLeadSpec | main.py:15-29 | the URL is the LinkedIn company prefix plus the slug; domain `"unknown"` and not free without `@`; otherwise the domain is the lower-cased, stripped text after the last `@` (no `@`, no upper case); free exactly when the domain is one of the nine listed providers |
| Enricher.NotAProvider | main.py:15-18 | a domain whose first two characters begin none of the nine listed providers is not a free provider |
| Enricher.SampleTechNovaEnriched | main.py:99 | `contact@technovaai.com` has domain `technovaai.com`, not a free provider |
| Enricher.SampleGreenFarmEnriched | main.py:100 | `info@greenfarm.com` has domain `greenfarm.com`, not a free provider |
| Enricher.SampleBuildMaxEnriched | main.py:101 | `sales.buildmax@gmail.com` has domain `gmail.com`, a free provider |
| Enricher.SampleFinSolveEnriched | main.py:102 | `support@finsolve.io` has domain `finsolve.io`, not a free provider |
| Enricher.SampleEduSmartEnriched | main.py:103 | `hello@edusmart.org` has domain `edusmart.org`, not a free provider |
| Enricher.SampleBuildMax | main.py:101 | BuildMax enriches to `("gmail.com", "https://www.linkedin.com/company/buildmax", true)` |
| Enricher.SampleDanglingAt | main.py:104 | `random_email@` has the empty domain, not `"unknown"`, and is not a free provider |
| Scorer.LeadScore | main.py:31-49 | the closed-form score lies in [5, 70] |
| Scorer.ScoreLead | main.py:31-49 | the loops with `break` and `for … else` compute the closed-form score: base 40 or 10, +20 if an industry keyword occurs in the lower-cased industry else +5, +10 if a company keyword occurs in the lower-cased company, −10 for a free provider; the clamp leaves it in [0, 100] |
| Scorer.RetailCountsAsHighValue | main.py:33-36 | plain substring matching makes "Retail" a high-value industry, through `"ai"` |
| Scorer.SampleScores | main.py:98-105 | given each sample lead's e-mail validity and free flag, the keyword rules score the six leads 70, 45, 35, 60, 60 and 40 |
| Scorer.PriorityMonotone | main.py:51-56 | a higher score never gets a lower tier |
| Scorer.NoLeadIsHigh | main.py:51-56 | no score reaches the High tier |
| Dedup.SortByScore | main.py:60 | the sort returns a permutation of its input in non-increasing score order |
| Dedup.InsertAt | main.py:60 | a row is inserted after exactly the leading rows that score more than it, so it goes before every row with an equal or lower score |
| Dedup.SortOrderedIsIdentity | main.py:60 | sorting a table that is already in order changes nothing |
| Dedup.DropSeen | main.py:61-62 | a drop pass returns a subsequence of its input whose keys are distinct |
| Dedup.DropDuplicatesSpec | main.py:61-62 | `drop_duplicates(keep="first")` equals the positional reference `KeepFirst` (the rows at indices whose key occurs at no smaller index, in index order); hence it keeps every key and every first occurrence, drops the rest and keeps the order |
| Dedup.DropKeepsBestScore | main.py:60-61 | on a table sorted by score, the row kept for a key scores at least as much as every row with that key |
| Dedup.DropPassesSpec | main.py:60-62 | for any order the descending sort may give, ties included, the result is an ordered subsequence with distinct e-mails, distinct companies, and the best score for each kept e-mail |
| Dedup.DeduplicateSpec | main.py:58-63 | `deduplicate` equals keep-first by e-mail on the score-sorted table followed by keep-first by company; with an Email column the result is an ordered subsequence of the sorted table that keeps its top row, has distinct e-mails (`""` counts as a value) and distinct companies, and for each e-mail it keeps, the kept row has the highest score of that e-mail's input rows; without one, only the company pass runs and every company is kept |
| Dedup.DeduplicateIdempotent | main.py:58-63 | deduplicating the result again returns it unchanged |
| Dedup.SecondDeduplicateRemovesNothing | main.py:58-63 | however a second sort orders equal scores, the drop passes then remove nothing |
| Dedup.DistinctByPermutation | main.py:60 | distinct keys stay distinct when the sort reorders the rows |
| Reporter.BandsPartitionRows | main.py:69-71 | high + medium + low = total, so `low` is the number of scores below 50 |
| Reporter.BandsAreTiers | main.py:69-71 | when Priority was set by `priority_label`, the three counts are the numbers of High, Medium and Low rows |
| Reporter.NoHighRows | main.py:69 | a table whose scores are at most 70 has no high-priority row |
| Reporter.DecimalRoundTrip | main.py:74-85 | the integers printed in the report read back as their values |
| Reporter.SplitJoinRoundTrip | main.py:86 | `"\n".join` of lines that hold no newline is undone by splitting on newlines |
| Reporter.TopFiveSpec | main.py:83 | the leaderboard has min(5, total) rows in non-increasing score order, all from the table, and no row left off it scores above a row on it |
| Reporter.AppendLeaderboard | main.py:84-85 | the loop appends one rendered line per leaderboard row, in order |
| Reporter.GenerateReport | main.py:65-86 | total, valid, high (≥ 75), medium (50–74) and low (< 50, equal to total − high − medium) counts; the header and leaderboard lines and their join; all counts 0 and no leaderboard line for an empty table |
| Pipeline.ProcessLeads | main.py:163-177 | the row loop, sort and optional deduplication compute the specified processed table; an empty input gives no table |
| Pipeline.ScoreOne | main.py:166-173 | one row's cells are filled, validated, enriched, scored and labelled, giving a row whose derived columns agree with the helpers |
| Pipeline.ProcessedFromInput | main.py:166-177 | the processed table is drawn from the scored input rows and sorted by score; without deduplication it holds every input row |
| Pipeline.ProcessedRowsSpec | main.py:166-173 | every output row has derived columns that agree with `validate_email`, `enrich_lead`, `score_lead` and `priority_label` on its cells, a score in [5, 70] and a tier below High |
| Pipeline.DeduplicatedSpec | main.py:175-177 | with deduplication the table is not empty, has distinct e-mails and companies, and for each e-mail it keeps, the kept row has the best score of the input rows with that e-mail |
| Pipeline.DeduplicatedProcessIsDropPasses | main.py:175-177 | the sort inside `deduplicate` finds the table already in order, so only the two drop passes change it |
| Pipeline.ProcessedReportHasNoHigh | main.py:69-71 | the report on a processed table counts no High lead; every row is Medium or Low |
| Pipeline.SampleRows | main.py:98-105 | the six sample leads score 70, 45, 35, 60, 60 and 40, computed from their own cells: the e-mail check, the free flag and the keywords |
| Pipeline.SortSixRows | main.py:175 | rows scoring 70, 45, 35, 60, 60 and 40 sort to first, fourth, fifth, second, sixth, third, the two rows scoring 60 keeping their order |
| Pipeline.SampleSorted | main.py:98-105 | the sorted sample lists TechNova AI, FinSolve, EduSmart, GreenFarm Ltd, DataWave and BuildMax with their e-mails and scores |
| Pipeline.SampleProcessed | main.py:98-105 | with or without deduplication, processing the sample gives the sorted table unchanged: those six rows in that order, scoring 70, 60, 60, 45, 40 and 35 |
| Pipeline.SampleValidFlags | main.py:98-105 | of the six sample leads only DataWave, with `random_email@`, gets Email Valid false |
| Pipeline.SampleReportCounts | main.py:66-71 | the report on the processed sample counts 6 leads, 5 valid e-mails, 0 High, 3 Medium (70, 60, 60) and 3 Low (45, 40, 35), with or without deduplication |

## Left out

- The Streamlit page, widgets, session state, downloads and messages (main.py:1-6, 107-202 apart from the processing at 163-177). They are presentation and I/O. The model's input is the table after upload.
- CSV reading and writing and the header normalisation at main.py:149-156. Input rows always have the three cells. A missing cell is `None`, which `fillna("")` turns into `""`.
- Non-string cells. Cells are strings or missing. `read_csv` gives a number for a numeric column and `fillna("")` (main.py:166) keeps it; the tool then raises `AttributeError` on a numeric Company in `enrich_lead` (main.py:27) and on a non-zero numeric Industry in `score_lead` (main.py:34), and keeps a numeric Email as that number when deduplicating. The model has no such cells.
- The timestamp line of the report (main.py:73), because it depends on the clock.
- The average score (main.py:68, 76), because it is a rounded floating-point mean.
- `highlight_score` (main.py:88-94) and the emoji in the labels. Tiers are the enumeration `Low | Medium | High`.
- Unicode meanings of `\w`, `isalnum`, `lower` and `isspace`. The model is ASCII-only.
- The branches of `generate_report` for a missing column (main.py:67, 69-70). A processed table always has every column.
- pandas row indices and `reset_index`. Rows are values, and order is the sequence order.
- Dedup.SortByScore: the tool's sort is not stable. The model fixes one order, stable among equal scores. Which of two equal-scored rows with the same e-mail or company survives is therefore specific to this model. `Dedup.DropPassesSpec` and `Dedup.SecondDeduplicateRemovesNothing` hold for any tie order. These are stated for the model's stable order only: `Dedup.SortOrderedIsIdentity`, `Dedup.DeduplicateSpec`'s equation with the keep-first reference and its top-row clause, `Dedup.DeduplicateIdempotent` (with an unstable sort a second `deduplicate` may reorder ties), `Pipeline.DeduplicatedProcessIsDropPasses`, `Reporter.TopFiveSpec` and the report's `top`, `Pipeline.SortSixRows`, `Pipeline.SampleSorted` and `Pipeline.SampleProcessed`.
- Pipeline.ProcessLeads: pandas adds the derived columns one at a time over the whole table (main.py:167-173). The model computes them row by row in one loop. The result is the same table.
- Pipeline.SampleSorted: FinSolve and EduSmart both score 60. The tool's sort may list them in either order. The model keeps their input order.
