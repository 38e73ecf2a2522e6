# France Travail job-data pipeline, modelled in Dafny

This project models the ingestion-and-enrichment pipeline of a job-market
dashboard. The pipeline pages through the France Travail offers API and
flattens each offer into a row. It classifies the job title, flags 63 skill
keywords in the description, and normalises the French experience and salary
labels. Then it drops rows it could not classify and removes ids the table
already holds. The remaining rows are appended to the `ft_jobdata` table and
written as a dated snapshot to an S3 bucket.

The model has one Dafny module per component:

- `Values`: decoded JSON values, which are also data-frame cells; column
  labels; rows as `map<Col, Value>`; and the Python exceptions as `Result` errors.
- `Text`: the pieces the regular expressions are made of (lower-casing, `\w`,
  `\s`, `\d`, leftmost substring search, digit runs, decimal formatting).
- `Classify`, `Skills`, `Experience`, `Salary`, `Dates` (src/transform_data.py):
  the elif chain is an ordered list of rules, first match wins. `skills`
  and `dates` update the frame in place (`Values.Frame`).
- `Calendar`, `Window`, `Api`, `Offers`, `Fetch` (src/get_data.py): dates and
  `strptime`/`strftime`, the search window, the two HTTP calls, flattening
  one offer, and the paging loop.
- `Store`, `Pipeline` (src/insert_data.py): `filter_new_rows`, the table and
  the bucket as classes, and `process_and_insert_data` step by step.

HTTP responses, the run date (`datetime.now()`), and whether the SQL insert and
the S3 upload go through are all parameters. `tokenApi(k)` and
`searchApi(k, url, token)` are the responses the k-th page's two requests receive.

Assumptions on text: Python's `lower()` and `\w` are Unicode-aware, but this
model folds only ASCII and Latin-1 capitals. It counts as word characters
ASCII letters and digits, `_`, and the Latin-1 and Latin Extended-A letters,
so `é` is a word character. `\d` is the ASCII digits.

Where the written design and the code disagree, the model follows the code,
with one configuration assumption. As written, src/insert_data.py uses
`conn_url` (line 30), `create_engine` (line 24) and `boto3` (line 67), but none
of its modules defines or imports them. So as written, every run that gets past
preparation raises NameError in `get_existing_ids` (src/insert_data.py:111),
before any row is filtered, inserted or uploaded. The model assumes instead
that these three names come from outside the three modules, and that the
database and S3 calls behave as the parameters say:


- A failed insert is rolled back, but the failure is only printed and the
  caller is never told. `to_sql` runs its own transaction, so a failing
  insert writes no row (`Store.Table.AppendToDb`).
- Under that assumption, an upload can raise after the append.
  `to_parquet` and `boto3.client` run before the `try` of `upload_to_s3`. If
  either raises, the run ends in an exception with the new rows already in the
  table (`Pipeline.PublishNewRows`). The `Put` and `PutFails` cases of
  `Store.UploadAttempt` likewise assume a working `boto3`.
- An annual range written larger amount first gives `min_salary` above
  `max_salary`: "Annuel de 50000 Euros à 40000 Euros" gives min 50000 and
  max 40000 (`Salary.ReversedAnnualRange`). The design says min ≤ avg ≤ max;
  the code only keeps the avg between the two.
- Normalisers are not total. `extract_experience` raises TypeError on a
  missing label. `classify_job_title` raises on a missing title. Flattening
  raises AttributeError on an offer with no `lieuTravail` or no `salaire`.
  Any such exception aborts the whole run before anything is written.
- No `competencie_N` column is ever added: the lookup uses the misspelled
  key `'competenices'`.
- `\b` treats a hyphen as a boundary, so "SAS-based" does flag `sas`.
- A failed token request is not fatal. The error text becomes the bearer
  token, and the page is skipped if the search request is then refused.
- An empty fetch raises KeyError on the `title` column.
- The date column is read with one format, the one `pd.to_datetime` infers
  from the first non-null cell. A column mixing "2024-01-01T14:03:21.000Z"
  with "2024-01-02" therefore raises ValueError (`Dates.MixedIsoColumnRaises`).
- A salary label that is a list is first tested by `pd.isna` as an array of
  flags. With one element the flag decides; with none or several, `or`
  raises ValueError (`Salary.LongListIsAmbiguous`).

## Model

| member | source | states |
|---|---|---|
| `Text.Lower` | src/transform_data.py:9 | lower-casing keeps the length, leaves no capital, turns each capital into its small letter (code point + 32) and leaves every other character as it was |
| `Text.LowerIdempotent` | src/transform_data.py:9 | lower-casing twice equals lower-casing once |
| `Text.Find` | src/transform_data.py:10 | `re.search` of a plain pattern finds the leftmost occurrence, or none exists |
| `Text.NatToStringRoundTrip` | src/get_data.py:77 | reading back the decimal text of a number gives the number |
| `Values.MapRows` | src/insert_data.py:80 | `apply` succeeds iff every row succeeds, keeps order and length, and otherwise fails with the first failing row's error |
| `Classify.FirstMatch` | src/transform_data.py:10-41 | finds the first rule in order whose alternative occurs, with no earlier rule matching |
| `Classify.ClassifyJobTitle` | src/transform_data.py:8-43 | 'Other' iff no rule matches the lower-cased title; otherwise the label of the first matching rule in source order |
| `Classify.ClassifyByFirstRule` | src/transform_data.py:8-43 | when rule j is the first to match, the title gets rule j's label |
| `Classify.ClassifyIgnoresCase` | src/transform_data.py:9-9 | titles with the same lower-cased form get the same category and the same chef flag |
| `Classify.BusinessAnalystWins` | src/transform_data.py:10-11 | "business analyst" anywhere always gives 'Business Analyst' |
| `Classify.ProductBeatsEngineer` | src/transform_data.py:14-15 | "product" without "business analyst" gives 'Data Product Owner' whatever else the title says |
| `Classify.BiBeforeEngineer` | src/transform_data.py:18-19 | "bi" anywhere, even inside "big", gives 'Consultant BI' once the three earlier rules miss |
| `Classify.IngenieurBigDataIsConsultantBi` | src/transform_data.py:18-31 | "Ingénieur Big Data" is 'Consultant BI', not 'Data Engineer' |
| `Classify.MissesEarlierRules` | src/transform_data.py:10-17 | a title without s, o, p or c misses the first three rules |
| `Classify.DataIsNeverOther` | src/transform_data.py:40-43 | a title containing "data" is never 'Other' |
| `Classify.ClassifyJobTitleChef` | src/transform_data.py:46-51 | 'Chef' iff the lower-cased title contains "chef", 'Other' otherwise |
| `Skills.CheckKeywordPresence` | src/transform_data.py:56-58 | only 'Y' or 'N'; 'Y' iff the lower-cased keyword occurs in the lower-cased description between two `\b` boundaries |
| `Skills.KeywordPresenceIsWholeWord` | src/transform_data.py:56-58 | for keywords that start and end with a word character, 'Y' iff an occurrence has no word character directly before or after it |
| `Skills.HyphenIsABoundary` | src/transform_data.py:58 | "SAS-based" flags `sas` |
| `Skills.LetterIsNoBoundary` | src/transform_data.py:58 | "Sasuke" does not flag `sas` |
| `Skills.SkillsAddOneColumnPerKeyword` | src/transform_data.py:71-94 | each row gains exactly one Y/N column per keyword, computed from that row's description; the other columns are unchanged |
| `Skills.KeywordColumn` | src/transform_data.py:93 | the column exists iff every description is a string, else AttributeError; then one 'Y'/'N' per row, 'Y' iff the lower-cased keyword occurs as a whole word in that row's lower-cased description |
| `Skills.WithSkills` | src/transform_data.py:71-94 | `skills` fails with AttributeError iff some description is not a string (and there is a keyword); otherwise the frame keeps its length |
| `Skills.WholeWordIff` | src/transform_data.py:58 | for a keyword with word characters at both ends, a `\b`-delimited occurrence is an occurrence with no word character on either side |
| `Skills.AssignKeywordColumns` | src/transform_data.py:92-94 | the loop leaves the frame equal to the skill specification, or raises and leaves it as it was |
| `Skills.AddSkillColumns` | src/transform_data.py:71-94 | `skills` on the fixed 63-keyword list, in place |
| `Skills.NoSkillsWithoutDescription` | src/transform_data.py:93 | a frame with a non-string description raises AttributeError |
| `Experience.MapExperience` | src/transform_data.py:97-98 | 'Y' iff the code is 'E', 'N' otherwise |
| `Experience.CountAt` | src/transform_data.py:107-108 | a count match starts at a digit |
| `Experience.SearchCount` | src/transform_data.py:107-108 | the leftmost `(\d+)\s*unit` match, or none anywhere |
| `Experience.ExtractExperience` | src/transform_data.py:101-116 | 'Débutant accepté' gives 0; otherwise N years wins over N months (N/12); no match gives None; never negative; non-string raises TypeError |
| `Experience.YearsRoundTrip` | src/transform_data.py:107-112 | "… N An(s) …" with no earlier digit gives N |
| `Experience.MonthsRoundTrip` | src/transform_data.py:108-114 | "… N Mois …" with no other digit gives N/12 |
| `Experience.YearsBeatMonths` | src/transform_data.py:111-114 | "1 An(s) et 6 Mois" gives 1 |
| `Salary.NumberAt` | src/transform_data.py:124-126 | `\d+(?:\.\d+)?` reads a non-negative number exactly when a digit is there |
| `Salary.SalaryAt` | src/transform_data.py:124-126 | a match needs the lead and " Euros" |
| `Salary.SearchSalary` | src/transform_data.py:124-126 | the leftmost match of the salary pattern, or none anywhere |
| `Salary.Yearly` | src/transform_data.py:128-137 | bounds times the period factor; a missing upper bound makes max = min; avg is their mean and lies between them |
| `Salary.ExtractSalary` | src/transform_data.py:120-138 | None/NaN or no match gives three Nones; monthly (×12) wins over annual; the three are all set or all None, with avg between min and max; a list gives three Nones iff it holds exactly one element and that one is null, ValueError iff it holds none or several, TypeError otherwise; any other non-string raises TypeError |
| `Salary.OneItemList` | src/transform_data.py:121-124 | `[None]` gives three Nones; a one-item list with a non-null, non-list item raises TypeError |
| `Salary.LongListIsAmbiguous` | src/transform_data.py:121 | a list of two or more items, one of which is not a list, raises ValueError (ambiguous truth value) |
| `Salary.EmptyListIsAmbiguous` | src/transform_data.py:121 | an empty list raises ValueError (truth value of an empty array) |
| `Salary.MonthlyIsTwelveTimesAnnual` | src/transform_data.py:128-133 | a monthly label's columns are twelve times the annual ones |
| `Salary.NoEurosNoSalary` | src/transform_data.py:124-135 | a label without " Euros" gives three Nones |
| `Salary.MonthlyRangeRoundTrip` | src/transform_data.py:124-137 | "Mensuel de A Euros à B…" gives 12A, 12B and 6(A+B) |
| `Salary.AnnualSingleRoundTrip` | src/transform_data.py:126-137 | "Annuel de A Euros" gives A, A, A |
| `Salary.AnnualRangeRoundTrip` | src/transform_data.py:126-137 | "Annuel de A Euros à B…" gives A, B and their mean, in the order written |
| `Salary.ReversedAnnualRange` | src/transform_data.py:131-133 | "Annuel de A Euros à B" with A > B gives min above max |
| `Salary.FractionIsRatio` | src/transform_data.py:124 | the digits after the point are worth the number they spell over 10 to their count |
| `Salary.NumberOfDecimal` | src/transform_data.py:124 | `A.ds` followed by no digit reads back as A plus the digits of ds over 10 to the number of those digits |
| `Salary.MonthlyDecimalRangeRoundTrip` | src/transform_data.py:124-137 | "Mensuel de A.x Euros à B.y…" gives 12 times each decimal amount and six times their sum |
| `Salary.MonthlyPointZeroRoundTrip` | src/transform_data.py:124-137 | "Mensuel de A.0 Euros à B.0 Euros" gives 12A, 12B and 6(A+B) |
| `Calendar.BeforeTotal` | src/get_data.py:142-143 | date order is total and antisymmetric |
| `Calendar.YearText` | src/get_data.py:146 | `%Y` of a year from 1000 on is four digits that read back as the year |
| `Calendar.FormatYmd` | src/transform_data.py:68 | `%Y-%m-%d` of a four-digit year is ten characters, dashes at 4 and 7, whose digit fields read back as year, month and day |
| `Calendar.ParseIsoDate` | src/transform_data.py:61 | an accepted ISO day is a valid date written as ten characters with dashes at 4 and 7 |
| `Calendar.IsoRoundTrip` | src/transform_data.py:68 | `%Y-%m-%d` of a date read back as ISO gives the date |
| `Calendar.IsoCanonical` | src/transform_data.py:68 | an ISO date with no leading-zero year is reprinted unchanged |
| `Dates.ToDatetime` | src/transform_data.py:61 | NaT for None; the day of an ISO timestamp iff that day lies in the pandas nanosecond range (after 1677-09-21, up to 2262-04-11); ValueError otherwise |
| `Dates.OutOfRangeDayRaises` | src/transform_data.py:61 | a well-formed timestamp whose day lies outside that range raises "Out of bounds nanosecond timestamp" |
| `Dates.SplitDate` | src/transform_data.py:65-68 | adds exactly the four date columns, the day as `%Y-%m-%d` that reads back as the date plus its year, month and day; NaT empties all four; other columns unchanged |
| `Dates.ToDatetimeAs` | src/transform_data.py:61 | a cell parses under the column's format iff it parses on its own and, when it has a time part, that part has the column's shape (time, fraction, `Z`); a mismatch is ValueError |
| `Dates.WithDates` | src/transform_data.py:60-69 | the step succeeds iff every cell parses under the format of the column's first non-null cell; one bad cell fails the whole step with ValueError; otherwise the frame keeps its length |
| `Dates.OneFormatPerColumn` | src/transform_data.py:61 | the step succeeds iff every cell parses and every two non-null cells have the same time shape |
| `Dates.MixedIsoColumnRaises` | src/transform_data.py:61 | a column holding "YYYY-MM-DDT14:03:21.000Z" and then "YYYY-MM-DD" raises |
| `Dates.AddDateColumns` | src/transform_data.py:60-69 | `dates` in place: the frame becomes the dated frame, or stays as it was when parsing raises |
| `Dates.DateColumnsAgree` | src/transform_data.py:60-69 | each row gets the day as `%Y-%m-%d` plus its year, month and day; NaT empties all four; other columns are unchanged |
| `Dates.SplitDateIsDated` | src/transform_data.py:65-68 | one row's date split agrees with its parsed date |
| `Dates.ParsesApiTimestamp` | src/transform_data.py:61 | an API timestamp `YYYY-MM-DDTHH:MM:SS.fffZ` parses to its day |
| `Window.MonthField` | src/get_data.py:137-139 | `%m` reads a month from 1 to 12 followed by '-' |
| `Window.DayField` | src/get_data.py:137-139 | `%d` reads a day from 1 to 31 |
| `Window.Strptime` | src/get_data.py:137-139 | a successful parse is a valid date; every failure is ValueError |
| `Window.BeginningEndingDates` | src/get_data.py:135-149 | both dates parsed, first one first; the earlier becomes the beginning and the later the end, both as `YYYY-MM-DDT00:00:00Z` |
| `Window.BeginningEndingSymmetric` | src/get_data.py:141-149 | swapping the arguments changes nothing |
| `Window.BeginningNotAfterEnd` | src/get_data.py:141-149 | the beginning is the earlier of the two given dates |
| `Window.Timestamp` | src/get_data.py:146-147 | the window bound is the day, read back as ISO, followed by `T00:00:00Z` |
| `Window.StrptimeRoundTrip` | src/get_data.py:137-146 | `strptime` reads back what `strftime` wrote |
| `Window.StrptimeUnpadded` | src/get_data.py:138 | "2024-1-5" parses to 5 January 2024 |
| `Window.StrptimeRefusesFebruary30` | src/get_data.py:138 | "2023-02-30" is a ValueError |
| `Api.GetToken` | src/get_data.py:14-41 | status 200 gives the `access_token` field (KeyError if absent); any other status gives the error text |
| `Api.SearchJobOffers` | src/get_data.py:62-66 | only 200 and 206 give the decoded body; any other status gives the error text |
| `Api.ErrorText` | src/get_data.py:66 | the error string starts with "Erreur : " and ends with the response text |
| `Api.SearchUrl` | src/get_data.py:45-49 | the URL starts with the search endpoint, the range and the keywords, so it always carries them |
| `Api.DatesOnlyWithBoth` | src/get_data.py:45-49 | the URL carries `minCreationDate`/`maxCreationDate` only when both dates are given |
| `Offers.MisspelledKeyMisses` | src/get_data.py:105 | the lookup of `'competenices'` always gives its default |
| `Offers.Simplify` | src/get_data.py:84-98 | each simplified key holds the offer's field under its API name, or None when absent |
| `Offers.CompetencyList` | src/get_data.py:106 | only `competencie_N` columns come from a competency list |
| `Offers.CompetencyListFails` | src/get_data.py:106 | the comprehension succeeds iff every item has a `libelle`; otherwise it raises at the first item without one: KeyError for an object, TypeError for anything else |
| `Offers.CompetencyListColumns` | src/get_data.py:106 | a comprehension that succeeds has exactly the columns `competencie_{i+1}`, one per item, each holding item i's `libelle` |
| `Offers.CompetencyColumns` | src/get_data.py:105-106 | the default empty dict gives no columns |
| `Offers.BaseRow` | src/get_data.py:111-126 | a flat row has exactly the fourteen base columns |
| `Offers.Flatten` | src/get_data.py:84-129 | flattening succeeds iff the offer is an object with dicts under `lieuTravail` and `salaire`; otherwise AttributeError |
| `Offers.FlattenCopiesFields` | src/get_data.py:84-128 | each base column is copied from its source field; location from `lieuTravail`, salary from `salaire.libelle`; no competency columns |
| `Offers.CompetenciesWouldBeColumns` | src/get_data.py:106 | under the correct key, a competency would have become a column |
| `Fetch.PageOffsets` | src/get_data.py:73-77 | page k is visited iff 50k < max_results, i.e. ceil(max_results/50) pages and none when max_results ≤ 0 |
| `Fetch.RangeValue` | src/get_data.py:77 | the range `i-(i+49)`: two digit runs around a dash that read back as i and i + 49 |
| `Fetch.OffersIn` | src/get_data.py:81 | a missing `resultats` gives no offers; a list gives its items |
| `Fetch.FlattenAllRows` | src/get_data.py:83-129 | the page's rows exist iff every offer flattens; then one row per offer, in order, each the flattening of that offer; otherwise the error is the AttributeError of the first offer that fails |
| `Fetch.FlattenEachRows` | src/get_data.py:83-129 | for any per-offer flattening, success iff every offer succeeds, the rows in offer order, and a failure carries the error of the first failing offer |
| `Fetch.FlattenOffers` | src/get_data.py:83-129 | the loop over a page's offers yields the page's flattening specification: all rows in order, or the first offer's error |
| `Fetch.PageRows` | src/get_data.py:77-129 | a page that goes through gives rows with exactly the fourteen base columns |
| `Fetch.Collect` | src/get_data.py:75-129 | the loop's result is Ok iff every page is |
| `Fetch.Pages` | src/get_data.py:75-129 | the first n pages go through iff each page k < n does |
| `Fetch.FetchPage` | src/get_data.py:77-129 | one pass of the loop body equals the page specification |
| `Fetch.GetOffersData` | src/get_data.py:69-133 | the loop returns the pages' rows in page order, or the first exception |
| `Fetch.CollectAbort` | src/get_data.py:75-129 | an exception on an early page is the run's result |
| `Fetch.FlattenAbort` | src/get_data.py:83-129 | an exception on an early offer is the page's result |
| `Fetch.RefusedPageIsSkipped` | src/get_data.py:79-80 | a page answered with a status other than 200/206 adds no rows and does not abort |
| `Fetch.FlattenedRowsAreFlat` | src/get_data.py:84-128 | every row flattened from a page has exactly the fourteen base columns |
| `Fetch.CollectExtends` | src/get_data.py:129 | more pages only append rows |
| `Fetch.CollectFirstError` | src/get_data.py:75-129 | the run fails iff some page fails, with the first failing page's error |
| `Fetch.CollectKeepsRows` | src/get_data.py:129 | the run's rows are exactly the rows of the successful pages |
| `Fetch.FetchedRowsAreFlat` | src/get_data.py:69-133 | every fetched row has exactly the fourteen base columns |
| `Fetch.PagesExtend` | src/get_data.py:75-129 | the rows of the first m pages are a prefix of those of n ≥ m pages |
| `Fetch.FirstFailingPage` | src/get_data.py:75-129 | the fetch fails exactly at the first failing page |
| `Fetch.StringResultsRaise` | src/get_data.py:81-84 | a non-empty string under `resultats` raises AttributeError |
| `Store.Ids` | src/insert_data.py:29-33 | the id set holds exactly the ids of the rows |
| `Store.FilterNewRows` | src/insert_data.py:41-42 | a row is kept iff it is in the input and its id is not known |
| `Store.FilterKeepsNewRows` | src/insert_data.py:41-42 | the filter keeps exactly the rows whose id is not known, each as often as it occurs |
| `Store.FilterIsSubsequence` | src/insert_data.py:41-42 | the result is a subsequence of the input, so order is kept |
| `Store.FilterOfConcat` | src/insert_data.py:41-42 | filtering distributes over concatenation |
| `Store.FilterTwice` | src/insert_data.py:41-42 | filtering with A then B is filtering with A ∪ B |
| `Store.FilterIdempotent` | src/insert_data.py:41-42 | filtering twice with the same ids is filtering once |
| `Store.FilterWithBatchIds` | src/insert_data.py:41-42 | filtering with the known ids plus the batch's ids leaves nothing |
| `Store.RerunFindsNothingNew` | src/insert_data.py:111-115 | once a batch's new rows are stored, the same batch has nothing new |
| `Store.DuplicatesInBatchSurvive` | src/insert_data.py:41-42 | two rows with the same new id in one batch both survive |
| `Store.FilteredAreNew` | src/insert_data.py:41-42 | no kept row carries a known id |
| `Store.Table.ExistingIds` | src/insert_data.py:29-33 | `SELECT id` gives exactly the stored ids |
| `Store.Committed` | src/insert_data.py:44-50 | an insert commits all or nothing: the whole batch when it goes through, no row when it fails |
| `Store.Table.AppendToDb` | src/insert_data.py:44-50 | the table grows by the whole batch or stays as it was (rolled back); the caller is not told which |
| `Store.Bucket.UploadToS3` | src/insert_data.py:53-73 | a put that goes through replaces the object under the key; a failed put leaves the bucket unchanged and is swallowed; a failure before the `try` leaves it unchanged and raises |
| `Pipeline.GetData` | src/get_data.py:154-169 | the window ordered, then the pages fetched; every row has the fourteen base columns |
| `Pipeline.ClassifyRow` | src/insert_data.py:80-81 | sets `job_category` and `chef` from a string title; a non-string title raises |
| `Pipeline.DropOther` | src/insert_data.py:82 | keeps exactly the rows not classified 'Other' |
| `Pipeline.StampRunDate` | src/insert_data.py:88-89 | every row gains `extracted_date` holding the run date; nothing else changes |
| `Pipeline.RenameColumns` | src/insert_data.py:91-98 | a column the rename does not name keeps its presence and value |
| `Pipeline.RenameAll` | src/insert_data.py:91-98 | the rename keeps the row count and leaves every fixed column unchanged |
| `Pipeline.RenameMovesColumn` | src/insert_data.py:91-98 | each renamed column's value moves to its new name and the old name is gone |
| `Pipeline.RenamesAreDistinct` | src/insert_data.py:91-98 | the eight renames are distinct, and no new name is an old one |
| `Pipeline.RenameSkillColumnsMoves` | src/insert_data.py:91-98 | exactly the eight spaced skill columns move to their underscore names; every other column is unchanged |
| `Pipeline.MapExperienceColumn` | src/insert_data.py:100 | every flag becomes 'Y' iff it was 'E', 'N' otherwise; nothing else changes |
| `Pipeline.ExperienceRow` | src/insert_data.py:101 | a string label gives a non-negative number of years or NaN, other columns unchanged; a non-string raises TypeError |
| `Pipeline.SalaryRow` | src/insert_data.py:102-108 | min/max/avg equal the `extract_salary` outputs for the row's label and agree with each other; `salary` and `description` are dropped; the rest is unchanged; a label that raises makes the row raise with the same TypeError or ValueError |
| `Pipeline.Enriched` | src/insert_data.py:84-108 | the column steps add and drop no row |
| `Pipeline.Prepared` | src/insert_data.py:77-108 | an empty fetch raises KeyError('title'); otherwise no more rows than were fetched |
| `Pipeline.SnapshotKey` | src/insert_data.py:116 | the key is `jobdata_` + the run date + `.parquet` |
| `Pipeline.EnrichFrame` | src/insert_data.py:84-108 | the column steps in place give the enriched frame, or the first step's exception |
| `Pipeline.DatesKeep` | src/insert_data.py:84 | `dates` keeps every other column |
| `Pipeline.SkillsKeep` | src/insert_data.py:85 | `skills` keeps every fixed column |
| `Pipeline.ColumnStepsKeep` | src/insert_data.py:88-100 | stamp, rename and remap keep every untouched column |
| `Pipeline.ExperienceKeeps` | src/insert_data.py:101 | the experience step keeps every other column |
| `Pipeline.SalaryKeeps` | src/insert_data.py:102-108 | the salary step keeps every other column |
| `Pipeline.EnrichedKeeps` | src/insert_data.py:84-108 | the enrichment keeps the id, title and classification of every row |
| `Pipeline.StampedAndMapped` | src/insert_data.py:88-100 | after stamping and remapping, each row has the run date and a Y/N flag |
| `Pipeline.FinishedRowOf` | src/insert_data.py:100-108 | one row through the experience and salary steps is finished |
| `Pipeline.FinishedRowsFinished` | src/insert_data.py:100-108 | every row through the experience and salary steps is finished |
| `Pipeline.EnrichedRowsFinished` | src/insert_data.py:84-108 | every enriched row: no salary label, no description, the run date, flag Y/N, experience ≥ 0 or None, salary cells all set (min ≤ avg ≤ max up to order) or all None |
| `Pipeline.PreparedRowsFinished` | src/insert_data.py:80-108 | every row reaching dedup is finished |
| `Pipeline.PreparedHasNoOther` | src/insert_data.py:80-108 | no row reaching dedup is classified 'Other' |
| `Pipeline.PrepareFrame` | src/insert_data.py:77-108 | classify, drop 'Other', enrich: the prepared frame, with no 'Other' row and every row finished |
| `Pipeline.FilterKeepsNoOther` | src/insert_data.py:111-112 | the filter lets no 'Other' row through |
| `Pipeline.FilterKeepsFinished` | src/insert_data.py:111-112 | the filter keeps only finished rows |
| `Pipeline.AppendedRows` | src/insert_data.py:114-115 | an append adds exactly its rows at the tail |
| `Pipeline.PublishNewRows` | src/insert_data.py:111-118 | with no new row nothing happens; otherwise the new rows go to the table (all or none) and, only when the put goes through, to `jobdata_<run date>.parquet`; an upload failing before its `try` raises after the append |
| `Pipeline.ProcessAndInsertData` | src/insert_data.py:75-118 | an exception while fetching or preparing leaves table and bucket unchanged; after that the table grows by the committed new rows, the bucket changes only on a successful put, and the run fails only when the upload raises before its `try`, with the table already extended; stored rows never include 'Other', a known id or an unfinished row |

## Left out

- HTTP: the token and search requests, headers and JSON decoding are not modelled. Each request is a response passed in as a parameter.
- SQL: `get_connection`, `query` and the engine are not modelled. `create_engine` and `conn_url` are not defined in src/insert_data.py, so as written `get_existing_ids` raises NameError; the model assumes both are supplied from outside. The table is an in-memory sequence of rows. Whether an insert goes through is a parameter, and an insert writes all of its rows or none.
- Parquet serialisation and boto3 are not modelled. `boto3` is never imported in src/insert_data.py; the model assumes it is supplied from outside. How an upload goes is a parameter with three cases: the put goes through, the put fails inside the `try`, or `to_parquet`/`boto3.client` raise before it. What the bucket holds is rows, not bytes.
- `datetime.now()` is a parameter (`runDate`). The entry points `full_charge`, `last_month_charge` and `requested_date_charge` are thin wrappers that choose the window from the clock and pass `max_results = 3000` and `'data'`. They are not modelled.
- `.env` loading and the `print` messages are not modelled.
- `Dates.ToDatetime`: accepts only a `YYYY-MM-DD` prefix, optionally followed by `THH:MM:SS`, a fraction and `Z`. `pd.to_datetime` accepts many more formats, and time zones are not modelled. The nanosecond range is checked by day: 1677-09-21 is rejected whole and 2262-04-11 accepted whole, although pandas accepts part of the first and rejects part of the second.
- `Salary.MonthlyDecimalRangeRoundTrip`, `Salary.MonthlyPointZeroRoundTrip`: the amounts are given as reals tied to the label's digits by a precondition, rather than written out in the conclusion.
- `Text.Lower`: folds only ASCII and Latin-1 capitals, not all of Unicode. `\w` is restricted to ASCII, Latin-1 and Latin Extended-A letters.
- `Salary.ExtractSalary`: an empty list gives ValueError, as with NumPy 2.2 and later. Older NumPy versions give a false flag instead, and then `re.search` raises TypeError.
- `Dates.WithDates`: format inference is modelled only for the timestamp forms `Dates.ToDatetime` accepts. A format is a time shape: with or without a time, a fraction and a `Z`.
- Salaries and experience years are exact reals. Float rounding is not modelled.
- Inside `get_data`, the unused timestamp and the commented-out Parquet export are not modelled.
- The dashboard pages are not part of this model. Their snapshot lookup expects `jobdata_` followed by eight digits, which cannot match the dashed key `jobdata_YYYY-MM-DD.parquet` written here.
