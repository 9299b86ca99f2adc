# Renewal-message pipeline, modelled in Dafny

This project models the core of a small Python tool that reads a sales
spreadsheet and turns it into one renewal reminder per customer. The tool is
written with pandas and gspread.

The pipeline has these steps:

1. The "Vendedores" range and the customer sheet are read as lists of rows of text.
2. The customer sheet is cleaned to its desired columns:
   - INDICATIVO and CONTACTO are joined into TELEFONO;
   - WSP and PLAT. are renamed to VENDEDOR and PLATAFORMA;
   - VALOR is parsed as a number and CORTE as a flag;
   - only the rows with `VALOR > 0` and no CORTE are kept.
3. The cleaned table is split into one table per seller, keyed by SIGLAS.
4. Each seller's table goes through three steps:
   - it is filtered to the requested day (DIAS);
   - it is grouped first per service (seller, customer, platform, phone), then per customer;
   - each customer gets a NOMBRE and a MENSAJE.
5. The per-seller results are concatenated.
6. The dispatcher estimates 17 seconds per customer and shows the total as minutes and seconds.

A DataFrame is modelled as `Tables.Table`:

- an ordered list of distinct column names;
- a list of rows, each a map from column name to `Cell`. A cell is `Text`, `Flag` or pandas' `Missing`.

Python's insertion-ordered dict is `Tables.Dict`. Each exception the code
raises is an `Error` value. That value keeps the exception class the caller
sees and the chain of `try` blocks that re-raised it. Operations that assign
columns in place are methods on the class `Tables.Frame`.

Each stage is a function that returns `Result<Table, Error>`. Its contract
covers two things:

- when it fails, and with which exception;
- which columns the result has.

A row-wise reference lemma says what each result row holds. The grouping is
proved against sorting: pandas' `groupby` orders its keys, and the model
proves the keys come out strictly increasing and are exactly the keys that
occur in the rows.

Four core functions change state step by step, and each is a method proved
equal to its specification function:

- `Processing.ProcessDataByType` is the loop of `process_data_by_type` over the users of a dict. Its body is `Processing.ProcessUser`.
- `Phone.AddPhoneColumn` assigns `df['TELEFONO']` in place.
- `Processing.AddMessageColumn` assigns `df['NOMBRE']` and `df['MENSAJE']` in place.
- `Loader.GetDataByRangeName` reassigns `df.columns` in place (`Tables.Frame.Rename`) before adding the phone column.

The frame they change is the class `Tables.Frame`. The dict comprehension of
`filter_data_by_user_type` is the recursive function `Filtering.Partition`,
and `pd.concat` is the function `Customers.Concat`.

Modules:

- **Seqs**, **Text**, **Sorting**: generic helpers.
  - Text holds Python's `str.strip`, `str.split()[0]`, string ordering and the decimal subset of `float`.
  - Sorting holds an insertion sort proved to give a strictly sorted permutation.
- **Tables**: the table and dict model.
- **Phone**, **Cleaning**, **Filtering**, **Processing**: the core modules, one per source file.
- **Loader**: the named-range reader.
- **Customers**: the top-level `get_info_of_customers`.
- **Timing**: the time estimate of `main.py`.

The two gspread calls are replaced by the values they return:

- `get_all_values()` becomes the parameter `data`;
- `worksheet.get('Vendedores')` becomes `sellersRange`.

`data.py` holds an older copy of the core. Its `add_phone_column`,
`clean_data`, the three filters, `process_data`, `add_message_column` and
`process_data_by_type` are identical to the module versions, so the same
members model them. The members prefixed `Legacy` model the two functions
that differ: `get_dataframe_by_range_name` and `get_info_of_customers`.

## Model

| member | source | states |
|---|---|---|
| Phone.ComposePhone | utils/functions.py:18-28 | succeeds exactly when both INDICATIVO and CONTACTO are columns; the result is a well-formed table |
| Phone.PhoneMissingColumns | utils/functions.py:18-22 | without a source column, the KeyError lists exactly the missing ones, in the order INDICATIVO, CONTACTO |
| Phone.PhoneRows | utils/functions.py:24-26 | same row count; each row's TELEFONO is `str(INDICATIVO) + ' ' + str(CONTACTO)`; both sources are dropped; every other cell is unchanged |
| Phone.PhoneColumns | utils/functions.py:25-26 | the columns are the old ones without INDICATIVO and CONTACTO, with TELEFONO appended when it was not already there |
| Phone.AddPhoneColumn | utils/functions.py:18-28 | the in-place version returns what ComposePhone does; the frame gains TELEFONO only on success, so a missing column leaves it untouched |
| Tables.Frame.Assign | utils/functions.py:25 | `df[name] = values` sets one cell per row and appends the column if it is new |
| Tables.Frame.Rename | modules/data_loader.py:95 | assigning `df.columns` relabels each column by position, keeping every cell |
| Tables.Select | modules/data_filtering.py:34 | boolean indexing on `col == v` keeps the columns and the rows the mask selects, in order; the mask selects nothing for a missing `v`, as NaN equals nothing |
| Tables.SelectText | modules/data_filtering.py:34 | a selection keeps only rows of its input, so columns that held text still do |
| Tables.RenameColumn | modules/data_cleaning.py:37-38 | renaming one column keeps its position and its cells and changes nothing else |
| Tables.Project | modules/data_cleaning.py:33 | `df[cols]` has exactly the columns `cols`, in that order, with the cells of the original |
| Tables.DropColumns | modules/data_cleaning.py:62 | dropping columns removes them from the column list and from every row and keeps the rest |
| Tables.FromSheet | modules/data_loader.py:88 | `DataFrame(body, columns=header)` puts cell `body[i][j]` under `header[j]` in row `i` |
| Tables.FromSheetText | modules/data_processing.py:137 | every cell of a frame built from the sheet's values is text |
| Tables.RelabelSheet | modules/data_loader.py:88-95 | building a frame and then renaming its columns equals building it with the new names |
| Tables.MapPrefixStep | modules/data_processing.py:96-100 | one more key of the loop: a failing step is the loop's final error, a successful one stores its result under that key |
| Tables.MapPrefixAllOk | modules/data_processing.py:94-102 | the loop succeeds exactly when the step succeeds on every entry |
| Tables.MapPrefixFirstFailure | modules/data_processing.py:96-102 | a failing loop fails with the error of the first key, in dict order, whose step fails; every earlier key succeeded |
| Tables.MapPrefixErrPropagates | modules/data_processing.py:94-102 | once a prefix of the loop has failed, running more keys does not change the error |
| Text.Strip | modules/data_loader.py:95 | `str.strip()` removes an all-whitespace prefix and suffix and leaves a result with no whitespace at either end |
| Text.StripUnpadded | modules/data_loader.py:95 | a name without surrounding whitespace is unchanged by strip |
| Text.FirstToken | modules/data_processing.py:63 | `split()[0]` is the first maximal non-whitespace run, preceded only by whitespace |
| Text.ParsedPositive | modules/data_cleaning.py:46-61 | a parsed amount is `> 0` exactly when it has no leading minus and shows a non-zero digit |
| Text.StrLtTotal | modules/data_processing.py:33 | Python's string `<` is total on distinct strings (with StrLtIrreflexive and StrLtTransitive, a strict order) |
| Sorting.SortCorrect | modules/data_processing.py:33-40 | sorting distinct keys under a strict total order gives a strictly increasing permutation |
| Sorting.SortedUnique | modules/data_processing.py:33-40 | two strictly sorted sequences with the same elements are equal, so groupby's order is determined |
| Cleaning.Clean | modules/data_cleaning.py:25-68 | an empty table fails with the "Input DataFrame is empty" ValueError; a non-empty table lacking desired columns fails with the KeyError listing them; a failure is a KeyError only then, and never a sheets error; on success VALOR is gone, CORTE remains and is false in every row |
| Cleaning.ShapeAndConvert | modules/data_cleaning.py:31-68 | every failure inside the `try` is re-raised as a ValueError from the cleaning stage; on success VALOR is gone and every CORTE is false |
| Cleaning.CleanThroughConvert | modules/data_cleaning.py:25-68 | once the checks pass, the shaped table carries the raw VALOR cells, and the clean (intended and as written) is its conversion stage with any failure re-raised |
| Cleaning.CleanAmounts | modules/data_cleaning.py:41-68 | with the phone sources, VALOR and CORTE desired, the clean succeeds exactly when every VALOR cell is empty (NA, dropped) or read by `float`; otherwise it fails with the VALOR stage's error re-raised by the outer handler |
| Cleaning.CleanStages | modules/data_cleaning.py:25-68 | a successful clean had rows and every desired column, and is the conversion stage applied to the shaped table |
| Cleaning.Shape | modules/data_cleaning.py:32-38 | projection and phone step succeed exactly when both phone sources are desired; their failure is a KeyError; VALOR and CORTE survive exactly when desired |
| Cleaning.Phoned | modules/data_cleaning.py:33-34 | after projection and the phone step, the columns are the desired ones plus TELEFONO, minus the two sources |
| Cleaning.ApplyColumnMapping | modules/data_cleaning.py:37-38 | renaming WSP and PLAT. keeps every other column and every row |
| Cleaning.FirstBadAmount | modules/data_cleaning.py:41-48 | finds the first VALOR cell refused under the intended reading, where an empty cell is NA: every earlier cell converts, and it is refused |
| Cleaning.KeepFilter | modules/data_cleaning.py:60-64 | the mask needs VALOR and CORTE (else KeyError); the result drops VALOR and keeps only rows whose CORTE is false |
| Cleaning.ConvertAndFilter | modules/data_cleaning.py:41-64 | succeeds exactly when VALOR and CORTE exist and every VALOR cell is empty or read by `float`; a failure is a ValueError, from the VALOR stage exactly when some amount is refused; on success VALOR is gone and every kept CORTE is false |
| Cleaning.ConvertRows | modules/data_cleaning.py:59-62 | the kept rows are exactly the converted rows passing the mask, in order, each without VALOR |
| Cleaning.ConvertColumns | modules/data_cleaning.py:62 | the result columns are the input columns without VALOR |
| Cleaning.KeepRawText | modules/data_cleaning.py:41-61 | under the intended reading, a row is kept exactly when VALOR is non-empty, positive after removing '$', and CORTE is "FALSE" or empty |
| Cleaning.AmountAsWritten | modules/data_cleaning.py:44-46 | as written, an empty VALOR cell is refused with a TypeError; every other cell is read as under the intended reading |
| Cleaning.ConvertAsWritten | modules/data_cleaning.py:41-64 | as written: a success agrees with ConvertAndFilter, it fails whenever that does, and an empty VALOR cell always fails it at the VALOR stage |
| Cleaning.CleanAsWritten | modules/data_cleaning.py:25-68 | as written: a success agrees with Clean, and it fails whenever Clean does |
| Cleaning.CleanBlankValorAsWritten | modules/data_cleaning.py:44-48 | as written, one empty VALOR cell fails the whole clean with the VALOR stage's error, re-raised by the outer handler |
| Cleaning.ValorCounterexample | modules/data_cleaning.py:44-48 | for the amounts "" and "10", neither cut, the conversion as written fails, while the intended one keeps exactly one row |
| Cleaning.ShapeRows | modules/data_cleaning.py:32-57 | each shaped row is the reference ShapedRow of the raw row |
| Cleaning.CleanRows | modules/data_cleaning.py:32-66 | the cleaned rows are the raw rows passing the keep test, in order, each turned into its CleanedRow |
| Cleaning.CleanColumnsDesired | modules/data_cleaning.py:33-62 | with the configured desired columns, the result columns are VENDEDOR, PLATAFORMA, CORTE, CLIENTE, PANTALLA, DIAS, TELEFONO |
| Cleaning.CleanedRowKeepsText | modules/data_cleaning.py:31-62 | every cell the cleaner writes except the CORTE flag is text when the raw row's cells are |
| Cleaning.CleanedRowDesired | modules/data_cleaning.py:33-62 | a cleaned row holds CLIENTE, PANTALLA and DIAS as read; the joined TELEFONO; VENDEDOR from WSP; PLATAFORMA from PLAT.; and CORTE as a flag |
| Filtering.FilterByUserType | modules/data_filtering.py:21-38 | errors: an unknown mode is a ValueError, and a missing data or reference column a KeyError; a reseller table without SIGLAS fails inside the `try`; success exactly when none of these happen |
| Filtering.PartitionKeys | modules/data_filtering.py:33-36 | the dict's keys are the SIGLAS values, deduplicated, in first-appearance order |
| Filtering.PartitionLastWins | modules/data_filtering.py:33-36 | for a repeated SIGLAS, the entry is the selection for the last row that carries it |
| Filtering.UserTypeKeys | modules/data_filtering.py:33-36 | keys are exactly the SIGLAS values (in order when distinct); each entry keeps the data's columns |
| Filtering.SelectMembers | modules/data_filtering.py:34 | a row is selected exactly when it is a data row holding `v` in the column and `v` is not missing |
| Filtering.UserTypeEntry | modules/data_filtering.py:34 | a seller's entry holds exactly the data rows whose VENDEDOR (or TELEFONO) equals the seller's reference cell, in order; a missing reference cell matches no row |
| Filtering.UserTypeUnmatched | modules/data_filtering.py:33-36 | a seller with no matching rows still gets an entry, and the entry is empty |
| Filtering.FilterByDay | modules/data_filtering.py:55-61 | fails with a KeyError on DIAS exactly when DIAS is absent; keeps the columns and never adds rows |
| Filtering.DayMembers | modules/data_filtering.py:59 | a row is kept exactly when it is a data row with DIAS equal to the day |
| Filtering.DayIdempotent | modules/data_filtering.py:59 | filtering twice by the same day is filtering once |
| Filtering.DayKeepsOrder | modules/data_filtering.py:59 | filtering distributes over concatenation of rows, so the original order is kept |
| Filtering.FilterByVendor | modules/data_filtering.py:63-65 | the missing VENDEDOR column is the only failure; never more records than rows |
| Filtering.VendorMembers | modules/data_filtering.py:63-65 | a record is returned exactly when it is a row whose VENDEDOR equals the initials |
| Filtering.VendorAgreesWithUserType | modules/data_filtering.py:63-65 | the vendor filter returns the same rows as that seller's entry of the user-type split |
| Processing.ServiceOrder | modules/data_processing.py:33 | the first-level groupby key order is a strict total order |
| Processing.CustomerOrder | modules/data_processing.py:40 | the second-level groupby key order is a strict total order |
| Processing.SameOwnerByPlatform | modules/data_processing.py:33-40 | within one customer, services are ordered by platform |
| Processing.ProcessData | modules/data_processing.py:25-42 | on a table whose group cells are text, fails exactly when group columns are missing, with the KeyError listing them in order; otherwise has columns VENDEDOR, CLIENTE, TELEFONO, SERVICIO |
| Processing.Aggregate | modules/data_processing.py:33-40 | one output row per customer group, in group order, each built from that group's services |
| Processing.ServicesSorted | modules/data_processing.py:33-34 | first-level groups are strictly increasing and are exactly the keys occurring in some row |
| Processing.CustomersSorted | modules/data_processing.py:40 | second-level groups are strictly increasing and are exactly the owners of some row |
| Processing.ServicesOfSorted | modules/data_processing.py:40 | a customer's services are exactly its occurring services, with strictly increasing platforms |
| Processing.ScreensInMembers | modules/data_processing.py:33-34 | a screen name is listed for a service exactly when some row of that service has it as PANTALLA |
| Processing.ScreensUnique | modules/data_processing.py:33-34 | `unique()` lists each such screen once, in first-appearance order |
| Processing.ProcessRows | modules/data_processing.py:33-40 | each output row has its customer's VENDEDOR, CLIENTE and TELEFONO, and a SERVICIO that joins the `*platform*: _screens_` labels with the separator |
| Processing.MessageAdded | modules/data_processing.py:59-75 | no CLIENTE is a KeyError; no SERVICIO fails inside the `try` as a ValueError; on success NOMBRE and MENSAJE are appended |
| Processing.MessageRows | modules/data_processing.py:63-72 | NOMBRE is the first word of CLIENTE; MENSAJE is the greeting text, or missing when there is no first word or SERVICIO; other cells are unchanged |
| Processing.AddMessageColumn | modules/data_processing.py:59-75 | the in-place method returns MessageAdded's result and leaves the frame as the Python code leaves it after each kind of failure |
| Processing.MessageOnGrouped | modules/data_processing.py:59-73 | on a grouped table the message step always succeeds, with the six message columns |
| Processing.MessageOnGroupedRows | modules/data_processing.py:63-72 | the grouped cells pass through and NOMBRE and MENSAJE are computed from CLIENTE and SERVICIO |
| Processing.ProcessOne | modules/data_processing.py:96-99 | one seller's step succeeds exactly when DIAS and every group column exist, with which error otherwise |
| Processing.DayCustomers | modules/data_processing.py:97-98 | after the day filter, the customers are exactly the owners of that day's rows |
| Processing.ProcessOneRows | modules/data_processing.py:96-99 | each row of a seller's result is its customer's group for the day with its SERVICIO, NOMBRE and MENSAJE |
| Processing.ProcessByType | modules/data_processing.py:94-102 | any failure is re-raised as ValueError from this stage |
| Processing.ByTypeOk | modules/data_processing.py:94-102 | succeeds exactly when every seller's step succeeds |
| Processing.ByTypeEntries | modules/data_processing.py:95-100 | on success, same keys in the same order, each mapped to its seller's result |
| Processing.ByTypeFirstFailure | modules/data_processing.py:96-102 | on failure, the wrapped error is that of the first seller in dict order whose step fails |
| Processing.ProcessUser | modules/data_processing.py:97-99 | the loop body's three calls (day filter, grouping, message column added in place) produce ProcessOne's result |
| Processing.ProcessDataByType | modules/data_processing.py:94-102 | the loop over the users in dict order, running ProcessUser on each, returns the specification ProcessByType |
| Loader.SliceFrom | modules/data_loader.py:88 | Python slicing `s[k:]` for any integer k, negative and past-the-end included |
| Loader.StripAll | modules/data_loader.py:95 | each column name is stripped, in place |
| Loader.MissingSet | modules/data_loader.py:99 | the set difference of required and present names |
| Loader.RangeTable | modules/data_loader.py:76-109 | every failure is a sheets error; no data and an empty frame fail with their own message; on success one row per body row, with every required name present |
| Loader.RangeFailures | modules/data_loader.py:85-104 | missing required columns fail with their set; otherwise the result is the phone step on the stripped frame, its failures wrapped |
| Loader.RangeRows | modules/data_loader.py:85-104 | each loaded row has TELEFONO joined from the sheet's INDICATIVO and CONTACTO cells and every other cell as read |
| Loader.RequiredMet | modules/data_loader.py:98-101 | when every required name is present, the required-column check changes nothing |
| Loader.GetDataByRangeName | modules/data_loader.py:57-109 | the method returns the specification RangeTable |
| Loader.LegacyRangeTable | data.py:55-66 | every failure is a ValueError from this function; no data and no body rows fail with their own message |
| Loader.LegacyRangeAgrees | data.py:55-66 | for unpadded headers the old and new readers succeed together, with equal tables, and fail on the same kind of cause |
| Customers.Concat | modules/data_processing.py:165 | `pd.concat` fails exactly on an empty dict and otherwise yields a well-formed table |
| Customers.ConcatMembers | modules/data_processing.py:165 | a row is in the concatenation exactly when some table holds it |
| Customers.ConcatEmpty | modules/data_processing.py:165-167 | the concatenation is empty exactly when every table is empty |
| Customers.SellerTables | modules/data_processing.py:148-151 | the seller split succeeds exactly when VENDEDOR and SIGLAS exist, keyed by the deduplicated SIGLAS |
| Customers.SellerResults | modules/data_processing.py:154-161 | succeeds exactly when every seller's step does, with the same keys and the message columns |
| Customers.Distribute | modules/data_processing.py:147-170 | failures are ValueErrors; a result has the message columns and at least one row |
| Customers.DistributeRows | modules/data_processing.py:147-170 | the per-seller results are keyed by the deduplicated SIGLAS, and the result rows are those results concatenated in SIGLAS order, and nothing else |
| Customers.DistributeNoValidData | modules/data_processing.py:164-170 | when every seller's result is empty, the error is "No valid data after processing" |
| Customers.SheetTable | modules/data_processing.py:137 | row 3 is the header and the rows after it are the body |
| Customers.Pipeline | modules/data_processing.py:136-170 | failures are ValueErrors; success implies a body row and a non-empty message table |
| Customers.PipelineStages | modules/data_processing.py:136-170 | a successful run is the seller distribution of the cleaned sheet, whose group cells are text |
| Customers.CleanedSheetText | modules/data_processing.py:137-143 | every group cell of the cleaned customer sheet is text, so the grouping step's requirement holds in the pipeline |
| Customers.GetInfoOfCustomers | modules/data_processing.py:121-175 | every error reaches the caller as a ValueError; the sheet-shape, seller-range and no-customer failures are given exactly |
| Customers.LegacyGetInfoOfCustomers | data.py:323-379 | fewer than four rows fail with "insufficient rows"; a seller-range failure is wrapped; success yields a non-empty message table |
| Customers.ShortSheetFails | data.py:329-330 | a sheet with fewer than four rows fails in both versions, in the old one with "insufficient rows" |
| Customers.SellersAgree | data.py:333-336 | for an unpadded seller range with the required columns, the old and new seller readers agree |
| Customers.LegacyAgrees | data.py:323-379 | for sheets of four or more rows, the old and new `get_info_of_customers` succeed together, with equal results |
| Timing.TotalTime | main.py:113-125 | the estimate is a multiple of 17 (15 + 2) seconds and is zero exactly when there are no customers |
| Timing.NoCustomersNoTime | main.py:123-125 | empty lists cost no time |
| Timing.TotalTimeAppend | main.py:123-125 | the estimate adds up over lists of customer lists |
| Timing.CountFlatten | main.py:123-125 | the count is the length of all lists together, and the estimate is 17 seconds per customer |
| Timing.DispatchBound | main.py:206-209 | for two different initials, the estimate is at most 17 seconds per row of the result table |
| Timing.SplitDuration | main.py:139-140 | `//` and `%` by 60 give minutes and seconds that rebuild the total, with seconds in 0..59 |
| Timing.SplitUnique | main.py:139-140 | that split is the only one with seconds in 0..59 |

## Left out

- Google Sheets access is not part of this model: `core/sheets_client.py`, `get_worksheet`, credentials, `FileNotFoundError` and gspread's `APIError`. The values the calls return are parameters. Because of this, data.py's separate `APIError` re-raise (data.py:376-377) is not modelled.
- main.py is modelled only in its time estimate and its vendor filters. The following are left out because they are I/O:
  - the browser automation (opening WhatsApp Web, waiting, closing tabs);
  - the Tk confirmation dialog;
  - printing;
  - saving to CSV;
  - logging.
- Cleaning.AmountOf: `float` is modelled on its plain decimal subset, `[+|-]digits[.digits]` with surrounding whitespace allowed. Exponents, `inf`, `nan` and underscores are read as refused values, and the number's size is not bounded.
- Cleaning.Clean: requires the desired columns to be distinct and not to rename onto an existing column. pandas would otherwise build duplicate columns, which the table model does not represent.
- Tables.FromSheet: requires distinct header names and rows as wide as the header. A sheet with duplicate or ragged headers is outside the model.
- Processing.ProcessData: requires the five group cells of every row to be text. Customers.CleanedSheetText proves this of every cleaned customer table, and the day and seller selections keep it, so the pipeline meets it. On a missing group cell pandas would drop a NaN key from `groupby`. A NaN PANTALLA would instead make `.str.join(' & ')` yield NaN for its label, and then `' ▪️ '.join` in the second `groupby` would raise a TypeError, re-raised as ValueError. Neither is modelled.
- Cleaning.FirstBadAmount: states the intended reading, in which an empty VALOR is NA and is not refused. The code as written refuses it; that is Cleaning.AmountAsWritten and Cleaning.ConvertAsWritten, under Findings.
- Cleaning.KeepRawText: states the intended reading, in which a row with an empty VALOR is dropped. As written, such a row fails the whole clean instead; that is Cleaning.CleanBlankValorAsWritten, under Findings.
- The pipeline (Cleaning.Clean, Customers.Pipeline and Customers.GetInfoOfCustomers) follows the intended reading of an empty VALOR. Cleaning.CleanAsWritten is the clean as written, and it differs from Cleaning.Clean only there.
- Processing.MessageAdded: a flag in SERVICIO gives a missing MENSAJE, not an error. In pandas, adding a bool cell to the greeting text raises a TypeError, which the `try` (modules/data_processing.py:62-75) re-raises as ValueError. A missing SERVICIO gives a missing MENSAJE in both. The grouping step's output is always text, so the pipeline never reaches this case.
- Processing.Aggregate: the separator ' ▪️ ' is written with its code points. Message texts are kept as code-point strings with no Unicode normalisation.
- Customers.GetInfoOfCustomers: the result is not projected to the configured final columns. The code returns all six message columns, as main.py then uses them.
- Cleaning.CutOf: a CORTE value other than "TRUE", "FALSE" or empty counts as cut. pandas maps it to NaN, and `astype(bool)` makes NaN true, so it is not treated as an error.
- Processing.Aggregate: groups are ordered by code-point string comparison, as pandas sorts group keys by default. The grouping is specified against an insertion sort, not pandas' own sort.

## Findings

| source | as written | input that shows it | evidently intended | confidence | as-written member | corrected member |
|---|---|---|---|---|---|---|
| modules/data_cleaning.py:44-48 (also data.py:131-135) | an empty VALOR becomes `pd.NA`; `.str.replace` keeps the NA and `astype(float)` refuses it with a TypeError, so `clean_data` fails with the VALOR error | a sheet whose VALOR cells are "" and "10", both with CORTE "FALSE" | the empty cell is NA, as the comments at lines 43 and 45 say, and its row is dropped by the `VALOR > 0` mask | medium; not executed | Cleaning.CleanBlankValorAsWritten | Cleaning.CleanAmounts |
