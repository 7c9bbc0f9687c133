# Spreadsheet validation and import of customer contracts

A model of the two scripts that bring a spreadsheet of customers into the contract database:

- **The validation script** (`data_validator.py`). Its nine field validators each take one raw
  cell and answer with a normalised value (or a documented sentinel) and, on rejection, a reason
  in Portuguese. The validators cover the CPF/CNPJ with its mod-11 check digits, the numeric
  spreadsheet date, the Brazilian phone number, the e-mail, the CEP postcode, the state (UF), the
  due day, the plan price and the exemption flag. The script's `run_tests` loop runs all nine on
  every row, collects the reasons in field order and puts the row on the error report (with the
  reasons joined by "; ") or on the success report.
- **The import script** (`import_data.py`). Its weaker helper cleaners come first. Then
  `get_or_create_plano` and `get_status_id`. Then the body of its row loop: the CPF/CNPJ and name
  gates, the client upsert, the best-effort contact inserts, the plan and status lookups, the
  due-day, CEP and street gates, the contract insert and the commit. Every failure after the upsert
  rolls the row's transaction back. The five counters and the two report lists record the outcome.

The database is a class `ImportStore.Store`. It holds the tables as the open transaction sees
them, the snapshot of the last commit, and an id sequence that a rollback does not rewind. Driver
errors, the uniqueness outcomes of `ON CONFLICT DO NOTHING` and `float(row['Plano Valor'])` depend
on things outside the model (the schema, the driver, float parsing). They come in as an oracle
value per row (`RowCheck.RowOracle`, `Importer.ImportOracle`). So every theorem holds for every
answer the database could give.

## Files

| file | module | what it holds |
|---|---|---|
| `wrappers.dfy` | `Wrappers` | `Option`, `Result`, and `Checked` (a value with an optional reason) |
| `strings.dfy` | `Strings` | the pieces of Python's `str` the scripts rely on: digit filtering, `strip`, `upper`/`lower`, `zfill`, `join`, `str(int)`, `int(str)`, `int(float(str))` |
| `cells.dfy` | `Cells` | a spreadsheet cell: empty (NaN), text or whole number |
| `states.dfy` | `States` | the table of the 27 federative units |
| `taxid.dfy` | `TaxId` | `clean_cpf_cnpj` of the validation script, as written and corrected |
| `calendar.dfy` | `Calendar` | proleptic Gregorian ordinals and the spreadsheet serial date |
| `validators.dfy` | `Validators` | the other field validators of the validation script |
| `rowcheck.dfy` | `RowCheck` | the row loop of `run_tests` |
| `importhelpers.dfy` | `ImportHelpers` | the helper cleaners of the import script |
| `importstore.dfy` | `ImportStore` | the tables, `get_or_create_plano`, `get_status_id`, the store class |
| `importer.dfy` | `Importer` | the row loop of the import script |

Where the two scripts share a function name, they differ. The import helpers only clean, answer
`None` where the validators give a sentinel and a reason, and accept more. Several lemmas
(`ImportHelpers.StrictCepAgrees`, `ImportHelpers.StrictPhoneKeptByImport`,
`ImportHelpers.ImportUfRecognisedByStrict`, `ImportHelpers.DecimalDayRefused`) state exactly how
each pair relates.

## Model

| member | source | states |
|---|---|---|
| Strings.DigitsOnly | data_validator.py:48 | `re.sub(r'[^\d]', '', s)` keeps exactly the ASCII digit characters of `s` (all of them, nothing added), and is the identity on an ASCII digit string |
| Strings.DigitsOnlyAppend | data_validator.py:48 | digit filtering distributes over concatenation |
| Strings.Strip | data_validator.py:43 | `strip()` removes only whitespace, from both ends, and leaves a text that neither starts nor ends with whitespace |
| Strings.ZFill | data_validator.py:222 | `zfill(width)` on digits gives exactly `width` characters (or the text itself when longer): zeros followed by the digits |
| Strings.LeadingZerosValue | data_validator.py:220-222 | zero padding keeps a digit string's value |
| Strings.Join | data_validator.py:438 | `"; ".join` of non-empty reasons is empty exactly when there are no reasons |
| Strings.ParseIntOfIntToString | import_data.py:130 | `int(str(n)) == n` for every integer |
| Strings.ParseTruncatedDecimalOfIntToString | data_validator.py:297 | the exact-arithmetic reading of `int(float(str(n)))` gives back `n` for every integer (no binary rounding) |
| Cells.NumberNotMissing | data_validator.py:43 | a number cell is never missing and its text is already stripped |
| States.CodeOf | import_data.py:119-120 | `UF_MAPPING.get(name)`: `None` exactly when no state has that name, otherwise the code of the state with that name |
| States.TableShape | data_validator.py:26-34 | the table has 27 entries; every code has two characters and every name more |
| TaxId.CheckDigit | data_validator.py:66-69 | a check digit always lies in 0..9 |
| TaxId.CheckDigitCharacterisation | data_validator.py:66-69 | the digit `d` is the check digit iff the weighted sum plus `d` is a multiple of 11, or the sum is 1 mod 11 and `d` is 0 |
| TaxId.CheckDigitPublishedForm | data_validator.py:66-69 | the check digit equals `10 * sum mod 11 mod 10`, the form the rule is usually published in |
| TaxId.DescendingRange | data_validator.py:71-73 | `list(range(hi, lo, -1))` has `hi - lo` elements, `hi, hi - 1, ...` |
| TaxId.SequentialRun | data_validator.py:61 | the run from `d0` is eleven digits, digit `i` being `(d0 + i) mod 10` |
| TaxId.TwoDigits | data_validator.py:77 | `f"{d1}{d2}"` is the two digits `d1`, `d2` |
| TaxId.DistinctCharsOne | data_validator.py:56 | `len(set(s)) == 1` iff all digits are equal |
| TaxId.SequentialRunMatches | data_validator.py:61 | the sequential-run test fires iff each digit is one more than the one before, mod 10 |
| TaxId.TwoDigitsMatch | data_validator.py:76-78 | the provided digits equal the expected text iff their values are the two check digits |
| TaxId.CleanCpfCnpjAccepts | data_validator.py:36-113 | a cell is accepted iff it is present and its digits obey the CPF or the CNPJ rule; an accepted number comes back unchanged, a rejected one as the sentinel with a non-empty reason |
| TaxId.CleanDigitsAccepts | data_validator.py:48-113 | the same, once the digits are kept |
| TaxId.CpfCase | data_validator.py:55-83 | the eleven-digit branch accepts exactly the CPF rule (not uniform, not a sequential run, both check digits right) |
| TaxId.CnpjCase | data_validator.py:86-109 | the fourteen-digit branch accepts exactly the CNPJ rule (not uniform, both check digits right) |
| TaxId.CpfWeightsListed | data_validator.py:71-73 | the weight lists are 10..2, 11..2 as intended, and 11..3 as written |
| TaxId.CpfRulesAgreeWhenTenthIsZero | data_validator.py:73-74 | the rule as written and the intended rule agree on every CPF whose tenth digit is 0 |
| TaxId.CpfWeightsFinding | data_validator.py:73-74 | 529.982.247-25 is accepted unchanged by the corrected validator and rejected by the validator as written |
| TaxId.CpfExampleOutcome | data_validator.py:55-83 | that example is judged by the CPF rule alone |
| Calendar.DaysInMonth | data_validator.py:129 | a month has 28 to 31 days |
| Calendar.DaysBeforeYearStep | data_validator.py:129 | the days before year `y + 1` are the days before `y` plus the length of `y` |
| Calendar.DaysBeforeYearMonotone | data_validator.py:129 | later years start at least 365 days per year later |
| Calendar.MonthSearch | data_validator.py:129 | the month search finds a valid date of that year with that day of the year |
| Calendar.YearSearch | data_validator.py:129 | the year search finds a valid date with that ordinal |
| Calendar.FromOrdinal | data_validator.py:129 | `date.fromordinal(n)` is a valid date whose ordinal is `n` |
| Calendar.MonthSearchFinds | data_validator.py:129 | the month search started at any month up to the date's finds the date |
| Calendar.YearSearchFindsInOwnYear | data_validator.py:129 | the year search started at the date's own year finds the date |
| Calendar.YearSearchSkipsTo | data_validator.py:129 | starting the year search at an earlier year finds the same day |
| Calendar.FromOrdinalOfOrdinal | data_validator.py:129 | `fromordinal(toordinal(d)) == d` for every date up to 9999-12-31 |
| Calendar.ExcelSerialDate | data_validator.py:129 | a serial gives a date iff its day count fits `Timedelta` (±106751 days), and that date lies that many days after 1899-12-30 |
| Calendar.ExcelSerialDateExample | data_validator.py:129 | serial 44562 is 2022-01-01 and serial 0 is 1899-12-30 |
| Validators.NationalNumber | data_validator.py:163-166 | the national number drops "55" from a 13-digit value and leaves any other digit string as it is, so the "+55" branch never fires |
| Validators.NoPlusAmongDigits | data_validator.py:165 | a digit string never starts with "+55" |
| Validators.PhoneShapeOutcome | data_validator.py:168-179 | a national number is accepted, behind "+55", iff it is a mobile (11 digits, third digit 9/8/7/6) or a landline (10 digits); otherwise the field's reason |
| Validators.CleanPhoneOutcome | data_validator.py:147-179 | a blank or digit-free cell gives no phone and no reason; otherwise the phone shape test on the national number decides |
| Validators.CleanPhoneOfDigits | data_validator.py:158-179 | a cell with digits gives the shape test on its national number |
| Validators.NormalisedPhoneDigits | data_validator.py:158-169 | the digits of an accepted phone are "55" and the national number |
| Validators.CountryCodeDropped | data_validator.py:163-164 | "55" before a mobile number is dropped again |
| Validators.CleanPhoneMobileStable | data_validator.py:147-179 | an accepted mobile number is accepted again, unchanged |
| Validators.CleanPhoneLandlineNotStable | data_validator.py:147-179 | an accepted landline number (12 digits with its country code) is rejected when cleaned again |
| Validators.EmailShapeMatchesPattern | data_validator.py:193-194 | the search-free shape test holds iff the whole text matches `^[a-zA-Z0-9._%+-]+@[a-zA-Z0-9.-]+\.[a-zA-Z]{2,}$` |
| Validators.EmailSplitIsShape | data_validator.py:193-194 | any way of splitting the text as the pattern does passes the shape test |
| Validators.CleanEmailOutcome | data_validator.py:181-200 | a blank cell gives no e-mail and no reason; otherwise the trimmed text is returned iff it matches the pattern, else the format reason |
| Validators.CleanEmailStable | data_validator.py:181-200 | an accepted address is accepted again, unchanged |
| Validators.CleanCepOutcome | data_validator.py:202-230 | every answer is eight digits; a cell with one to eight digits is accepted as those digits zero-padded on the left; anything else gives "00000000" with a reason |
| Validators.CleanCepAccepted | data_validator.py:214-230 | the accepted case, spelled out |
| Validators.CleanCepRejected | data_validator.py:209-227 | a missing, digit-free or too long CEP gives the sentinel and a non-empty reason |
| Validators.PaddedCep | data_validator.py:220-222 | padding to eight digits keeps the digits at the end and their value |
| Validators.CleanCepStable | data_validator.py:202-230 | an accepted CEP is accepted again, unchanged |
| Validators.EightDigitsAccepted | data_validator.py:220-230 | eight digits are accepted as they are |
| Validators.EncodeStringOutcome | data_validator.py:232-256 | a blank cell gives the default; anything else gives a non-empty prefix of the trimmed text: all of it when it fits, exactly the limit when it does not; never a reason |
| Validators.EncodeStringTwice | data_validator.py:232-256 | encoding again only trims whitespace a cut left at the end; an uncut text comes back unchanged |
| Validators.FindStateMeans | data_validator.py:275-278 | the loop over the table finds nothing iff no name answers (equal, or equal lower-cased), and otherwise the code of the first name that answers |
| Validators.NormalizeUfOutcome | data_validator.py:258-282 | the trimmed, upper-cased cell is accepted iff it is a code or answers to a name; the answer is then a code, otherwise "XX" with a reason |
| Validators.NormalizeUfTextOutcome | data_validator.py:270-282 | the same, on the trimmed, upper-cased text |
| Validators.NormalizeUfIgnoresCase | data_validator.py:270-278 | upper- or lower-casing the cell does not change the answer |
| Validators.ValidateDiaVencimentoOutcome | data_validator.py:284-307 | the answer is always in 1..31; it is the cell's `int(float(...))` exactly when that lies in 1..31, else 1 with a reason |
| Validators.DueDayOfNumberOutcome | data_validator.py:297-303 | the range check accepts exactly the parsed numbers in 1..31 |
| Validators.ValidateDiaVencimentoOfNumber | data_validator.py:291-303 | a whole number and its text are taken as they are when in 1..31; a number outside gives the range reason |
| Validators.ValidateIsentoOutcome | data_validator.py:331-352 | true iff a yes-token; no reason iff blank, yes- or no-token; otherwise the reason quoting the lower-cased text |
| Validators.TokensDisjoint | data_validator.py:343-348 | no token is both a yes- and a no-token |
| Validators.ValidateIsentoIgnoresCase | data_validator.py:342 | letter case makes no difference |
| Validators.ConvertExcelDateOfSerial | data_validator.py:127-135 | a number gives the spreadsheet date of that serial, with no reason exactly when a date comes back |
| Validators.ConvertExcelDateOfDate | data_validator.py:127-131 | every date within reach of the epoch is what its own serial converts to |
| RowCheck.FieldReasons | data_validator.py:377-429 | one reason per validator, nine in all; `asWritten` chooses the script's CPF weights (`true`, data_validator.py:73) or the corrected ones (`false`) |
| RowCheck.KeepTruthyAppend | data_validator.py:379-429 | the reasons of earlier fields come first |
| RowCheck.KeepTruthyMembers | data_validator.py:379-429 | a text is collected iff some validator gave it as a truthy reason |
| RowCheck.KeepTruthyEmpty | data_validator.py:375-429 | nothing is collected iff no reason is truthy, and every collected reason is non-empty |
| RowCheck.Record | data_validator.py:379-381 | one `if error: append; is_valid = False` step keeps `reasons` the truthy reasons seen so far, and `is_valid` iff there are none |
| RowCheck.ValidateRow | data_validator.py:373-429 | the loop body's reasons are the truthy reasons of the nine validators in field order, for either CPF weight list, and the row is valid iff there are none |
| RowCheck.AllReasons | data_validator.py:372-429 | row `i`'s reasons are its validators' reasons, under the chosen CPF weight list |
| RowCheck.AllReasonsNonEmpty | data_validator.py:379-429 | every collected reason of every row is a non-empty text |
| RowCheck.RunTests | data_validator.py:367-441 | the loop builds exactly the error and success reports of the rows' reasons, and the error counter is the error report's length; `RunTests(rows, oracles, true)` is the script as written, with the weights of data_validator.py:73 |
| RowCheck.ErrorEntriesDescribeRows | data_validator.py:437-440 | every error entry is an earlier row with reasons, carrying its cells and its reasons joined by "; " (non-empty), in row order |
| RowCheck.SuccessEntriesDescribeRows | data_validator.py:432-435 | every success entry is a row with no reasons, carrying "", in row order |
| RowCheck.EveryRowOnce | data_validator.py:432-440 | the two reports together hold every row exactly once: the error report iff it has a reason, the success report iff it has none |
| RowCheck.ErrorsExactly | data_validator.py:437-440 | a row is on the error report iff it has a reason |
| RowCheck.SuccessExactly | data_validator.py:432-435 | a row is on the success report iff it has no reason |
| RowCheck.ValidRowMeans | data_validator.py:372-435 | a valid row's CPF/CNPJ obeys the check-digit rule of the weight list in use (the script's 11..3 when `asWritten`), its CEP has one to eight digits, its state is recognised and its due day lies in 1..31 |
| RowCheck.ExampleCpfRowReasons | data_validator.py:372-429 | a row whose CPF is 529.982.247-25 has a CPF reason and goes to the error report in the script as written, and has no CPF reason under the corrected weights |
| RowCheck.ValidRowFields | data_validator.py:375-435 | a valid row is one no validator gave a truthy reason for |
| ImportHelpers.CleanCpfCnpjOutcome | import_data.py:57-61 | only an empty cell gives `None`; otherwise exactly the digits of its text, so cleaning again changes nothing |
| ImportHelpers.StrictCpfPassesImportGate | import_data.py:57-61 | whatever the field validator accepts, with the script's weights or the corrected ones (any weight list), passes the import's length gate with the same digits |
| ImportHelpers.ConvertExcelDateAgrees | import_data.py:63-71 | a number gives the field validator's date, and a date iff the day count fits |
| ImportHelpers.ConvertExcelDateOfDate | import_data.py:63-68 | every date within reach of the epoch comes back from its serial |
| ImportHelpers.ConvertExcelDateIgnoresText | import_data.py:65-66 | text and empty cells give no date |
| ImportHelpers.CleanPhoneOutcome | import_data.py:73-81 | `None` iff empty or fewer than ten digits; otherwise the bare digits, with no upper bound, and cleaning again gives them back |
| ImportHelpers.StrictPhoneKeptByImport | import_data.py:73-81 | a phone the field validator accepts keeps all its digits here, country code included |
| ImportHelpers.PadCepOutcome | import_data.py:89-96 | more than eight digits give `None`; otherwise eight digits, zero-padded, with the same value |
| ImportHelpers.CleanCepOutcome | import_data.py:83-96 | `None` iff empty or more than eight digits; otherwise the cell's digits zero-padded to eight, with their value |
| ImportHelpers.CleanCepShape | import_data.py:83-96 | what comes back is always eight digits |
| ImportHelpers.CleanCepStable | import_data.py:83-96 | cleaning a cleaned CEP gives it back |
| ImportHelpers.CleanCepOfLetters | import_data.py:88-91 | a cell with no digits becomes "00000000" |
| ImportHelpers.StrictCepAgrees | import_data.py:83-96 | where the field validator accepts a CEP, this helper gives the same eight digits |
| ImportHelpers.EncodeStringOutcome | import_data.py:98-109 | `None` iff empty; otherwise the longest prefix of the untrimmed text that fits the limit, and encoding it again gives it back |
| ImportHelpers.NormalizeUfOutcome | import_data.py:111-122 | a code comes back iff the trimmed, upper-cased text is a code or exactly a state name, and it is always a code |
| ImportHelpers.UfTextOutcome | import_data.py:116-122 | the same, on the trimmed, upper-cased text |
| ImportHelpers.NormalizeUfCode | import_data.py:117-120 | what comes back is always a code |
| ImportHelpers.ImportUfRecognisedByStrict | import_data.py:111-122 | every state this helper recognises, the field validator recognises too |
| ImportHelpers.ValidateDiaVencimentoOutcome | import_data.py:124-137 | a day comes back iff `int(dia)`, read as an optionally signed run of ASCII digits, succeeds and lies in 1..31, and it is that number |
| ImportHelpers.ValidateDiaVencimentoOfNumber | import_data.py:130-134 | a number and its text give the same answer, a day iff in 1..31 |
| ImportHelpers.DecimalDayRefused | import_data.py:130 | "15.0" is refused here and accepted as 15 by the field validator |
| ImportStore.Upsert | import_data.py:236-244 | the upsert stores the client under its CPF/CNPJ with the new fields and the existing or fresh id, and changes no other client and no other table |
| ImportStore.UpsertWellFormed | import_data.py:236-253 | ids stay distinct and below the model's id counter, an abstraction of the serial that advances only for a new row |
| ImportStore.UpsertTwice | import_data.py:239-244 | upserting the same client twice is upserting it once, with the same id |
| ImportStore.PlanKey | import_data.py:142 | the description is cut to at most 255 characters, unchanged when it fits |
| ImportStore.PlanForOutcome | import_data.py:139-152 | the answer is the id stored under the key; an existing plan is returned untouched, a new one stored with the price and the fresh id; no other plan or table changes |
| ImportStore.PlanForTwice | import_data.py:143-146 | asking again for the same description gives the same id and changes nothing, whatever the price |
| ImportStore.PlanForWellFormed | import_data.py:148-152 | ids stay distinct and below the sequence |
| ImportStore.StatusIdOfOutcome | import_data.py:157-163 | a known status gets its id, any other the default 2 |
| ImportStore.Store.constructor | import_data.py:205-207 | the connection starts with nothing pending |
| ImportStore.Store.Rollback | import_data.py:262 | a rollback restores the committed snapshot and keeps the sequence |
| ImportStore.Store.Commit | import_data.py:366-375 | a commit makes the open tables the committed ones; a failed one keeps the old snapshot and reports the driver's message |
| ImportStore.Store.UpsertClient | import_data.py:235-259 | the upsert changes the open tables as `Upsert` says and returns the client's id, or fails and changes nothing |
| ImportStore.Store.InsertContact | import_data.py:276-286 | a contact insert appends the contact iff it was inserted, and reports inserted, skipped or the failure |
| ImportStore.Store.GetOrCreatePlano | import_data.py:139-155 | the open tables become those of `PlanFor` and the plan's id is returned, or the statement fails and nothing changes |
| ImportStore.Store.GetStatusId | import_data.py:157-166 | the status lookup returns the stored id or the default, or the driver's error |
| ImportStore.Store.InsertContract | import_data.py:326-357 | a contract insert appends the contract iff it was inserted, and reports inserted, skipped or the failure |
| ImportStore.ContactStep | import_data.py:277-284 | one contact insert appends only to the contacts, and only when inserted |
| Importer.RowContract | import_data.py:326-348 | the contract built from a row has a due day in 1..31, an eight-digit CEP, a state that is a code or none, and the given client, plan and status ids |
| Importer.FateClasses | import_data.py:211-375 | a row is on both reports iff its commit failed after its contract went in, on neither iff its contract was a committed duplicate; every reported failure has a non-empty motive |
| Importer.RejectedMeans | import_data.py:216-233 | a row is turned away before the database iff it fails the CPF/CNPJ gate (with the example motive) or then the name gate |
| Importer.CpfGateMeans | import_data.py:216-222 | the CPF/CNPJ gate checks only for 11 or 14 digits, and lets through everything the field validator accepts under any CPF weight list, the script's included |
| Importer.ContractGatesInOrder | import_data.py:297-324 | after the lookups, the first failing gate of due day, CEP and street gives the motive; a row passing all three is rolled back iff its contract insert fails |
| Importer.ContactsDoNotDecideFate | import_data.py:274-291 | the contact outcomes never change the row's fate |
| Importer.UfNeverRejects | import_data.py:306 | the state column never changes the row's fate |
| Importer.DecimalDueDayFailsRow | import_data.py:297-303 | a due day written "15.0" fails the row with the due-day motive |
| Importer.ContactSlots | import_data.py:268-272 | the contact list has three entries |
| Importer.InsertedCount | import_data.py:283-284 | the contact counter rises at most once per contact |
| Importer.CountersMean | import_data.py:258-351 | the client counter counts the rows past the gates and the upsert; the contract counters count exactly the rows that reached the contract insert and got a row back |
| Importer.ContractFateNotClientError | import_data.py:260-359 | no failure after the upsert carries the client-error motive |
| Importer.ContactsAfterShape | import_data.py:274-291 | contacts never touch plans or contracts; with no failure the client stays and the inserted contacts are appended in order; after a failure the clients are the committed ones |
| Importer.InsertContacts | import_data.py:274-291 | the contact loop leaves the open tables as `ContactsAfter` says and counts the inserted contacts |
| Importer.ProcessRow | import_data.py:211-375 | one row: its fate is `RowFate`; it is appended to the error report with its motive iff it failed, to the imported report iff its contract went in; the counters move as `Tally` says; nothing stays uncommitted; a failed row leaves the committed tables unchanged; no stored plan price changes; a committed row leaves exactly `RowTables` of the old committed tables: the upserted client, the contacts that went in, the plan and the inserted contract |
| Importer.RowTablesMeans | import_data.py:211-375 | the tables a committed row leaves keep every other client, add the row's client (unless a contact failed, which rolls it back), append exactly the contacts that went in, keep every earlier contact, keep every stored price and add at most the row's plan |
| Importer.ContactsAfterExtends | import_data.py:274-291 | the contact loop only appends to the committed contacts, whatever the outcomes |
| Importer.ContactsAndContract | import_data.py:267-375 | after the upsert: the contacts, the contract block and the commit, with the fate `ContractFate`; a committed row leaves exactly the contacts' tables with the plan and the inserted contract (`ContractTables`) |
| Importer.ImportContract | import_data.py:293-375 | the contract block and the commit: any failure rolls back; a committed row leaves exactly the open tables with the plan stored and the inserted contract appended (`ContractTables`) |
| Importer.LookupIds | import_data.py:295-296 | the plan and status ids, or the first failure of the price, the plan and the status lookups; on success the open tables hold the plan |
| Importer.ContractGates | import_data.py:297-364 | the due-day, CEP and street gates, then the insert and the commit, with the fate `GateFate` |
| Importer.InsertAndCommit | import_data.py:326-375 | a failed insert or commit rolls back; otherwise the open tables, with the contract appended when inserted, become the committed ones |
| Importer.ReportEntries | import_data.py:211-375 | every report line is an earlier row that belongs on that report, with its motive |
| Importer.ReportOrdered | import_data.py:211-375 | each report lists its rows in increasing order, so no row twice |
| Importer.ReportComplete | import_data.py:211-375 | every row that belongs on a report is on it |
| Importer.ImportedRowsCounted | import_data.py:258-355 | every row on the imported report had its client counted |
| Importer.TallyMatchesReports | import_data.py:193-375 | the error counter is the error report's length; both contract counters are the imported report's length, which is at most the client counter |
| Importer.RunImport | import_data.py:192-375 | the loop over the rows builds the reports and the counters of the rows' fates: errors count the error report, contracts the imported report, which never exceeds the clients; no stored plan price changes |

## Left out

- Logging, `print`, the `os`/`sys` calls, reading the spreadsheet, and writing the Excel reports
  (data_validator.py:443-470, import_data.py:168-190, 377-409, 422-427) are I/O and are not modelled.
- The check of the expected columns (import_data.py:186-190) is left out: a row is a record with
  every column.
- `validate_plano_valor` (data_validator.py:309-329) and `float(row['Plano Valor'])`
  (import_data.py:295) are not modelled. They need float parsing, so the reason and the parsed
  price come in from the oracle.
- The string branch of `convert_excel_date` (`dateutil` parsing, data_validator.py:137-145) and
  the text of the `Timedelta` overflow error are oracle inputs.
- Float-typed cells are not modelled, fractional or whole. A cell is empty, text, or an
  integer-typed number (`Int`), whose `str()` has no ".0". pandas reads a numeric column with a
  blank as float64, and then a whole value prints as "15.0": `str(52998224725.0)` gives the digit
  cleaners "529982247250" (12 digits, so the CPF/CNPJ gate at import_data.py:217 rejects the
  row, where the model's `Int(52998224725)` passes), and a CEP of `1234567.0` becomes "12345670"
  at import_data.py:88 rather than "01234567". `int(15.0)` in the import's due-day check is
  likewise not modelled.
- Case conversion covers ASCII and the Latin-1 letters whose other case is again one Latin-1
  letter (À..Þ and à..þ, without × and ÷). Python also upper-cases ß to "SS", ÿ to Ÿ and µ to Μ,
  which the model leaves unchanged, so "Mato Großo" is a state in the code and not in the model;
  letters outside Latin-1 are not converted at all. `strip` removes the ASCII and Latin-1
  whitespace only, not the other Unicode spaces (U+1680, U+2000..U+200A, U+3000 and the like).
  `int()` in the model does not accept underscores between digits.
- The UTF-8 encode/decode round trip in `encode_string` is the identity on valid text, and the
  model treats it as such. Lone surrogates are not modelled.
- The SQL text, the table schema, the uniqueness keys and foreign keys are not modelled. Whether
  an insert returns a row, is skipped or fails is an oracle outcome, and so is every driver error.
- `is_new` from the client upsert (import_data.py:253-257) only chooses a log line and is not modelled.
- The id sequence is one counter shared by clients and plans, rather than one sequence per
  table, and it advances only when a new row is stored. A PostgreSQL serial also advances on an
  `ON CONFLICT DO UPDATE` and on a failed insert, so the model's ids are an abstraction of the
  database's. Only the distinctness and freshness of ids matter to the properties.
- The motive a failed contact insert writes (import_data.py:288) is overwritten or never
  reported, so it is not modelled; the rollback it triggers is.
- The connection-level handler (import_data.py:204-208, 411-420) is not modelled: connecting,
  an exception outside the row body, and closing the cursor and the connection.
- Validators.ValidateDiaVencimentoOutcome: `float()` is modelled as exact decimal text
  `[+-]?(digits[.digits]|.digits)` truncated toward zero. Exponent forms ("1e1" is 10),
  underscores ("1_5" is 15), non-ASCII decimal digits ("١٥" is 15), "inf" (whose `int()` raises an `OverflowError` the code does not
  catch) and binary rounding are not modelled: Python reads
  "31.99999999999999999" as 32 (out of range) and "0.99999999999999999" as 1 (accepted), where
  the model gives 31 and 0.
- Strings.ParseTruncatedDecimalOfIntToString: holds in exact arithmetic. Python's `float`
  rounds integers above 2**53 (9007199254740993 comes back as 9007199254740992); the due days
  this is used for lie in 1..31, far below that bound.
- Strings.DigitsOnly: in a Python 3 text pattern `\d` matches every Unicode decimal digit
  (category Nd, such as the full-width "５" or the Arabic-Indic "١"), while the model keeps
  only '0'..'9'. A CPF/CNPJ written in full-width digits, "５２９９８２２４７２５", keeps all 11
  characters at import_data.py:61, passes the length gate at import_data.py:217 and is upserted
  in the code, while `Importer.CpfAccepted` rejects it; every digit cleaner of both scripts
  (phones, CEPs, tax ids) differs the same way on such text.
- ImportHelpers.ValidateDiaVencimentoOutcome: `int()` is modelled as an optionally signed run of
  ASCII digits with surrounding whitespace. Python's `int()` also accepts non-ASCII decimal
  digits ("١٥" is 15) and underscores between digits ("1_5" is 15); the model refuses both.
- Validators.EncodeStringOutcome: the `except` branch giving an encoding reason
  (data_validator.py:253-256) cannot be reached once the round trip is the identity, so the
  model never gives a reason.

On a few points the code differs from its documentation, and the model follows the code:

- 529.982.247-25 is rejected by the validation script as written (see Findings).
- A contact failure rolls back the whole open transaction, including the row's client upsert,
  and the row goes on to its contract (import_data.py:287-291, the rollback at import_data.py:290).
- The state column never rejects an import row: an unknown state is stored as no state.
- A row whose commit fails after its contract was inserted appears on both reports. It was
  appended to the imported list before the commit.

## Findings

| source | as written | input that shows it | evidently intended | confidence | as-written member | corrected member |
|---|---|---|---|---|---|---|
| data_validator.py:73-74 | `weights2 = list(range(11, 2, -1))` is the nine weights 11..3, so `zip` drops the tenth digit from the second CPF check digit | CPF 529.982.247-25: the code expects "29" and rejects it | the weights 11..2 over all ten preceding digits, which accept it | not executed | TaxId.CleanCpfCnpjAsWritten, TaxId.CpfWeightsFinding | TaxId.CleanCpfCnpj, TaxId.CleanCpfCnpjAccepts |
