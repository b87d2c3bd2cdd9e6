# SWIFT-code directory: a verified model

This project models a directory of bank SWIFT codes. A bank is either a
headquarters (its code ends in `XXX`) or a branch. A branch is linked to the
headquarters whose code is its first 8 characters followed by `XXX`, but only
when that headquarters is stored. Each bank is owned by one country, keyed by
its ISO2 code. The model covers six parts:

- the validators of `src/utils.py`: code length, letters or alphanumerics,
  Python's `str.isupper`, the existence check, and headquarters consistency.
  Each check has its own error kind and message.
- the service operations of `src/app.py`:
  - `create_bank`, with validation, the country-name conflict, the
    duplicate-code conflict, branch linking and headquarters adoption;
  - `read_bank` and `read_country`;
  - `delete_bank`, with the `ON DELETE SET NULL` rule on the headquarters link.
- the bulk loaders `create_banks` and `create_countries` of `src/utils.py`.
- the table constraints and read views of `src/models.py`. The branch and
  country lists are derived from the stored keys and are never stored themselves.
- the per-row derivation of `src/data_processing.py`: the headquarters flag,
  the candidate headquarters, headquarters-first ordering, and the
  de-duplicated, sorted country pairs.

Modules:

- `Wrappers`: the outcome and result types and the four error kinds
  (validation, not found, conflict, internal).
- `Seqs`: sequence helpers:
  - removing a value;
  - Python's string order;
  - sorting by a string key;
  - de-duplication.
- `Codes`: ASCII character classes and the `XXX` suffix rules.
- `Validators`: the `check_*` functions of `src/utils.py`.
- `Ingestion`: `src/data_processing.py` applied to rows that have already been read.
- `Models`: the store, its invariant `Valid`, the derived lists and the read views.
- `Directory`: every operation as a function from a store snapshot to a
  response and the next snapshot.
- `DirectoryProperties`: lemmas about those functions.
- `Service`: class `SwiftDirectory`. It holds the store in fields and runs
  `create_bank`, `delete_bank`, `create_banks` and `create_countries` step by
  step. Each method is proved to end in the state, with the response, that
  the `Directory` function gives, and to keep `Valid`.

In the store, banks are a map keyed by SWIFT code and countries a map keyed by
ISO2 code. The stored codes are also kept in insertion order, which is the
order the relationship lists come back in. A bank's headquarters link is a
code. `Branches(s, h)` lists the stored codes whose link is `h`.
`CountryBanks(s, c)` lists the codes owned by country `c`.

`src/app.py` is an older revision of the service. Its `create_bank` does not
validate, has no conflict checks and does no linking or adoption. Its
`delete_bank` answers "SWIFT code not found" on an unknown code. The
repository's tests expect the newer behaviour, and the model follows those
tests:

- validation with the messages of `src/utils.py`;
- the conflict messages;
- branch linking;
- the confirmation texts;
- "Item does not exist." for an unknown code.

Headquarters adoption is not asserted by any test. It appears only in the
integration test's expected data, which that test never reads back (see
"## Left out").

## Model

| member | source | states |
|---|---|---|
| `Validators.CheckCodeLength` | src/utils.py:100-111 | fails exactly when the length is not 11 (SWIFT) or 2 (ISO2); the message names the code type and the expected length |
| `Validators.CheckIfAlpha` | src/utils.py:127-131 | passes exactly for non-empty all-letter text; otherwise the "letters" error |
| `Validators.CheckIfAlphanumeric` | src/utils.py:147-151 | fails exactly for empty text or text with a character that is neither letter nor digit; the "alphanumeric" error |
| `Validators.CheckIfUpper` | src/utils.py:171-175 | fails exactly when there is a lowercase letter or no letter at all; the message names the text type |
| `Codes.UpperIffCaseMappingFixes` | src/utils.py:171 | `isupper` holds exactly when upper-casing changes nothing and lower-casing changes something |
| `Validators.CheckIfExists` | src/utils.py:191-195 | NotFound with "Item does not exist." exactly when the object is absent |
| `Validators.CheckIfProperHeadquarterOrBranch` | src/utils.py:216-224 | fails exactly when ending in `XXX` differs from the headquarters flag, with one message for both directions |
| `Codes.Last3IsSuffixTest` | src/utils.py:216-219 | comparing `s[-3:]` with `XXX` is `endswith("XXX")`, also for texts shorter than three characters |
| `Validators.HeadquarterCheckReadsOnlySuffix` | src/utils.py:216-220 | the verdict depends on the last three characters only |
| `Validators.ValidateCodeAccepts` | tests/unit/utils.py:245-262 | a code passes exactly when it has the right length and consists of uppercase letters (and, for SWIFT, digits) with at least one letter |
| `Validators.ValidateCodeReportsFirstFailure` | tests/unit/utils.py:245-262 | the length error comes before the charset error, which comes before the case error |
| `Validators.ErrorTextsDistinct` | tests/unit/utils.py:213-221 | the failure messages are pairwise different |
| `Validators.ValidationScenarios` | tests/unit/utils.py:245-262 | worked cases: `wrongswiftcode` fails on length, `!@` and `P#` fail on letters, `pl` fails on case, `AAAAAAAAXXX` is a headquarters and `AAAAAAAA123` is not |
| `Ingestion.CellText` | src/data_processing.py:46 | an empty cell reads as the empty string, and text is kept as it is |
| `Ingestion.DeriveRow` | src/data_processing.py:44-56 | the code, name, address and country are the cells' texts; the flag is "ends in XXX" and the candidate is `code[:8] + "XXX"`, so the row is well formed |
| `Codes.PotentialHq` | src/data_processing.py:54-56 | the candidate ends in `XXX`; for codes of at least 8 characters it has 11 characters and the code's first 8, and a shorter code is kept whole with `XXX` appended |
| `Codes.SamePrefixSameHq` | src/data_processing.py:54-56 | codes with the same first 8 characters have the same candidate headquarters |
| `Codes.PotentialHqFixedPoint` | src/data_processing.py:53-56 | a code is its own candidate exactly when it has 11 characters and ends in `XXX` |
| `Ingestion.HeadquarterRowIsItsOwnCandidate` | tests/conftest.py:110-124 | a headquarters row with an 11-character code is its own candidate |
| `Ingestion.ExtractBanks` | src/data_processing.py:60-64 | the records are a permutation of the derived rows, sorted by the key (flag descending, code ascending), and all well formed |
| `Ingestion.SortedRowsHeadquartersFirst` | src/data_processing.py:60-62 | in sorted records every headquarters precedes every branch, and each group is in ascending code order |
| `Seqs.SortBy` | src/data_processing.py:60-62 | the result is sorted by the key and is a permutation of the input |
| `Seqs.LexLeTotal` | src/data_processing.py:61 | Python's string order is total |
| `Seqs.LexLeTrans` | src/data_processing.py:61 | Python's string order is transitive |
| `Seqs.Dedup` | src/data_processing.py:99 | every value of the input occurs exactly once, and nothing else occurs |
| `Ingestion.ExtractCountries` | src/data_processing.py:97-102 | each (iso2, name) pair occurs exactly once, sorted by ISO2 |
| `Models.BranchesMirrorLinks` | src/models.py:20-27 | b is among h's branches exactly when b's link is h; h is then a stored headquarters sharing b's first 8 characters |
| `Models.Select` | src/models.py:25-27 | a derived list holds exactly the listed codes whose row meets the condition, and is no longer than the order |
| `Models.SelectNoDup` | src/models.py:25-27 | a relationship list lists each code once |
| `Models.SelectWithout` | src/models.py:15-17 | removing a code from the store removes it from every relationship list whose condition is otherwise unchanged |
| `Models.BasesFromCodes` | src/models.py:63 | one BankBase entry per listed code, in order |
| `DirectoryProperties.BranchCount` | src/models.py:63 | a branch list has as many entries as there are rows linked to the headquarters |
| `Directory.ReadBank` | src/app.py:127-135 | an error exactly for an invalid or unknown code: a malformed code gives the first failing validation error, an unknown well-formed code gives NotFound "Item does not exist."; the view has branches exactly for a headquarters |
| `Directory.ReadCountry` | src/app.py:138-145 | an error exactly for an invalid or unknown ISO2 code: a malformed code gives the first failing validation error, an unknown well-formed code gives NotFound "Item does not exist."; otherwise the code and its stored name |
| `DirectoryProperties.ReadHeadquartersView` | src/models.py:57-64 | a headquarters reads as its own fields plus its country name, with one BankBase entry per linked row, exactly the rows linked to it, as many as there are linked rows |
| `DirectoryProperties.ReadBranchView` | src/models.py:48-54 | a branch reads as its BankBase fields plus its country's name, with no branch list |
| `DirectoryProperties.CountryCount` | src/models.py:85 | a country's bank list has as many entries as the country owns rows |
| `DirectoryProperties.ReadCountryView` | src/models.py:84-88 | a country reads with its name and one BankBase entry per owned row, in order, each carrying that row's fields; the entries' codes are exactly the rows it owns, as many as it owns |
| `DirectoryProperties.AcceptedRequestShape` | src/utils.py:198-224 | an accepted request has an 11-character code; it is a headquarters exactly when the code ends in `XXX`, and a headquarters is then its own candidate |
| `DirectoryProperties.CreateRequestReportsFirstFailure` | tests/unit/test_app.py:425-536 | a malformed field gets its own error, in the order ISO2 code, country name, SWIFT code, headquarters consistency; the request is accepted exactly when all fields are well formed |
| `DirectoryProperties.CreateBankOutcome` | src/app.py:99-124 | success exactly when the request is accepted, the country is new or has the same name, and the code is new; a rejected request or a name conflict writes nothing; an unseen country stays even when the code is a duplicate |
| `DirectoryProperties.CountryStepKeepsValid` | src/app.py:102-113 | the country step keeps the invariant and stores the requested name under an unseen ISO2 |
| `DirectoryProperties.InsertBankKeepsValid` | src/app.py:115-124 | inserting an accepted request with a new code keeps the invariant |
| `DirectoryProperties.CreateBankPreservesValid` | src/app.py:99-124 | create_bank keeps the store invariant |
| `DirectoryProperties.CreateBankInserts` | tests/unit/test_app.py:366-423 | a successful create adds exactly the requested row, appends it to the insertion order, and leaves the other rows' fields unchanged |
| `DirectoryProperties.CreateBranchLinks` | tests/integration/test_swift_codes_app.py:290-309 | a new branch links to its candidate headquarters when that is stored, and joins that headquarters' branch list only; no other row changes |
| `DirectoryProperties.InsertHeadquartersAdopts` | tests/integration/test_swift_codes_app.py:81-98 | adoption repoints exactly the prefix matches, which were all orphans |
| `DirectoryProperties.CreateHeadquartersAdopts` | tests/integration/test_swift_codes_app.py:282-303 | a new headquarters adopts exactly the stored 11-character codes sharing its first 8 characters, all of them orphans, so no other branch list changes |
| `DirectoryProperties.CreateThenRead` | tests/unit/test_app.py:366-423 | a created branch reads back as the request; a created headquarters reads back as the request with its branches |
| `DirectoryProperties.CreateTwiceConflicts` | tests/unit/test_app.py:569-598 | repeating a successful create is a duplicate-code conflict that writes nothing, and one row with the code remains |
| `DirectoryProperties.HeadquartersThenBranch` | tests/integration/test_swift_codes_app.py:305-322 | a headquarters created before its branch lists the branch as it was requested; the branch reads alone |
| `DirectoryProperties.BranchThenHeadquarters` | tests/integration/test_swift_codes_app.py:299-322 | a branch created before its headquarters is adopted and listed too |
| `DirectoryProperties.DeleteBankOutcome` | src/app.py:148-156 | success exactly for a valid stored code; otherwise the validation error or "Item does not exist.", and nothing is written |
| `DirectoryProperties.RemoveBankKeepsValid` | src/models.py:15-17 | removal with SET NULL keeps the invariant |
| `DirectoryProperties.DeleteBankPreservesValid` | src/app.py:148-156 | delete_bank keeps the store invariant |
| `DirectoryProperties.DeleteRemovesOnlyTheKey` | tests/unit/test_app.py:603-731 | only the one key goes; other rows keep their fields and lose only a link to it; the code then reads, and deletes, as not found; remaining branches read as before |
| `DirectoryProperties.DeleteShrinksBranchLists` | tests/unit/test_app.py:603-731 | a deleted branch leaves its headquarters' list, which shrinks by one, and no other list |
| `DirectoryProperties.DeleteHeadquartersOrphansBranches` | src/models.py:15-17 | deleting a headquarters keeps its branches, with the link cleared and reading as before |
| `DirectoryProperties.DeleteShrinksCountryList` | tests/unit/test_app.py:603-731 | the owner's bank list loses exactly the deleted code; other countries' lists are unchanged |
| `DirectoryProperties.InsertRowKeepsValid` | src/utils.py:43-62 | one bulk step keeps the invariant for a well-formed record |
| `DirectoryProperties.CreateBanksPreservesValid` | src/utils.py:43-62 | the bulk load keeps the invariant for well-formed records |
| `DirectoryProperties.CreateBanksSucceedsIff` | src/utils.py:43-62 | the load goes through exactly when the codes are distinct and new and every country is stored |
| `DirectoryProperties.LinkAtShift` | src/utils.py:47-49 | the candidate lookup of a later record sees the rows stored by earlier ones |
| `DirectoryProperties.CreateBanksAppendsCodes` | src/utils.py:43-62 | the records' codes are appended in order, and countries are unchanged |
| `DirectoryProperties.CreateBanksKeepsStored` | src/utils.py:43-62 | exactly the records' codes are added, and earlier rows are unchanged |
| `DirectoryProperties.CreateBanksInsertsEach` | tests/unit/utils.py:317-343 | each record becomes one row, linked to its candidate exactly when that was stored or came earlier |
| `DirectoryProperties.CreateBanksStopsAtFirstFailure` | src/utils.py:51-62 | a failed load failed on one record with the missing-country or duplicate error, and the rows before it stay in place |
| `DirectoryProperties.BulkHeadquartersUnlinked` | tests/unit/utils.py:317-330 | a headquarters record is never linked to itself |
| `DirectoryProperties.SortedLoadLinksBranches` | src/data_processing.py:60-62 | with headquarters first, every branch whose candidate is a record is linked to it and listed among its branches |
| `DirectoryProperties.ExtractThenLoadLinksBranches` | src/data_processing.py:60-64 | extraction followed by the load links every branch to its headquarters record |
| `DirectoryProperties.BranchBeforeHeadquartersStaysOrphan` | src/utils.py:47-49 | for any store without the headquarters code, a load of a branch followed by its headquarters stores the branch with no link, so it is not among that headquarters' branches |
| `DirectoryProperties.AddCountriesSucceedsIff` | src/utils.py:80-82 | the one commit succeeds exactly when the ISO2 codes are distinct and new |
| `DirectoryProperties.AddCountriesKeys` | src/utils.py:80-82 | exactly the records' ISO2 codes are added |
| `DirectoryProperties.AddCountriesSize` | tests/unit/test_utils.py:62-67 | the number of countries grows by the number of records |
| `DirectoryProperties.AddCountriesValues` | src/utils.py:80-82 | every record's name is stored under its code, and earlier countries are unchanged |
| `DirectoryProperties.CreateCountriesAddsEach` | src/utils.py:80-82 | all records or none; a clash is the unique-ISO2 conflict and writes nothing; banks are untouched |
| `Service.SwiftDirectory.constructor` | src/database.py:11-13 | an empty, valid store |
| `Service.SwiftDirectory.CreateCountries` | src/utils.py:80-82 | the loop followed by one commit ends as Directory.CreateCountries says, and keeps the invariant |
| `Service.SwiftDirectory.CreateBanks` | src/utils.py:43-62 | the loop of lookups, inserts and commits ends as Directory.CreateBanks says; the invariant is kept for well-formed records |
| `Service.SwiftDirectory.CreateBank` | src/app.py:99-124 | the steps end as Directory.CreateBank says, and keep the invariant |
| `Service.SwiftDirectory.DeleteBank` | src/app.py:148-156 | the steps end as Directory.DeleteBank says, and keep the invariant |

## Left out

- Reading the spreadsheet (`pd.read_excel`) and the file-not-found paths of
  `src/data_processing.py`: file I/O. The model starts from rows that have
  already been read.
- Database plumbing: sessions, commits as I/O, integer ids, the engine and
  `PRAGMA` settings in `src/database.py`, and `get_session`. The store is maps
  keyed by code. A commit is the point where the new snapshot becomes the
  store.
- FastAPI routing, `lifespan` and the HTTP status numbers. These become the
  four error kinds.
- The `create_banks` and `create_countries` copies in `src/app.py:26-81`.
  They are an older copy; the one at line 44 strips addresses, which the
  tests do not expect.
- The `app/` directory. It is a prototype with no behaviour.
- Unicode: character classes are ASCII only.
- Transactions and concurrency. Each operation runs alone.
- The adoption rule is not in `src/app.py` as shown, and no test asserts it.
  It is taken from the integration test's expected data: the C1234567XXX
  entry at tests/integration/test_swift_codes_app.py:81-98 lists the branch
  C1234567890, which was stored before its headquarters was posted at
  lines 282-303. The read loop at lines 311-322 only reads the bulk records,
  and C1234567XXX is not one of them, so that entry is never compared. The
  model assumes that adoption compares the first 8 characters exactly, case
  included, and takes only 11-character codes.
- Pydantic's `min_length`/`max_length` checks on the view classes and their
  error texts. `BankBase` declares `Field(min_length=2, max_length=2)` for
  `countryISO2` and `Field(min_length=11, max_length=11)` for `swiftCode`
  (src/models.py:33,35). A request body with a code of the wrong length would
  be refused by those checks before `check_code_length` runs. The model
  instead reports the `check_*` messages that tests/unit/test_app.py:425-536
  expect for such bodies. The table models do not enforce the field lengths.
- Storage failures. In the model the store never fails on its own, so
  create_bank and delete_bank never answer with an internal error. The only
  internal error is the bulk load's missing country, the NOT NULL failure on
  `bank.country_id`. Any other database failure is not modelled.
- The order of country records with equal ISO2 codes. `sort_values(by="iso2")`
  is not stable by default. Such ties only arise between records with the same
  code and different names, and the one commit of `create_countries` then
  fails anyway. The two-column bank sort is stable in pandas. The model's sort
  is not proved stable, and no property here depends on how rows with equal
  keys are ordered.
- Blank cells in the country columns.
- `Directory.InsertRow` checks the missing country before the duplicate
  code. The database reports whichever constraint it checks first.
- `Service.SwiftDirectory.CreateBanks` promises the store invariant only for
  well-formed records. The source copies whatever dictionaries it is given.
