# Cenaris compliance portal — verified model of its core rules

Cenaris is a Flask web application in which organisations upload
compliance evidence, see a compliance dashboard built from machine-learning
results in Azure Data Lake Storage (ADLS), and export PDF reports. This
project models in Dafny the rules at its core and proves what they promise:

- **Dashboard data** (`app/services/azure_data_service.py`):
  - reading a results CSV into records;
  - summarising the records of one file (`process_adls_data`);
  - listing result files through ADLS paths or the Blob fallback;
  - the search paths, merged by file path;
  - the three module-level caches;
  - choosing which files the dashboard summarises.
- **Role-based access control** (`app/models.py`, `app/services/rbac.py`):
  - the effective permission codes of a role, which walk the inheritance graph safely on cycles;
  - `has_permission` with its request cache and the legacy fallback;
  - seeding the built-in roles of an organisation, which is idempotent;
  - the default role of a legacy membership.
- **Onboarding**:
  - the `require_onboarding` gate;
  - the organisation, billing, logo and theme steps;
  - the once-only welcome e-mail;
  - the theme and cookie helpers;
  - the logo blob name;
  - the billing form's both-or-neither rule.
- **Uploads** (`app/services/file_validation.py`): extension whitelist, size limit, magic-number check, file-name sanitising, and the order of the checks.
- **Alerts** (`app/services/alert_service.py`): the throttle keyed by severity and alert type, and recipient parsing.
- **Reports** (`app/services/report_generator.py`): the rows each section shows.
- **Configuration**:
  - `config.py`: the configuration classes;
  - `setup_azure.py`: the `.env` merge.

One Dafny module per file:

| file | module | source |
|---|---|---|
| wrappers.dfy | `Wrappers` | `Option` / `Result` |
| text.dfy | `Text` | the Python `str` operations used (`strip`, `lower`, `split`, `startswith`, `os.path.splitext`, `basename`) |
| decimal.dfy | `Decimal` | `int()` on text, `str()` of an int |
| compliance_rows.dfy | `ComplianceRows` | `read_adls_file`, `process_adls_data`, `get_file_analysis_summary` |
| compliance_listing.dfy | `ComplianceListing` | `_safe_int_env`, `_list_files_via_blob`, path listing, search paths, merge by path, dashboard file selection |
| compliance_service.dfy | `ComplianceService` | `AzureDataLakeService` with its caches, `get_compliance_files`, `get_dashboard_summary` |
| rbac_graph.dfy | `Rbac` | `effective_permission_codes`, `has_permission` |
| rbac_seed.dfy | `RbacSeed` | `ensure_rbac_seeded_for_org` on values |
| rbac_defaults.dfy | `RbacDefaults` | what the default grant and inheritance tables give |
| rbac_store.dfy | `RbacStore` | the seeding as a class over the permission and role tables, `choose_default_role_id_for_membership` |
| accounts.dfy | `Accounts` | `Organization`, `User`, `OrganizationMembership` helpers, `_is_pending` |
| alerts.dfy | `Alerts` | `AlertService` |
| file_validation.dfy | `FileValidation` | `FileValidationService` |
| onboarding.dfy | `Onboarding` | `require_onboarding`, the onboarding routes |
| forms.dfy | `Forms` | `OrganizationBillingForm.validate` |
| reports.dfy | `Reports` | `format_file_size`, the report sections |
| config.dfy | `Config` | `config.py` |
| env_setup.dfy | `EnvSetup` | `setup_azure_credentials` |

Objects whose fields the code updates in place are classes:

- `AzureDataLakeService` holds the caches.
- `AlertService`.
- `FileStream`.
- The request permission cache.
- The permission walk.
- The RBAC tables.
- The users table.
- The organisation record.
- The billing form.

Loops are methods proved against specification functions.

Time (`time.time()`, `datetime.now()`) is an `int` parameter `now`. The following are parameters too:

- the process environment;
- the downloaded file contents;
- the answers typed at the console;
- `secure_filename`;
- Python's `float()`;
- the random hex of `uuid4`;
- whether an upload or a mail send succeeds.

## Rules as the code applies them

- **Overall row.** The Overall row is matched after `.lower()`, so any capitalisation of "overall" counts.
- **No Overall row.** Without an Overall row the compliance rate is 0. No average of the framework scores is taken.
- **Duplicate framework names.** Every non-Overall row is kept, in order, duplicates included.
- **Status counting.** Statuses are lowercased before they are counted.

## Model

| member | source | states |
|---|---|---|
| ComplianceRows.MapRow | app/services/azure_data_service.py:346-363 | The loop over one CSV row's cells computes the row mapping: keys are stripped; Framework/Status values stripped (missing → ''); Compliance_Score through `float` (missing/empty → 0.0). |
| ComplianceRows.ApplyFieldFails | app/services/azure_data_service.py:349-358 | Mapping a cell fails exactly when it is a surplus cell (a row longer than its header) or a non-empty Compliance_Score cell that `float` rejects. |
| ComplianceRows.MapFieldsFailsIffBadField | app/services/azure_data_service.py:346-363 | A row fails to map if and only if one of its cells is a surplus cell (a row longer than its header) or a non-empty Compliance_Score cell that `float` rejects. |
| ComplianceRows.ErrorSticks | app/services/azure_data_service.py:346-363 | Once a row's mapping has failed, later cells do not undo the failure. |
| ComplianceRows.MappedTextColumn | app/services/azure_data_service.py:349-358 | A mapped Framework/Status is the stripped value of the last cell whose stripped header is that name. It is '' for an empty cell, and absent when no header matches. |
| ComplianceRows.MappedScore | app/services/azure_data_service.py:355-356 | A mapped score is `float` of the last Compliance_Score cell. An empty cell gives 0.0, and no such cell leaves the score absent. |
| ComplianceRows.ReadCsvRows | app/services/azure_data_service.py:343-378 | The CSV loop returns the all-or-nothing record list. |
| ComplianceRows.MapRowsFailsIffBadField | app/services/azure_data_service.py:346-378 | Reading fails if and only if some cell of some row is a surplus cell (a row longer than its header) or a non-empty Compliance_Score cell that `float` rejects. |
| ComplianceRows.RowErrorSticks | app/services/azure_data_service.py:346-378 | A failed row fails the whole read, whatever follows. |
| ComplianceRows.CsvRecordsAllOrNothing | app/services/azure_data_service.py:343-378 | A surplus cell (a row longer than its header) or a non-empty Compliance_Score cell that `float` rejects, anywhere in the file, yields no records at all. There are never more records than rows, and empty mapped rows are dropped. |
| ComplianceRows.ReadAdlsFile | app/services/azure_data_service.py:302-378 | An unavailable download, or a path that is neither .csv nor .json, yields no data. |
| ComplianceRows.NonOverallAppend | app/services/azure_data_service.py:395 | Filtering out Overall rows distributes over concatenation. |
| ComplianceRows.NonOverallCounts | app/services/azure_data_service.py:395 | Each non-Overall record keeps its multiplicity, and every Overall record is removed. The result is the rows in order, with no dedup. |
| ComplianceRows.NonOverallHasNoOverall | app/services/azure_data_service.py:395 | No row left after the filter is an Overall row. |
| ComplianceRows.StatusCountsBounded | app/services/azure_data_service.py:398-401 | complete + needs review + missing ≤ the number of rows. |
| ComplianceRows.Entries | app/services/azure_data_service.py:421-427 | There is one framework entry per row, in order. This is the shape `SummaryOfRows` relies on for `len(frameworks) == total_requirements`. |
| ComplianceRows.SummaryOfRows | app/services/azure_data_service.py:394-438 | For non-empty input: `len(frameworks) == total_requirements` is the number of non-Overall rows; the status counts are bounded by it; the band follows the rate. |
| ComplianceRows.RateIsFirstOverall | app/services/azure_data_service.py:404-408 | The rate is the score of the first Overall row. A missing score counts as 0. |
| ComplianceRows.RateWithoutOverall | app/services/azure_data_service.py:404-408 | Without an Overall row the rate is 0. No average is taken. |
| ComplianceRows.OverallIgnoresCase | app/services/azure_data_service.py:395-427 | Any spelling whose lowercase is "overall" marks the Overall row. Respelling an Overall row's framework that way changes nothing in the `process_adls_data` summary: not the rate, the counts or the framework entries. |
| ComplianceRows.BandMonotone | app/services/azure_data_service.py:411-418 | Excellent ≥ 9, Good ≥ 7, Needs Attention ≥ 5, else Critical. A higher rate never gives a lower band, and non-empty input never gives "No Data". |
| ComplianceRows.EmptyInputIsNoData | app/services/azure_data_service.py:382-392 | Empty input gives zero counts, a zero rate, "No Data" and no frameworks. |
| ComplianceRows.FileAnalysisSummary | app/services/azure_data_service.py:248-285 | The summary of a file carries its base name and its records. Its counts are `process_adls_data` of those records, and a file without records is "No Data" with no frameworks. |
| ComplianceListing.SafeIntEnv | app/services/azure_data_service.py:38-42 | A variable set to '' yields the default. |
| ComplianceListing.SafeIntEnvUnset | app/services/azure_data_service.py:38-42 | An unset variable yields the default. |
| ComplianceListing.SafeIntEnvSet | app/services/azure_data_service.py:38-42 | A variable holding the decimal text of n yields n. |
| ComplianceListing.SafeIntEnvGarbage | app/services/azure_data_service.py:38-42 | Text without any digit yields the default, because `int()` raises. |
| ComplianceListing.MakeInfo | app/services/azure_data_service.py:115-213 | An entry keeps the full path and its base name. It is labelled "Compliance Summary" if and only if the lowercased base name contains "summary". |
| ComplianceListing.BlobPrefix | app/services/azure_data_service.py:96-98 | The blob prefix is empty, or it ends in '/' and does not start with '/'. |
| ComplianceListing.BlobPrefixIdempotent | app/services/azure_data_service.py:96-98 | Computing the prefix of a prefix changes nothing. |
| ComplianceListing.BlobEntriesWellFormed | app/services/azure_data_service.py:108-126 | Every entry kept from a blob listing is a non-empty .csv/.json name, correctly labelled. |
| ComplianceListing.BlobEntriesPrefix | app/services/azure_data_service.py:108-126 | Listing more blobs only extends the entries already found. |
| ComplianceListing.BlobListing | app/services/azure_data_service.py:89-134 | Entries are well formed, and a positive cap bounds their number. |
| ComplianceListing.BlobListingCut | app/services/azure_data_service.py:128-129 | The listing stops exactly at the blob whose entry reaches the cap. |
| ComplianceListing.ListFilesViaBlob | app/services/azure_data_service.py:89-134 | The loop with its early `break` returns the kept entries, cut at the cap. There are none without a blob client or when listing raises. |
| ComplianceListing.PathEntriesWellFormed | app/services/azure_data_service.py:199-213 | Path entries are non-directory .csv/.json files, correctly labelled. |
| ComplianceListing.IndexOfPath | app/services/azure_data_service.py:207-219 | The index found, if any, holds that path. |
| ComplianceListing.UpsertSpec | app/services/azure_data_service.py:207-226 | Assigning `files_by_path[path]` adds the path and keeps the other entries where they were. Entry paths stay distinct. |
| ComplianceListing.UpsertAllSpec | app/services/azure_data_service.py:189-232 | Merging a listing yields the union of the paths, keeps them distinct, and adds no entry that came from neither side. |
| ComplianceListing.UpsertAllConcat | app/services/azure_data_service.py:198-220 | Merging the path entries and then the Blob fallback listing one after the other equals merging their concatenation. |
| ComplianceListing.UpsertAllWellFormed | app/services/azure_data_service.py:189-232 | Merging well-formed entries yields only well-formed entries. |
| ComplianceListing.SearchPaths | app/services/azure_data_service.py:177-187 | Each path starts with the results path. There are 3 paths when both the user and the organisation are truthy, 1 otherwise, and only the results path when there is no user. |
| ComplianceListing.SearchPathsSpec | app/services/azure_data_service.py:177-187 | The paths in priority order, under `/{year}/{MM}`: with both ids `org_{o}/user_{u}`, then `organizations/{o}/user_{u}`, then `user_{u}`; with a user only, `user_{u}` alone. |
| ComplianceListing.KeyOrder | app/services/azure_data_service.py:489-493 | The sort key order (lowercased name, then time, with a missing time as the minimum) is a strict total order. |
| ComplianceListing.InsertDescSpec | app/services/azure_data_service.py:489-493 | Inserting into a descending list keeps it descending and adds exactly one element. |
| ComplianceListing.SortDescSpec | app/services/azure_data_service.py:489-493 | `sorted(..., reverse=True)` is descending and a permutation of its input. |
| ComplianceListing.SortDescStable | app/services/azure_data_service.py:489-493 | The sort is stable: the entries sharing a key (same lowercased name, same or no time) appear in input order. |
| ComplianceListing.FilterSpec | app/services/azure_data_service.py:494-497 | A filter keeps only names containing the word, all taken from the input, and is empty if and only if no name contains the word. |
| ComplianceListing.SelectFilesFrom | app/services/azure_data_service.py:494-499 | Same as `ComplianceListing.SelectFilesSpec`, stated for a list that is already sorted. |
| ComplianceListing.SelectFilesSpec | app/services/azure_data_service.py:489-499 | Input files yield at least one selected file, all drawn from the input, at most max(1, max_files) of them. Any "summary" file reduces the selection to that single file, and a "compliance_summary" file wins over the others. |
| ComplianceService.PathFilesSpec | app/services/azure_data_service.py:192-226 | A search path contributes every entry the path listing yielded, even when it then raised. The Blob listing is added exactly on the "unsupported account features" error. Without an ADLS client the path contributes the Blob listing alone. |
| ComplianceService.PathFilesWellFormed | app/services/azure_data_service.py:192-226 | A listing of one search path holds only well-formed entries. |
| ComplianceService.CollectWellFormed | app/services/azure_data_service.py:189-232 | The merged files have distinct paths and are well formed. |
| ComplianceService.FirstHitWins | app/services/azure_data_service.py:217-230 | When user and organisation are both given, a first path that contributes files without raising an ordinary error ends the search with those files. |
| ComplianceService.CollectFromListings | app/services/azure_data_service.py:189-232 | Every merged path comes from the listing of one of the search paths. |
| ComplianceService.CollectKeepsAcc | app/services/azure_data_service.py:189-232 | A path already merged stays merged to the end of the search. |
| ComplianceService.CollectKeepsListed | app/services/azure_data_service.py:189-232 | Every file a search path contributes is merged. This holds when the search does not stop early, and otherwise when every earlier path contributed nothing. |
| ComplianceService.CollectUnfold | app/services/azure_data_service.py:190-230 | One step of the search loop. The path's entries are always merged. The search stops there only when something has been merged, the early stop applies, and the listing did not raise an ordinary error, because the `continue` skips the test. |
| ComplianceService.ListSearchPaths | app/services/azure_data_service.py:189-232 | The loop merges each yielded entry, then the Blob fallback after an "unsupported account features" error, and computes the merge of all search paths. |
| ComplianceService.AnalyzerSound | app/services/azure_data_service.py:248-401 | Every file summary has status counts within its total. |
| ComplianceService.SummaryFor | app/services/azure_data_service.py:510-522 | A dashboard entry takes its framework and last-updated time from the listing and its name from the analysis. Its counts fit within the total. |
| ComplianceService.SummariesSpec | app/services/azure_data_service.py:509-522 | There is one entry per selected file, in order. |
| ComplianceService.TotalsBounded | app/services/azure_data_service.py:524-527 | The summed status totals stay within the summed requirement totals. |
| ComplianceService.MaxLastUpdatedSpec | app/services/azure_data_service.py:539 | `max` over the last-updated times raises (`TypeError`) if and only if there are at least two times and one is missing. Otherwise it returns the largest. |
| ComplianceService.SummarizeFiles | app/services/azure_data_service.py:502-530 | The accumulation loop yields the entries, the four totals and the rate sum. |
| ComplianceService.BuildDashboard | app/services/azure_data_service.py:462-563 | Building the dashboard computes `DashboardFor` on the listed files. |
| ComplianceService.DashboardForSpec | app/services/azure_data_service.py:462-563 | No files gives an empty dashboard, "Connected - No Files Found" with an ADLS client and "Not Connected" without. With files found, the summaries are those of the selected files of the sorted listing (1 to max(1, max_files) of them), the four totals are the sums of their counts, and the rate is their mean. An error gives the error dashboard. |
| ComplianceService.FilledDashboardSpec | app/services/azure_data_service.py:530-543 | The filled dashboard counts every listed file. Its four totals are the sums of the entries' counts, its rate is their mean, and its time is the latest entry time. It fails (TypeError) exactly when there are several entries and one has no time. |
| ComplianceService.AzureDataLakeService.constructor | app/services/azure_data_service.py:47-87 | The container and results path come from the environment, with defaults 'results' and 'compliance-results'. The clients exist only with a connection string and an SDK, and none when creating them raises. The limits are read through `_safe_int_env` and all caches start empty. |
| ComplianceService.AzureDataLakeService.GetComplianceFiles | app/services/azure_data_service.py:136-246 | Returns no files without a client. A fresh failure returns no files and a fresh listing returns its cached files. A failure records the time. Otherwise the search result is cached when the cache time is positive. Files always have distinct paths. |
| ComplianceService.AzureDataLakeService.GetDashboardSummary | app/services/azure_data_service.py:440-563 | A cached dashboard is served while younger than the cache time or the stale bound. Otherwise the dashboard is computed from the listing. Only non-error results are cached, and only when the cache time is positive. A served dashboard leaves the listing and failure caches alone; otherwise they change as in `GetComplianceFiles`. |
| Rbac.CodesInSnoc | app/models.py:317-320 | One more permission adds its stripped code when that code is non-empty. |
| Rbac.CodesInPlain | app/models.py:317-320 | Plain codes are their own stripped codes. |
| Rbac.CodesOfMember | app/models.py:304-326 | A code of a set of roles is a code of one of its roles. |
| Rbac.ClosedHoldsReach | app/models.py:311-326 | Every role reachable from a member of a set closed under inheritance is in that set. |
| Rbac.DeadReachesNothing | app/models.py:310-311 | A role with a falsy or unknown id reaches nothing. |
| Rbac.CollectCodes | app/models.py:317-320 | The permission loop adds exactly the stripped, non-empty codes. |
| Rbac.PermissionWalk.constructor | app/models.py:306-307 | The walk starts with nothing seen and no codes. |
| Rbac.PermissionWalk.Enter | app/models.py:312-315 | Entering marks the role seen once. |
| Rbac.PermissionWalk.AddCodes | app/models.py:317-320 | Adds the role's codes. |
| Rbac.PermissionWalk.Walk | app/models.py:309-324 | A walk terminates on cycles and keeps the walk invariant. The start role is seen, and everything newly seen is reachable from it. |
| Rbac.PermissionWalk.WalkInherited | app/models.py:322-324 | After the loop every live inherited role is seen, and everything newly seen is reachable. |
| Rbac.EffectivePermissionCodes | app/models.py:304-326 | The codes are exactly the stripped, non-empty codes of the roles reachable through `inherits`, the role itself included. Each role is visited once, and exactly the reachable ones are visited. |
| Rbac.RequestCache.constructor | app/models.py:207-211 | The request cache starts empty. |
| Rbac.RequestCache.HasPermission | app/models.py:196-230 | Equals the decision specification, namely `code in effective_permission_codes()` with an RBAC role and the legacy rule otherwise. Cached entries stay correct, and only the role looked up is added. |
| Rbac.RefusedWithoutCodeOrMembership | app/models.py:197-203 | A blank code or no membership is refused. |
| Rbac.LegacyFallback | app/models.py:224-230 | Without an RBAC role: an admin-like legacy role is allowed any non-blank code, and any other role only documents.view and documents.upload. |
| RbacSeed.TableOf | app/services/rbac.py:99-102 | Row i of the role table has id i + 1. |
| RbacSeed.PermissionCodesDistinct | app/services/rbac.py:21-31 | The nine permission codes are distinct. |
| RbacSeed.SystemRolesDistinct | app/services/rbac.py:10-15 | The four built-in role names are distinct. |
| RbacSeed.Missing | app/services/rbac.py:91-94 | The codes still to add are exactly those not yet present, in order. |
| RbacSeed.AddPermissions | app/services/rbac.py:79-96 | Adding keeps the existing rows and adds every missing code, without duplicates. It is a no-op when all codes exist. |
| RbacSeed.FindRoleSpec | app/services/rbac.py:99-106 | The row found carries the name and is the last such row. Nothing is found only when no row carries the name. |
| RbacSeed.FindUnique | app/services/rbac.py:99-106 | Under the (organisation, name) unique constraint, the row found is the only one with that name. |
| RbacSeed.GetOrCreate | app/services/rbac.py:104-112 | An existing role is reused. Otherwise exactly one row is appended. Uniqueness is kept. |
| RbacSeed.CreateSystemRoles | app/services/rbac.py:114-117 | All four built-in roles exist afterwards, with at most four rows added and uniqueness kept. |
| RbacSeed.GrowsKeepsFind | app/services/rbac.py:119-149 | Grants and edges do not move roles. |
| RbacSeed.Granted | app/services/rbac.py:126-133 | Each available code not yet held is appended to the role's permissions. Held codes are kept and none is duplicated. |
| RbacSeed.GrantTo | app/services/rbac.py:126-133 | Granting changes only that role, and changes nothing when it already holds the codes. |
| RbacSeed.AddOnce | app/services/rbac.py:147-149 | An edge is added only when absent. |
| RbacSeed.LinkTo | app/services/rbac.py:141-149 | Linking adds the inheritance edge once and changes only that role. |
| RbacSeed.LinkAllDefaults | app/services/rbac.py:141-149 | The inheritance loop adds exactly the three default edges. |
| RbacSeed.GrantDefaultsSpec | app/services/rbac.py:135-138 | Each built-in role then holds its default grants. |
| RbacSeed.LinkDefaultsSpec | app/services/rbac.py:141-149 | The three default inheritance edges are present. |
| RbacSeed.SeedAllEstablishes | app/services/rbac.py:79-151 | Seeding keeps the store valid and leaves every permission, built-in role, default grant and default edge present. |
| RbacSeed.SeedAllNoOp | app/services/rbac.py:79-151 | On a fully seeded organisation, seeding changes nothing. |
| RbacSeed.EnsureSeededIdempotent | app/services/rbac.py:49-151 | Running `ensure_rbac_seeded_for_org` twice equals running it once. |
| RbacSeed.FastExitWhenPresent | app/services/rbac.py:56-74 | With all four built-in roles present, the fast exit is taken and nothing changes. |
| RbacSeed.FastExitMeansPresent | app/services/rbac.py:58-74 | Under the unique constraint, a count ≥ 4 means all four built-in roles exist. |
| RbacDefaults.SeededAdminHoldsAll | app/services/rbac.py:34-46 | In any fully seeded organisation, Organisation Admin effectively holds all nine permission codes, through its inheritance of Compliance Manager and Member. |
| RbacDefaults.ChainHoldsAll | app/services/rbac.py:34-46 | Admin grants plus the manager and member grants inherited along the chain cover every code. |
| RbacDefaults.SeedFresh | app/services/rbac.py:79-151 | Seeding an organisation with no built-in roles appends exactly the four roles, with their grants and edges. |
| RbacDefaults.DefaultReach | app/services/rbac.py:42-46 | Under the default edges: Admin reaches {Admin, Manager, Member}, Manager reaches {Manager, Member}, Auditor reaches {Auditor, Member}, and Member reaches only itself. |
| RbacDefaults.AdminClosure | app/services/rbac.py:34-46 | Admin's effective codes are exactly all nine codes. |
| RbacDefaults.ManagerClosure | app/services/rbac.py:34-46 | Manager's effective codes are exactly its four grants. |
| RbacDefaults.AuditorClosureIs | app/services/rbac.py:34-46 | Auditor's effective codes are exactly view, export and upload. |
| RbacDefaults.MemberClosure | app/services/rbac.py:34-46 | Member's effective codes are exactly view and upload. |
| RbacDefaults.SeededFreshOrg | app/services/rbac.py:49-151 | A freshly seeded organisation has the four roles, with exactly the default effective codes. |
| RbacStore.DefaultRoleName | app/services/rbac.py:163-167 | 'admin' and 'organisation/organization administrator' (stripped and lowercased) map to Organisation Admin. Everything else maps to Member. |
| RbacStore.Database.constructor | app/services/rbac.py:79-151 | The tables start as given. |
| RbacStore.Database.AddMissingPermissions | app/services/rbac.py:79-96 | The permission loop computes `AddPermissions`. |
| RbacStore.Database.GetOrCreateRole | app/services/rbac.py:104-112 | Computes `GetOrCreate`. |
| RbacStore.Database.Grant | app/services/rbac.py:126-133 | The grant loop computes `GrantTo`. |
| RbacStore.Database.AddInherit | app/services/rbac.py:146-149 | One edge computes `LinkTo`. |
| RbacStore.Database.LinkEdges | app/services/rbac.py:141-149 | The inheritance loop computes `LinkAll`. |
| RbacStore.Database.EnsureSeeded | app/services/rbac.py:49-151 | `ensure_rbac_seeded_for_org` leaves the tables in `EnsureSeededState`. A falsy organisation id changes nothing. |
| RbacStore.Database.ChooseDefaultRoleId | app/services/rbac.py:154-174 | No membership or organisation gives None with nothing changed. Otherwise the organisation is seeded and the id of the role named by the legacy mapping is returned. That role always exists, so the None branch never occurs. |
| RbacStore.SeededHasRoles | app/services/rbac.py:49-151 | After seeding, all four built-in roles exist. |
| Accounts.FilledIffVisible | app/models.py:93-101 | `(v or '').strip()` is truthy if and only if the value holds a non-whitespace character. |
| Accounts.OnboardingIgnoresBilling | app/models.py:109-115 | Onboarding completeness does not depend on the billing details. |
| Accounts.DeclarationsNeedExplicitYes | app/models.py:103-115 | Only an explicit True for operating in Australia, with both stamps set, can complete onboarding. |
| Accounts.NameParts | app/models.py:156-157 | At most two non-empty stripped parts. There are none exactly when both names are blank. |
| Accounts.DisplayName | app/models.py:153-160 | The display name has no surrounding whitespace. |
| Accounts.DisplayNameChoice | app/models.py:153-160 | The choice is the trimmed full name, else the first and last names joined by one space (or the one given), else the trimmed e-mail. |
| Accounts.DisplayNameEmpty | app/models.py:153-160 | The display name is empty exactly when all four columns are blank. |
| Accounts.DisplayRoleName | app/models.py:36-40 | The role name is never empty and has no surrounding whitespace. |
| Accounts.DisplayRoleNameChoice | app/models.py:36-40 | The choice is the trimmed RBAC role name, else the trimmed legacy role, else 'User'. |
| Accounts.PendingTransitions | _tmp_debug_invite_resend.py:141-149 | Acceptance, revocation or a password ends the pending state. Without an invite or a user nothing is pending. An open invite to a password-less user is pending. |
| Alerts.WindowTable | app/services/alert_service.py:45-91 | The windows are critical 5, high 15, medium 30 and low 60 minutes. Any other severity gets 30. |
| Alerts.KeyInjective | app/services/alert_service.py:85 | Distinct (severity, type) pairs give distinct keys. |
| Alerts.FirstAlertSent | app/services/alert_service.py:85-100 | A first alert for a key is sent and stamps now. Counts are unchanged. |
| Alerts.RepeatThrottled | app/services/alert_service.py:89-99 | Within the window, a repeat is refused, the stamp is kept and that key's count goes up by one. After the window, it is sent again. |
| Alerts.KeysIndependent | app/services/alert_service.py:85-100 | An alert under one key neither stamps nor counts another key. |
| Alerts.Recipients | app/services/alert_service.py:68 | There are never more recipients than comma-separated parts. |
| Alerts.RecipientsMembers | app/services/alert_service.py:68 | Recipients are exactly the non-empty stripped parts. |
| Alerts.RecipientsInOrder | app/services/alert_service.py:68 | Recipients keep input order: the recipients of two runs of parts are those of the first followed by those of the second. |
| Alerts.RecipientsWellFormed | app/services/alert_service.py:64-68 | Recipients are non-blank, trimmed, and free of commas. |
| Alerts.AlertService.constructor | app/services/alert_service.py:35-56 | The service starts disabled, with no recipients and no throttle state. |
| Alerts.AlertService.InitApp | app/services/alert_service.py:58-77 | Recipients are parsed from a non-empty setting. The service is enabled if and only if enabled in the config and there are recipients. The throttle state is untouched. |
| Alerts.AlertService.ShouldSendAlert | app/services/alert_service.py:79-100 | Disabled: refuse and change nothing. Enabled: the throttle decision and its new state. |
| Alerts.AlertService.AlertSecurityBreach | app/services/alert_service.py:204-213 | The alert is throttled as `security_<event>`, with HIGH for ACCOUNT_LOCKED/PERMISSION_DENIED and MEDIUM otherwise. |
| Alerts.AlertService.AlertResourceExhaustion | app/services/alert_service.py:335-344 | The alert is throttled as `resource_<type>`, with CRITICAL above 95 and HIGH otherwise. |
| Alerts.SeverityWindows | app/services/alert_service.py:210-341 | Security events get 15 minutes if and only if the event is ACCOUNT_LOCKED/PERMISSION_DENIED. Resource alerts get 5 minutes if and only if the value is > 95. |
| FileValidation.ContentType | app/services/file_validation.py:40-54 | The content type is None if and only if the file is not allowed. Otherwise it is the PDF or DOCX type. |
| FileValidation.AllowedExtensions | app/services/file_validation.py:13-54 | A file is allowed if and only if the name is non-empty and its lowercased extension is .pdf or .docx. Each extension maps to its type. |
| FileValidation.FileStream.constructor | app/services/file_validation.py:57-76 | The stream holds the data at the given position. |
| FileValidation.FileStream.Tell | app/services/file_validation.py:69-73 | Returns the position. |
| FileValidation.FileStream.Seek | app/services/file_validation.py:76 | Moves to the position given. |
| FileValidation.FileStream.SeekEnd | app/services/file_validation.py:72 | `seek(0, 2)` moves to the end. |
| FileValidation.FileStream.Read | app/services/file_validation.py:118 | `read(n)` returns at most n bytes from the position and advances past them. |
| FileValidation.Header | app/services/file_validation.py:117-118 | The first min(8, size) bytes. |
| FileValidation.SizeCheck | app/services/file_validation.py:78-90 | Accepted if and only if the size is ≤ 16 MiB. Otherwise it is FILE_TOO_LARGE with both sizes. |
| FileValidation.ValidateFileSize | app/services/file_validation.py:57-90 | Checks the stream length, with the position restored. |
| FileValidation.ContentCheckSpec | app/services/file_validation.py:101-155 | Passes if and only if the type is known and the header has its magic (%PDF / PK). A PDF without %PDF gives INVALID_PDF and a DOCX without PK gives INVALID_DOCX. |
| FileValidation.ValidateFileContent | app/services/file_validation.py:101-155 | Checks the first 8 bytes, with the position restored. |
| FileValidation.SliceTo | app/services/file_validation.py:191 | Python slicing `s[:k]`, negative k included. |
| FileValidation.SafeBase | app/services/file_validation.py:176-185 | The base name is never empty. |
| FileValidation.SanitizeAsWrittenTooLong | app/services/file_validation.py:188-191 | As written, "a." followed by 300 'x' gives a 301-character name. |
| FileValidation.Sanitize | app/services/file_validation.py:166-193 | The corrected sanitiser: the result is non-empty and ≤ 255 characters, and '' gives 'unnamed_file'. |
| FileValidation.SanitizeSpec | app/services/file_validation.py:176-193 | Names within the cap are kept. Longer names are cut to 255 characters, keeping the extension and the start of the name. Wherever the extension fits, the result equals the code as written. |
| FileValidation.ValidateOrder | app/services/file_validation.py:196-234 | The checks run extension, then size, then content, and the first failure is returned. Success carries the size, type, safe name (from the corrected sanitiser, equal to the code as written when the extension fits in 255 characters) and original name. |
| FileValidation.ValidateFile | app/services/file_validation.py:196-234 | `validate_file` computes `ValidateSpec` (with the corrected sanitiser), with the position restored. |
| FileValidation.FormatFileSize | app/services/file_validation.py:237-256 | 0 gives "0 B". Otherwise value × 1024^unit = size, the unit never passes GB, every unit below GB holds less than 1024, and climbing a unit leaves at least 1. |
| Forms.BillingForm.constructor | app/main/forms.py:63-87 | The form starts with the submitted fields and no errors. |
| Forms.BillingForm.Validate | app/main/forms.py:89-103 | The result is the base verdict unless exactly one field is blank, in which case it is invalid. One error is appended to the blank field, and the fields are unchanged. |
| Forms.MissingFieldsSpec | app/main/forms.py:89-103 | Whitespace counts as blank. Both blank or both given reports nothing. When only one is given, the other is reported. At most one field is reported, and one is reported if and only if exactly one is blank. |
| Onboarding.GateSpec | app/main/__init__.py:7-32 | Anonymous requests pass. Unverified users reach only main.index/main.set_theme and are otherwise sent to verification. A verified user without an organisation reaches only main.index. Otherwise the request passes if and only if the organisation exists and has completed onboarding, and is sent to onboarding if not. |
| Onboarding.SafeTheme | app/onboarding/routes.py:73-75 | The theme is always 'light' or 'dark'. |
| Onboarding.SafeThemeSpec | app/onboarding/routes.py:73-75 | 'dark' if and only if the stripped, lowercased input is 'dark'. None gives 'light'. The function is idempotent. |
| Onboarding.CookieSecureSpec | app/onboarding/routes.py:78-80 | The cookie is insecure if and only if the host starts with 127.0.0.1 or localhost, ignoring case. |
| Onboarding.WelcomeOnce | app/onboarding/routes.py:21-66 | Nothing is sent once stamped. A send happens if and only if the user has an e-mail, has no stamp, mail is configured and nothing raises. The stamp changes exactly on a send, to now, and a later attempt sends nothing. |
| Onboarding.UserTable.constructor | app/onboarding/routes.py:47-49 | The table holds the users given. |
| Onboarding.UserTable.MaybeSendWelcomeEmail | app/onboarding/routes.py:47-70 | An unknown user is skipped. Otherwise the one-user rule is applied to that user's row only. |
| Onboarding.UserTable.ThemeStep | app/onboarding/routes.py:272-305 | Unverified users go to verification, and users without an organisation go to it. Skip sends the welcome e-mail and goes to the dashboard. A submit sets the safe theme cookie (secure per host), sends the welcome e-mail and goes to the dashboard. Otherwise the form is shown. |
| Onboarding.Clean | app/onboarding/routes.py:151-155 | `(v or '').strip() or None` is None or a non-empty stripped text, and is filled exactly when the input is. |
| Onboarding.CleanLower | app/onboarding/routes.py:156-200 | The same, lowercased. |
| Onboarding.SubmitOrganizationSpec | app/onboarding/routes.py:148-166 | The declarations and the privacy acknowledgement are stamped at the same instant by the same user. Onboarding is then complete if and only if the core fields are filled and the organisation operates in Australia. Billing is untouched. |
| Onboarding.LogoExtension | app/onboarding/routes.py:241-242 | The extension is always png/jpg/jpeg/webp. It is the lowercased text after the last '.' when that is whitelisted, and 'png' otherwise. |
| Onboarding.LogoBlobNameSpec | app/onboarding/routes.py:246-247 | The blob name lies under `organizations/{org}/branding/logo_`, and its extension is `.{ext}`. |
| Onboarding.OrganizationRecord.constructor | app/onboarding/routes.py:115-117 | The record holds the organisation given. |
| Onboarding.OrganizationRecord.OrganizationStep | app/onboarding/routes.py:85-171 | Unverified users go to verification. Filled core details skip to billing. A valid submit writes the cleaned form with the stamps and goes to billing. Otherwise the form is shown again. |
| Onboarding.OrganizationRecord.BillingStep | app/onboarding/routes.py:176-209 | Unverified users go to verification. Without an organisation id the user goes to the organisation step, and an id naming no organisation is a 404. Skip goes to the logo step untouched. A valid submit stores the cleaned billing e-mail (lowercased) and address and goes to the logo step. |
| Onboarding.OrganizationRecord.LogoStep | app/onboarding/routes.py:214-267 | A missing organisation, or incomplete onboarding, goes back to the organisation step. Skip, or a submit without a file, goes to the theme step untouched. Without a valid submit the form is shown again. A successful upload stores the blob name and type. A failed upload changes nothing and shows the form. |
| Reports.ScaleSpec | app/services/report_generator.py:36-41 | The scaled value × 1024^units climbed is the size. Every unit below TB holds less than 1024, and climbing leaves at least 1. |
| Reports.SizeLabelSpec | app/services/report_generator.py:32-41 | "Unknown" if and only if the size is None or 0. Otherwise B→KB→MB→GB→TB, with the value below 1024 except in TB. |
| Reports.FormatFileSize | app/services/report_generator.py:32-41 | The `for unit` loop with its early return computes the label. |
| Reports.Names | app/services/report_generator.py:133 | One requirement name per item, in order. |
| Reports.FrameworksReviewedSpec | app/services/report_generator.py:133 | 'N/A' for no items. Otherwise the text starts with the first name and its length is the sum of the names plus 2 per separator. |
| Reports.RecommendationsAppend | app/services/report_generator.py:235-242 | The recommendations of two item lists concatenate. |
| Reports.RecommendationsSpec | app/services/report_generator.py:235-242 | There is a recommendation for every Missing/Needs Review item and for nothing else, in input order. The priority is High if and only if the item is Missing, and never Low. |
| Reports.AllMetIff | app/services/report_generator.py:244-262 | There are no recommendations if and only if no item needs action. |
| Reports.GapRecommendations | app/services/report_generator.py:235-262 | The section is the table of recommendations, or the "All requirements are met" paragraph when there are none. |
| Reports.StatusPriorityAgrees | app/services/report_generator.py:240-318 | The readiness priority agrees with the recommendation priority, and it is Low exactly for items needing no action. |
| Reports.ReadinessRows | app/services/report_generator.py:310-324 | The overall row comes first, High if and only if not_met > 0, followed by one row for each of the first five items. |
| Reports.ActionsMatchRecommendations | app/services/report_generator.py:347-356 | The action rows match the recommendation rows one for one. |
| Reports.AccreditationActions | app/services/report_generator.py:345-373 | The action table when some item needs action, otherwise the "No actions required" paragraph. |
| Reports.FrameworkSummary | app/services/report_generator.py:428-435 | One row per item, in order. |
| Reports.FrameworkSummaryTotals | app/services/report_generator.py:428-435 | Compliant + Gaps = 1 on every row, Compliant is 1 if and only if the item is Complete, and the Compliant total is the number of Complete items. |
| Reports.EvidenceRepository | app/services/report_generator.py:456-482 | The empty-repository paragraph appears if and only if there are no documents. Otherwise the first min(20, n) documents are listed, in order. |
| Config.NormalizeDatabaseUrlSpec | config.py:8-14 | None and '' are unchanged. A postgres:// URL keeps its tail under postgresql://, other URLs are unchanged, and no result starts with postgres://. |
| Config.NormalizeIdempotent | config.py:8-14 | Normalising twice equals normalising once. |
| Config.FlagSpec | config.py:44-51 | An unset or empty variable takes the default, so "true" gives true and "false" gives false. A non-empty value decides alone. |
| Config.LoadDefaults | config.py:16-130 | With nothing set: verification is required only in production, TLS is on and SSL off, the port is 587, there is no sender, the default secret and container are used, and each class has its own SQLite URL. |
| Config.VerificationFromEnv | config.py:51-102 | An explicit REQUIRE_EMAIL_VERIFICATION gives the same flag in every class. |
| Config.DatabaseUrlNormalized | config.py:27-126 | The database URL is never empty and never postgres://. |
| Config.TestingExtendsDevelopment | config.py:116-130 | Testing equals development except for its database, TESTING, CSRF and insecure cookies. |
| EnvSetup.Entry | setup_azure.py:51-54 | Splits an entry line at its first '='. The key has no '=', and key + '=' + value is the stripped line. |
| EnvSetup.SplitFirst | setup_azure.py:53 | `split(c, 1)`: the parts rejoin to the input, and the first part holds no `c`. |
| EnvSetup.ReadEnvFile | setup_azure.py:47-54 | The read loop computes the parse of the lines. |
| EnvSetup.ParseKeys | setup_azure.py:50-54 | A key is read if and only if some entry line carries it. |
| EnvSetup.ParseLastWins | setup_azure.py:50-54 | A key's value is the one on its last entry line. |
| EnvSetup.Merged | setup_azure.py:58-68 | The merged keys are the existing keys plus the five written ones. |
| EnvSetup.MergeAnswers | setup_azure.py:58-68 | The two assignments and three defaults compute the merge. |
| EnvSetup.MergeSpec | setup_azure.py:58-82 | The answers always win. A default only fills a missing key. Other existing keys stay in the merged dictionary but are not written back. |
| EnvSetup.SetupCredentials | setup_azure.py:16-82 | An existing file without y/yes cancels. A blank connection string stops before writing. Otherwise the merged settings are written as the five `KEY=value` lines, with the container defaulting to compliance-documents. |

## Left out

- Network and storage SDK calls are parameters:
  - ADLS and Blob listing, and downloads;
  - `upload_blob`;
  - `mail.send`;
  - the database session, including commit and rollback.
- The commit/rollback failure paths of the onboarding routes and of the welcome e-mail are not modelled.
- JSON decoding in `read_adls_file` is not modelled: the decoded list is given as records.
- CSV tokenising (`csv.DictReader`) is not modelled: a row is given as its list of header/value cells.
- Python's `float()` is a parameter.
- Floating-point rounding and formatting are not modelled: `round(x, 2)`, `round(x, 1)` and `:.1f`. Rates are `real`s.
- Dates and times are integer stamps. `safe_datetime_format`/`strftime` and the timestamps `datetime.now()` puts in the results are not modelled.
- `int()` on text is decimal with sign and surrounding whitespace. Digit-group underscores and non-ASCII digits are not accepted.
- `str.lower()` covers ASCII letters only. `str.strip()` uses Python's full set of whitespace characters.
- The exception branches that return error codes are not modelled: SIZE_CHECK_ERROR, CONTENT_CHECK_ERROR, and the 'Error' summary of `get_file_analysis_summary`. The model's inputs cannot raise there. A failed `.env` read or write is not modelled either.
- Log lines, console prints, flashed messages and message texts are not modelled.
- The alert lock and the e-mail sending thread are not modelled.
- The ReportLab document layout (styles, widths, page breaks) is not modelled, and neither are the other report paragraphs, which hold no rule.
- The other alert entry points (`alert_critical_error`, `alert_high_error_rate`, `alert_service_down`, `send_test_alert`) and the module-level wrappers are not modelled. They only format a body around `_should_send_alert`.
- `Onboarding.OrganizationRecord.OrganizationStep`:
  - does not model creating a placeholder organisation for a user without one (app/onboarding/routes.py:90-113);
  - the step starts from an existing organisation;
  - the 404 for a missing organisation is left out as well.
- `Onboarding.UserTable.ThemeStep`: the cookie's max-age and SameSite attributes are not modelled, and the GET prefill of the form is not modelled.
- `get_allowed_extensions_list` and `get_max_file_size_formatted` are not modelled. They only read the constants modelled here.
- `load_dotenv`, the timedelta session settings, and the OAuth, Turnstile and upload constants of `config.py` are not modelled. `Config.ConfigFor` is the `config` dictionary.
- FileValidation.ValidateFile: the safe name is computed with the corrected sanitiser (`Sanitize`), not `sanitize_filename` as written. The two agree whenever `secure_filename` leaves an extension of at most 255 characters; see the finding below.
- FileValidation.ValidateOrder: the same substitution; its contract states where the result equals the code as written.
- ComplianceService.AzureDataLakeService.constructor: the `_safe_int_env` settings are read once, when the service is built, and kept in constant fields. These are the failure, listing and dashboard cache times, the stale bound, the file cap and the blob cap. The code re-reads `os.environ` on every call (app/services/azure_data_service.py:144-166 and 444-451), so a change to the environment between two calls is not modelled.
- Python object identity of roles and permissions is not modelled: roles are rows addressed by position, and permissions are their codes.

## Findings

| source | as written | input that shows it | evidently intended | confidence | as-written member | corrected member |
|---|---|---|---|---|---|---|
| app/services/file_validation.py:188-191 | `name[:255 - len(ext)] + ext`: when the extension alone is longer than 255 characters, the cut count is negative. The slice then counts from the end, and the over-long extension survives. | "a." followed by 300 'x' (kept by `secure_filename`) gives a 301-character name | a sanitised name of at most 255 characters | not executed | FileValidation.SanitizeAsWrittenTooLong | FileValidation.SanitizeSpec |

Uploads do not reach this case. `validate_file` first rejects any name whose last extension is not `pdf` or `docx` (app/services/file_validation.py:208). `secure_filename` keeps that final extension, so the extension cut at line 189 is at most 5 characters there. Only direct callers of `sanitize_filename` can get a name longer than 255 characters.
