# Billing: product identifiers, counters, settings and users, in Dafny

This project models the rules at the heart of the Billing point-of-sale app, a React front end over
a Firestore database. Each inventory product carries a short product code, a barcode and a QR
payload, and the app tries to keep the three equal.

The model covers:

- **Short product codes.** `generateProductCodeFromName` builds a code from a keyword-priority
  prefix and a three-digit sequence that is free among the existing codes.
- **Sync passes.** One pass copies `code` into `barcode` and `qrcode`. Another generates the codes
  that are missing.
- **The legacy QR scheme `ST###_CATEGORY_######`.** This covers the category rules, the 32-bit
  rolling hash, the validator and the parser, the uniqueness check and the bounded retry loop.
- **Consumers of these rules.** The scan-lookup chain, the bulk QR fill against a stale snapshot,
  and the barcode manager's filters, selection, bulk update and CSV export.
- **Bill numbers.** Per-store counters and the bill-number formats.
- **Store settings.** The defaults merge, the range checks on updates, the GST-number pattern and
  the tax display name.
- **Role-based access.** The permission and view tables, and the user cache with its single global
  expiry.
- **User administration.**
  - The two user forms: validation and the records they write.
  - The role-repair, role-tally and orphan-clean-up utilities.
  - The store dashboard's counters.
- **The barcode scanner.** Its list of recent manual scans.

The Firestore collections are in-memory sequences (document order) or maps. Several things are
inputs rather than computations:

- `Math.random`, `Date.now` and `window.confirm`;
- a failing read or write;
- the set of documents whose writes the store refuses.

Shared modules:

- `Wrappers`: `Option` and `Result`.
- `Text`: ASCII case mapping, JavaScript `trim` whitespace, `includes`, `padStart`, decimal digits,
  `split` and `join`.
- `Seqs`: `Filter`, `FirstIndex`, subsequences and distinctness.
- `Inventory`: the product record.
- `Users`: the user record and the email pattern.
- `Documents`: Firestore documents as maps, and object spread.

There is one module per source file. The classes are:

- `BillCounters`: the counter collection.
- `SettingsStore`: the settings collection.
- `UserDirectory`: the user collection plus the module-level cache, which only this module's own writes clear.
- `Selection`: the barcode manager's selected ids.
- `StoreUsersForm` and `UserManagementForm`: the two form dialogs.
- `ScannerDialog`: the scanner's manual entry.

Each method of a class states its whole new state.

## Model

| member | source | states |
|---|---|---|
| SyncProductCodes.KeywordFrom | src/utils/syncProductCodes.js:141-147 | the entry found is the first, in map order, whose keyword occurs in the name; none before it occurs |
| SyncProductCodes.CodePrefixIsFirstKeyword | src/utils/syncProductCodes.js:114-147 | the prefix belongs to the first keyword of the category map that the lower-cased, trimmed name contains |
| SyncProductCodes.CodePrefixFallback | src/utils/syncProductCodes.js:149-152 | with no keyword in the name, the prefix is the fallback prefix |
| SyncProductCodes.FallbackPrefix | src/utils/syncProductCodes.js:151 | the first min(4, length) characters of the untrimmed name, upper-cased, every non-A–Z character replaced by `X` |
| SyncProductCodes.MaskNonLetters | src/utils/syncProductCodes.js:151 | same length, each character kept if it is A–Z and `X` otherwise |
| SyncProductCodes.SequenceCodeShape | src/utils/syncProductCodes.js:156 | a code for a sequence in 1..999 is the prefix followed by exactly three digits that read back as the sequence |
| SyncProductCodes.FreeSequenceFrom | src/utils/syncProductCodes.js:155-161 | the search stops at the first free sequence number, or at 999; every number before it is taken |
| SyncProductCodes.GenerateProductCodeFromName | src/utils/syncProductCodes.js:113-164 | the `while` loop computes the code the specification function defines |
| SyncProductCodes.ProductCodeForProperties | src/utils/syncProductCodes.js:155-163 | prefix plus three digits with value in 1..999, all smaller numbers taken, and the code is already in use only when the value is 999 |
| SyncProductCodes.ExhaustedPrefixFailsOpen | src/utils/syncProductCodes.js:158-163 | when all 999 codes of the prefix are taken, `PREFIX999` is returned even though it is in use |
| SyncProductCodes.ProductCodeForFresh | src/utils/syncProductCodes.js:158-163 | whenever some sequence number 1..999 of the prefix is free among the existing codes, the generated code is not among them |
| SyncProductCodes.Synced | src/utils/syncProductCodes.js:43-46 | after the write, barcode and QR code equal the code, which is unchanged |
| SyncProductCodes.SyncedIfNeeded | src/utils/syncProductCodes.js:29-53 | a product with a code is in sync once handled |
| SyncProductCodes.SyncAllProductCodes | src/utils/syncProductCodes.js:12-76 | products before the first refused write are synced when needed and the rest are untouched; on success total = |products|, updated + skipped = total, updated = the products needing a write, and every product with a code is in sync |
| SyncProductCodes.SyncOne | src/utils/syncProductCodes.js:39-53 | one product whose write goes through: a product needing a sync is written and counted as updated, any other is counted as skipped; the handled prefix grows by one |
| SyncProductCodes.SyncSingleProduct | src/utils/syncProductCodes.js:81-108 | an empty code, an unknown id or a write the store refuses fails without a write; otherwise exactly `barcode` and `qrcode` of that product become the code, and `code` is never touched |
| SyncProductCodes.ExistingCodesMembers | src/utils/syncProductCodes.js:181-183 | the collected codes are exactly the truthy codes of the products |
| SyncProductCodes.WithCode | src/utils/syncProductCodes.js:193-197 | the written product has code = barcode = qrcode = the new code |
| SyncProductCodes.FillMissingCodes | src/utils/syncProductCodes.js:181-202 | products lacking a code before the first refused write get the code generated from the codes known so far, and the others are untouched; on success `generated` = the number of products lacking a code |
| SyncProductCodes.FillOne | src/utils/syncProductCodes.js:187-201 | one product whose write goes through: a product lacking a code gets the code generated from the known codes, which then include it; the handled prefix grows by one |
| SyncProductCodes.AutoGenerateMissingCodes | src/utils/syncProductCodes.js:169-219 | the same pass with the product-code generator |
| SyncProductCodes.CodesBeforeGrow | src/utils/syncProductCodes.js:190 | `existingCodes` only grows during the pass |
| SyncProductCodes.EarlierCodeKnown | src/utils/syncProductCodes.js:189-190 | a code generated earlier in the pass is known when a later product is handled |
| SyncProductCodes.AutoGeneratedCodesAreFresh | src/utils/syncProductCodes.js:181-190 | whenever its prefix still has a free sequence number among the codes known at its step, a generated code differs from every pre-existing code and from every code generated earlier in the pass |
| QrCodeGenerator.CategoryRule | src/utils/qrcodeGenerator.js:22-40 | every rule names one of the eleven categories |
| QrCodeGenerator.CategoryIsWord | src/utils/qrcodeGenerator.js:22-43 | a category is a non-empty word of capital letters |
| QrCodeGenerator.RuleFrom | src/utils/qrcodeGenerator.js:22-43 | the rule found is the first one from k on that matches |
| QrCodeGenerator.GetCategoryCode | src/utils/qrcodeGenerator.js:18-44 | the result is always one of GRAIN, DAIRY, SPICE, BAKERY, BEVERAGE, FRUIT, VEGETABLE, PERSONAL, HOUSEHOLD, MEAT, GENERAL |
| QrCodeGenerator.CategoryIsFirstMatchingRule | src/utils/qrcodeGenerator.js:19-40 | the first matching rule wins |
| QrCodeGenerator.CategoryDefault | src/utils/qrcodeGenerator.js:43 | no matching rule gives GENERAL |
| QrCodeGenerator.ToInt32 | src/utils/qrcodeGenerator.js:56 | the result is a signed 32-bit value congruent to the input modulo 2^32 |
| QrCodeGenerator.ToInt32Unique | src/utils/qrcodeGenerator.js:56 | that value is the only one with both properties |
| QrCodeGenerator.ToInt32Shift | src/utils/qrcodeGenerator.js:56 | adding a multiple of 2^32 leaves the 32-bit value unchanged |
| QrCodeGenerator.HashStepIsRolling | src/utils/qrcodeGenerator.js:54-56 | one step is `ToInt32(31 * hash + charCode)` |
| QrCodeGenerator.Hash | src/utils/qrcodeGenerator.js:52-57 | the hash of an id is a signed 32-bit value |
| QrCodeGenerator.ProductSequenceShape | src/utils/qrcodeGenerator.js:47-65 | the sequence is exactly six decimal digits, for an id and for the random draw |
| QrCodeGenerator.GenerateProductSequence | src/utils/qrcodeGenerator.js:47-65 | the hash loop computes the sequence the specification function defines, six digits |
| QrCodeGenerator.ValidQRCodeIffWellFormed | src/utils/qrcodeGenerator.js:168-174 | valid exactly when the text is `ST` + storeId + `_` + category + `_` + sequence, with 3 digits, one or more capitals and 6 digits |
| QrCodeGenerator.FormatIsValid | src/utils/qrcodeGenerator.js:7-15 | well-formed parts give a valid payload with the parts at their places |
| QrCodeGenerator.SplitValid | src/utils/qrcodeGenerator.js:186 | splitting a valid payload at `_` gives exactly its three fields |
| QrCodeGenerator.ParseQRCode | src/utils/qrcodeGenerator.js:181-192 | null exactly for invalid input |
| QrCodeGenerator.ParseFormat | src/utils/qrcodeGenerator.js:181-192 | parsing a formatted payload gives back its store id, category and sequence |
| QrCodeGenerator.FormatParse | src/utils/qrcodeGenerator.js:181-192 | a parsed payload is well-formed and formats back to the same text |
| QrCodeGenerator.StoreIdMustBeThreeDigits | src/utils/qrcodeGenerator.js:168-174 | a store id such as `store_001` yields a payload that does not validate |
| QrCodeGenerator.ProductQRDataRoundTrip | src/utils/qrcodeGenerator.js:7-15 | for a three-digit store id the product payload validates and parses to that store id, the name's category and the id's sequence |
| QrCodeGenerator.GenerateProductQRData | src/utils/qrcodeGenerator.js:7-15 | the payload is `ST` + storeId + `_` + category + `_` + sequence |
| QrCodeGenerator.IsQRCodeUnique | src/utils/qrcodeGenerator.js:155-161 | unique exactly when every product either carries another payload or is the current product |
| QrCodeGenerator.UniqueIffOnlySelf | src/utils/qrcodeGenerator.js:155-161 | unique exactly when no product with another id carries the payload (an empty inventory is unique) |
| QrCodeGenerator.Candidates | src/utils/qrcodeGenerator.js:131-141 | the first candidate is the product payload, followed by one retry per suffix |
| QrCodeGenerator.CandidateIsRetry | src/utils/qrcodeGenerator.js:137-141 | retry a uses the last six characters of id + suffix |
| QrCodeGenerator.RetrySequenceShape | src/utils/qrcodeGenerator.js:138-140 | the retry sequence has six characters, and its third is the last character of the id |
| QrCodeGenerator.AttemptsFrom | src/utils/qrcodeGenerator.js:136-143 | the loop stops at the first unique candidate, or after 100 retries |
| QrCodeGenerator.GenerateUniqueQRCode | src/utils/qrcodeGenerator.js:131-146 | the result is the first unique candidate, or the 101st candidate even if it is not unique |
| QrCodeGenerator.UniqueAtFirstAttempt | src/utils/qrcodeGenerator.js:132-136 | a unique first payload is returned unchanged |
| QrCodeGenerator.UniqueWithinBudget | src/utils/qrcodeGenerator.js:136-145 | the result is unique exactly when some candidate within the budget is |
| QrCodeGenerator.RetryCanBeInvalid | src/utils/qrcodeGenerator.js:137-141 | a retry for an id ending in a non-digit fails the validator |
| CheckAndGenerateQRCodes.CheckProductQRCodes | src/utils/checkAndGenerateQRCodes.js:19-55 | with + without = total, for QR codes and for barcodes |
| CheckAndGenerateQRCodes.GenerateForPass | src/utils/checkAndGenerateQRCodes.js:85-90 | the payload is generated against the snapshot, with the product's store id or the default |
| CheckAndGenerateQRCodes.GenerateMissingQRCodes | src/utils/checkAndGenerateQRCodes.js:65-110 | only products with a falsy QR code and an accepted write change, each to its stale-snapshot payload; `updated` counts the accepted writes |
| CheckAndGenerateQRCodes.NoneWritten | src/utils/checkAndGenerateQRCodes.js:73-78 | with no product lacking a QR code nothing is written and `updated` is 0 |
| CheckAndGenerateQRCodes.StaleSnapshotAllowsDuplicates | src/utils/checkAndGenerateQRCodes.js:71-93 | two products of one pass can be given the same QR code |
| CheckAndGenerateQRCodes.HashCollision | src/utils/qrcodeGenerator.js:52-57 | the ids `Aa` and `BB` hash alike |
| CheckAndGenerateQRCodes.NoPayloadIsUnique | src/utils/checkAndGenerateQRCodes.js:88 | against a snapshot without QR codes, every payload counts as unique |
| CheckAndGenerateQRCodes.ScanFirstHitWins | src/utils/checkAndGenerateQRCodes.js:124-136 | the rules are tried in the order QR code, barcode, product code, id, name: when no product matches an earlier rule, the first product matching rule k is the one found |
| CheckAndGenerateQRCodes.TestScanCode | src/utils/checkAndGenerateQRCodes.js:124-138 | a found product is one of the products |
| CheckAndGenerateQRCodes.ScanFindsIffSomeAnswers | src/utils/checkAndGenerateQRCodes.js:124-138 | nothing is found exactly when no product answers by any rule; a found product answers the code |
| CheckAndGenerateQRCodes.ScanPrefersQRCode | src/utils/checkAndGenerateQRCodes.js:124-138 | an exact QR match wins, first one in order |
| CheckAndGenerateQRCodes.LowerCaseCodeNeverMatched | src/utils/checkAndGenerateQRCodes.js:126 | a product code containing a lower-case letter is never found by the code rule |
| CheckAndGenerateQRCodes.EmptyScanFindsFirst | src/utils/checkAndGenerateQRCodes.js:128-138 | an empty input that no earlier rule matches finds the first product |
| BarcodeManager.FilteredInventory | src/components/BarcodeManager.js:35-43 | an item is shown exactly when its name contains the search term (ignoring case) and it passes the category filter |
| BarcodeManager.FilteredInventoryOrder | src/components/BarcodeManager.js:35-43 | the list keeps inventory order, and the empty search with `all` shows everything |
| BarcodeManager.ComputeStats | src/components/BarcodeManager.js:46-54 | with + without = total for barcodes and QR codes; withBoth ≤ withBarcode and ≤ withQRCode |
| BarcodeManager.ToggleFlips | src/components/BarcodeManager.js:144-150 | selecting flips the membership of that id and of no other |
| BarcodeManager.ToggleTwice | src/components/BarcodeManager.js:144-150 | selecting an absent id twice restores the selection |
| BarcodeManager.ToggleKeepsDistinct | src/components/BarcodeManager.js:144-150 | the selection never gains a duplicate |
| BarcodeManager.Ids | src/components/BarcodeManager.js:155 | the ids of the items, in order |
| BarcodeManager.SelectAllPicksMissing | src/components/BarcodeManager.js:152-157 | select-all picks exactly the shown items missing a barcode or a QR code |
| BarcodeManager.Completed | src/components/BarcodeManager.js:118-126 | a missing barcode or QR payload becomes the generated value, a present one stays, and the code, id, name, store, price and stock are unchanged |
| BarcodeManager.WriteOne | src/components/BarcodeManager.js:116-129 | one selected id: unknown ids and complete products are skipped, and an accepted write completes the product |
| BarcodeManager.WriteSelected | src/components/BarcodeManager.js:115-133 | each product is completed exactly when a selected id finds it first, it misses a code and its write is accepted; the failure flag reports a refused write |
| BarcodeManager.Selection.constructor | src/components/BarcodeManager.js:30 | the selection starts empty |
| BarcodeManager.Selection.SelectItem | src/components/BarcodeManager.js:144-150 | the selection becomes the toggled one |
| BarcodeManager.Selection.SelectAll | src/components/BarcodeManager.js:152-157 | the selection becomes the shown ids missing a code |
| BarcodeManager.Selection.DeselectAll | src/components/BarcodeManager.js:159-161 | the selection is emptied |
| BarcodeManager.Selection.GenerateBulk | src/components/BarcodeManager.js:102-142 | an empty selection or a refused confirmation writes nothing; otherwise the selected products are completed, and the selection is cleared only when every write succeeded |
| BarcodeManager.CsvRowCount | src/components/BarcodeManager.js:169-176 | one row per item with a truthy barcode |
| BarcodeManager.IntStringPlain | src/components/BarcodeManager.js:180 | a printed stock has no comma and no newline |
| BarcodeManager.CsvRowRoundTrip | src/components/BarcodeManager.js:180-181 | a row of fields free of commas splits back into those fields |
| BarcodeManager.CommaInNameShiftsFields | src/components/BarcodeManager.js:180-181 | with no quoting, a name holding a comma yields five fields |
| BarcodeManager.CsvRowsPlain | src/components/BarcodeManager.js:178-181 | rows of plain items hold no newline |
| BarcodeManager.HeaderPlain | src/components/BarcodeManager.js:179 | the header holds no newline |
| BarcodeManager.ExportLines | src/components/BarcodeManager.js:168-181 | the export's lines are the header followed by one row per barcoded item, in inventory order |
| BillNumberGenerator.CounterKeyInjective | src/utils/billNumberGenerator.js:11 | distinct stores have distinct counter documents |
| BillNumberGenerator.Incremented | src/utils/billNumberGenerator.js:14-33 | the store's count becomes the stored count (0 if absent) + 1; other stores keep theirs |
| BillNumberGenerator.ResetCount | src/utils/billNumberGenerator.js:78-83 | the store's count becomes 0; other stores keep theirs |
| BillNumberGenerator.BillNumber | src/utils/billNumberGenerator.js:36 | `BILLNO` + at least four digits reading back as the number; exactly ten characters iff the number is below 10000 |
| BillNumberGenerator.BillNumberInjective | src/utils/billNumberGenerator.js:36 | distinct numbers give distinct bill numbers |
| BillNumberGenerator.CountAfterGenerations | src/utils/billNumberGenerator.js:14-33 | after k generations the count has grown by k, and other stores are unchanged |
| BillNumberGenerator.FirstAfterReset | src/utils/billNumberGenerator.js:78-83 | the first number after a reset is `BILLNO0001` |
| BillNumberGenerator.StorePrefix | src/utils/billNumberGenerator.js:124 | at most three characters, all of the non-space characters when there are fewer, none lower-case |
| BillNumberGenerator.StorePrefixFromName | src/utils/billNumberGenerator.js:124 | each prefix character is an upper-cased non-space character of the name |
| BillNumberGenerator.PrefixedNumberParts | src/utils/billNumberGenerator.js:125 | the store bill number is prefix, `BILL`, then the padded number |
| BillNumberGenerator.StoreBillNumber | src/utils/billNumberGenerator.js:124-125 | the number starts with the store prefix, followed by at least eight characters (`BILL` and four or more digits) |
| BillNumberGenerator.StoreBillNumberShape | src/utils/billNumberGenerator.js:124-125 | prefix, `BILL`, then digits reading back as the number |
| BillNumberGenerator.StoreBillNumberInjective | src/utils/billNumberGenerator.js:124-125 | one store name never gives two numbers the same bill number |
| BillNumberGenerator.BillCounters.constructor | src/utils/billNumberGenerator.js:11 | no counter documents |
| BillNumberGenerator.BillCounters.GetCurrentBillCount | src/utils/billNumberGenerator.js:55-69 | the stored count, or 0, for the store (default `default`) |
| BillNumberGenerator.BillCounters.GenerateNextBillNumber | src/utils/billNumberGenerator.js:9-39 | the counter is incremented and the bill number formats the new count |
| BillNumberGenerator.BillCounters.ResetBillCounter | src/utils/billNumberGenerator.js:76-90 | the counter is set to 0 and true returned; a failing write returns false and leaves every counter as it was |
| BillNumberGenerator.BillCounters.GenerateStoreBillNumber | src/utils/billNumberGenerator.js:99-128 | the same counter is incremented and the number carries the store prefix (default name `STORE`) |
| StoreSettingsService.LoadedSettings | src/services/storeSettingsService.js:50-81 | every default key is present; no store id, a failed read or no document gives exactly the defaults |
| StoreSettingsService.LoadedSettingsFields | src/services/storeSettingsService.js:50-81 | loaded settings hold every default key; a stored document overrides key by key; no store id, no document or a failed read gives exactly the defaults |
| StoreSettingsService.DigitPrefix | src/services/storeSettingsService.js:100 | the longest run of leading digits |
| StoreSettingsService.ParseFloatNumeral | src/services/storeSettingsService.js:100-109 | `parseFloat` of a decimal numeral, signed or not, is its value |
| StoreSettingsService.CheckPercent | src/services/storeSettingsService.js:99-114 | fails exactly when the field is given and is not a number in [0, 100]; otherwise the field becomes that number and the others stay |
| StoreSettingsService.ParseNumber | src/services/storeSettingsService.js:100 | a number parses to itself; `true`, `false`, `null` and a server timestamp parse to NaN |
| StoreSettingsService.ValidatedUpdates | src/services/storeSettingsService.js:98-114 | the only errors are the tax-rate and maximum-discount messages; an accepted update keeps the same keys; a bad tax rate fails with the tax-rate message whatever the discount holds |
| StoreSettingsService.UpdatesAfterChecks | src/services/storeSettingsService.js:98-114 | the caller's updates object keeps its keys, and every field other than the two percentages is left as given |
| StoreSettingsService.ValidateGSTNumber | src/services/storeSettingsService.js:216-222 | a missing or empty number passes; an accepted number that is given has 15 characters |
| StoreSettingsService.ValidatedUpdatesMeaning | src/services/storeSettingsService.js:98-114 | updates pass exactly when tax rate and maximum discount, where given, are numbers in [0, 100]; the tax rate is checked first |
| StoreSettingsService.SettingsUpdate.constructor | src/services/storeSettingsService.js:90 | the update object holds the given fields |
| StoreSettingsService.SettingsStore.constructor | src/services/storeSettingsService.js:57 | the settings collection holds the given documents |
| StoreSettingsService.SettingsStore.GetStoreSettings | src/services/storeSettingsService.js:50-82 | returns the merged settings; a missing document is created with the defaults, the store id and timestamps |
| StoreSettingsService.SettingsStore.UpdateStoreSettings | src/services/storeSettingsService.js:90-126 | a missing store id or an out-of-range value is refused before any write; otherwise the document is spread with the validated updates and `updatedAt`; the caller's object is rewritten in place |
| StoreSettingsService.GSTPatternIffSegments | src/services/storeSettingsService.js:219-220 | the pattern is state code, PAN, entity number, `Z`, check character |
| StoreSettingsService.GSTNumberFacts | src/services/storeSettingsService.js:216-222 | validation ignores case; a valid non-empty number has 15 characters with `Z` (or `z`) 14th |
| StoreSettingsService.TaxDisplayName | src/services/storeSettingsService.js:229-240 | INR (also the default) gives GST, USD Sales Tax, EUR VAT, anything else Tax |
| Documents.Spread | src/services/storeSettingsService.js:63-66 | object spread: every field of the right side, and the left side's other fields |
| Documents.SpreadLaws | src/services/storeSettingsService.js:116-119 | spreading nothing changes nothing, and spreading twice is spreading the union |
| DynamicRoleManager.RolePermissions | src/utils/dynamicRoleManager.js:27-49 | empty exactly for a role other than super_admin, admin and cashier; every known role has `view_dashboard` |
| DynamicRoleManager.ViewPermission | src/utils/dynamicRoleManager.js:368-380 | the permission a view requires is granted by at least one role |
| DynamicRoleManager.InfoOf | src/utils/dynamicRoleManager.js:112-125 | id, email and role are the record's; permissions are the role's; isSuperAdmin exactly for super_admin; isActive unless stored as false |
| DynamicRoleManager.LookupUser | src/utils/dynamicRoleManager.js:70-125 | null exactly when no email is given, or no record holds the lower-cased email and it is not a hard-coded super admin; a found user's permissions are those of its role |
| DynamicRoleManager.RoleDisplayName | src/utils/dynamicRoleManager.js:315-323 | `Unknown Role` exactly for a role outside the three |
| DynamicRoleManager.LookupShape | src/utils/dynamicRoleManager.js:110-125 | permissions come from the role table, the super-admin flag holds iff the role is `super_admin`, and a record without `isActive` is active |
| DynamicRoleManager.UnknownRoleHasNoPermission | src/utils/dynamicRoleManager.js:117 | an unknown role has no permissions |
| DynamicRoleManager.UnknownUserHasNothing | src/utils/dynamicRoleManager.js:292-308 | an unknown user is not authorized and has no permission or view |
| DynamicRoleManager.ViewAccessByRole | src/utils/dynamicRoleManager.js:27-49 | only super_admin opens `settings`, only cashier opens `billing`, super_admin cannot open `inventory`, and unknown views are closed |
| DynamicRoleManager.LookupByKey | src/utils/dynamicRoleManager.js:67-84 | looking up an email and its lower-cased form grant the same access |
| DynamicRoleManager.ServedWhenCoherent | src/utils/dynamicRoleManager.js:66-68 | while every cached entry agrees with the collection, the answer served is a fresh lookup's up to the name (or nothing after a failed read), and the cache still agrees after the call |
| DynamicRoleManager.OutsideDeleteStillAuthorized | src/utils/dynamicRoleManager.js:66-68 | an active user cached at t0 and then deleted by a writer that does not clear the cache is still served and authorized at any time before t0 + 5 minutes, while a fresh lookup finds nothing |
| DynamicRoleManager.StaleWindowExtends | src/utils/dynamicRoleManager.js:127-128 | inserting another address moves the shared expiry, so an older entry is served until 5 minutes after the newest insertion, whatever the collection holds by then |
| DynamicRoleManager.UserDirectory.constructor | src/utils/dynamicRoleManager.js:52-53 | empty cache, expiry 0, and the cache agrees with the collection |
| DynamicRoleManager.UserDirectory.ClearUserCache | src/utils/dynamicRoleManager.js:242-245 | empties the cache and sets the expiry to 0, after which the cache agrees with the collection |
| DynamicRoleManager.UserDirectory.WriteElsewhere | src/components/UserManagement.js:120 | a write to the user collection that bypasses this module (firebaseService's `deleteUser`/`updateUser`, or another session) changes the records and leaves the cache and its expiry as they are |
| DynamicRoleManager.UserDirectory.GetUserInfo | src/utils/dynamicRoleManager.js:61-136 | a cached entry is served while now < expiry even if the collection changed since; otherwise a found user is cached under the lower-cased email and moves the single expiry to now + 5 minutes, while a not-found user or a failed read leaves the cache alone; only while the cache agrees with the collection is the answer a fresh lookup's |
| DynamicRoleManager.UserDirectory.HasPermission | src/utils/dynamicRoleManager.js:303-308 | granted exactly when the served answer holds the permission, with the cache and expiry GetUserInfo leaves; while the cache agrees with the collection, exactly when the fresh lookup grants it (never more after a failed read) |
| DynamicRoleManager.UserDirectory.IsUserAuthorized | src/utils/dynamicRoleManager.js:292-295 | authorized exactly when the served answer is found and active, with the cache and expiry GetUserInfo leaves; while the cache agrees with the collection, exactly when the fresh lookup is found and active |
| DynamicRoleManager.UserDirectory.CanAccessView | src/utils/dynamicRoleManager.js:367-386 | an unknown view is refused and the cache untouched; otherwise the served answer must hold the view's permission, with the cache and expiry GetUserInfo leaves; while the cache agrees with the collection, the fresh lookup decides |
| DynamicRoleManager.UserDirectory.AddUser | src/utils/dynamicRoleManager.js:143-162 | a record without an email or a failing write changes nothing; otherwise the record is appended with the new id, a lower-case email and active, and the cache is cleared |
| DynamicRoleManager.UserDirectory.UpdateUser | src/utils/dynamicRoleManager.js:170-184 | the record is patched and the cache is cleared; an unknown id or a failing write changes nothing |
| DynamicRoleManager.UserDirectory.DeleteUser | src/utils/dynamicRoleManager.js:210-221 | unless the write fails, every record with that id is removed (an unknown id is no error) and the cache is cleared |
| Users.EmailParts | src/components/StoreUsersView.js:122-126 | a valid email is local@host.top with non-empty parts, exactly one `@` and no whitespace |
| Users.EmailFromParts | src/components/StoreUsersView.js:122-126 | conversely, such parts form a valid email |
| Users.LowerKeepsEmailValid | src/components/UserManagement.js:148-163 | lower-casing a valid email keeps it valid |
| FixUserRoles.UsersToFix | src/utils/fixUserRoles.js:20-37 | the selected users are the store users that need a fix |
| FixUserRoles.FixRoles | src/utils/fixUserRoles.js:11-116 | each selected user whose write succeeds gets role `Cashier` and the other records stay; no selected user gives fixed 0 and no total; otherwise fixed = successes and total = the selected users |
| FixUserRoles.RepairEach | src/utils/fixUserRoles.js:53-85 | the loop repairs every selected user whose write succeeds and counts the successes |
| FixUserRoles.FixedAtMostTotal | src/utils/fixUserRoles.js:85-91 | fixed ≤ total |
| FixUserRoles.CashierRoleNeedsNoFix | src/utils/fixUserRoles.js:29-37 | a user given role `Cashier` is never selected again |
| FixUserRoles.NothingLeftToFix | src/utils/fixUserRoles.js:28-60 | when no write fails, a second run finds nothing to fix |
| FixUserRoles.Tally | src/utils/fixUserRoles.js:195-199 | the role of every store user is a key, and every key counts at least one user |
| FixUserRoles.TallyCounts | src/utils/fixUserRoles.js:195-199 | the keys are the roles present (`undefined` for a missing role), each counting its users |
| FixUserRoles.TallySum | src/utils/fixUserRoles.js:195-199 | the counts sum to the number of store users |
| FixUserRoles.CheckUserRoles | src/utils/fixUserRoles.js:181-219 | totalUsers is the number of store users and roleStats is their tally |
| FixUserRoles.TallyRoles | src/utils/fixUserRoles.js:195-199 | the `forEach` computes the tally |
| FixUserRoles.SetUserRole | src/utils/fixUserRoles.js:121-176 | the first user whose email matches, ignoring case, gets the new role (`Cashier` by default); no match or a failing write is an error and changes nothing |
| FixUserRoles.SetRoleThenLookup | src/utils/fixUserRoles.js:129-141 | after the update the same user is found first and has the new role; no other record changes |
| CleanupOrphanedUsers.IsOrphan | src/utils/cleanupOrphanedUsers.js:26-34 | orphaned exactly when not a super admin and holding a store id that is not among the live stores |
| CleanupOrphanedUsers.CleanupOrphans | src/utils/cleanupOrphanedUsers.js:11-117 | no orphans: success, 0 cleaned, nothing deleted; refused confirmation: failure, 0, nothing deleted; otherwise every orphan whose delete succeeds is removed and cleaned counts them |
| CleanupOrphanedUsers.DeleteEach | src/utils/cleanupOrphanedUsers.js:65-86 | the loop keeps everyone but the deleted orphans and counts the deletes |
| CleanupOrphanedUsers.CleanupAccounts | src/utils/cleanupOrphanedUsers.js:66-94 | deleted + kept = all users, cleaned ≤ orphans, and the kept users keep their order |
| CleanupOrphanedUsers.CleanupKeepsOthers | src/utils/cleanupOrphanedUsers.js:26-34 | super admins, users without a store and users of a live store are never deleted; with no failed delete no orphan is left |
| CleanupOrphanedUsers.RemoveUserByEmail | src/utils/cleanupOrphanedUsers.js:122-177 | not found (with its message) exactly when no email matches, ignoring case; cancelled or failed deletes change nothing; otherwise the first match is removed |
| CleanupOrphanedUsers.RemovedByEmail | src/utils/cleanupOrphanedUsers.js:130-155 | removing the first match drops exactly one user and keeps the others in order |
| AdminDashboard.StoreInventory | src/components/AdminDashboard.js:92-94 | every item without a store id, else the items of that store |
| AdminDashboard.UpdateStats | src/components/AdminDashboard.js:90-146 | with + without = the store inventory for QR-or-barcode and for codes, low stock counts store items below 10, and active + inactive = the cashiers |
| AdminDashboard.LowStockAlerts | src/components/AdminDashboard.js:350 | alerts are the items of the whole inventory with stock below 10 |
| AdminDashboard.LowStockStatVersusAlerts | src/components/AdminDashboard.js:350 | the low-stock figure never exceeds the alert list and equals it without a store id |
| AdminDashboard.OtherStoreLowStockAlerted | src/components/AdminDashboard.js:350 | another store's low item is alerted but not counted |
| AdminDashboard.CashierNeedsRoleOrEmail | src/components/AdminDashboard.js:108-137 | without a role naming a cashier, a user whose email mentions neither `cashier` nor `@mystore.com`, or mentions admin or manager but not cashier, is never counted as a cashier |
| AdminDashboard.OtherRoleNeverCashier | src/components/AdminDashboard.js:114-136 | any other role never counts as a cashier |
| AdminDashboard.FixedUserIsCashier | src/components/AdminDashboard.js:114 | a user repaired to `Cashier` counts as a cashier |
| StoreUsersView.CheckForm | src/components/StoreUsersView.js:115-149 | accepted exactly when all five checks pass; each refusal implies the earlier checks passed |
| StoreUsersView.SubmittedWrite | src/components/StoreUsersView.js:151-169 | an update for an edited user and an insert otherwise; the form's fields with the admin's store; the password is dropped iff editing with an empty one |
| StoreUsersView.AcceptedSubmission | src/components/StoreUsersView.js:115-163 | a written record has a valid email no other user has, a valid phone, and a new user's password has six or more characters |
| StoreUsersView.PhoneExamples | src/components/StoreUsersView.js:129 | `+1 (2)-3` and `98` pass; `+`, the empty text, `++9` and `9x` fail |
| StoreUsersView.ToggledStatus | src/components/StoreUsersView.js:83-84 | `Active`, or a missing status, becomes `Inactive`; anything else becomes `Active` |
| StoreUsersView.ToggleTwice | src/components/StoreUsersView.js:83-84 | toggling twice gives back `Active`, and any other status ends `Inactive` |
| StoreUsersView.StoreUsersForm.constructor | src/components/StoreUsersView.js:52-62 | the reset form, no edited user, dialog closed |
| StoreUsersView.StoreUsersForm.HandleAddUser | src/components/StoreUsersView.js:64-68 | the reset form for a new user, dialog open |
| StoreUsersView.StoreUsersForm.HandleEditUser | src/components/StoreUsersView.js:70-81 | the user's fields with defaults, for that user, dialog open |
| StoreUsersView.StoreUsersForm.HandleSubmit | src/components/StoreUsersView.js:112-178 | a refused form writes nothing and stays; otherwise the write is sent, and only a successful write closes and resets the dialog |
| UserManagement.CheckManagedForm | src/components/UserManagement.js:141-158 | accepted exactly when name and email are given, the email is valid, and every role but super admin has a store |
| UserManagement.SubmittedRecord | src/components/UserManagement.js:160-170 | the email is lower-cased; a super admin gets no store id and `Company Admin` |
| UserManagement.AcceptedRecord | src/components/UserManagement.js:141-170 | an accepted record has a valid lower-case email and a store unless it is a super admin's |
| UserManagement.ToggledActive | src/components/UserManagement.js:204-206 | the flag written is true exactly when the user is explicitly inactive |
| UserManagement.HandleDeleteUser | src/components/UserManagement.js:105-127 | unknown ids and super admins are refused; nothing is deleted unless confirmed and the delete succeeds, and then only that user |
| UserManagement.SuperAdminsSurviveDelete | src/components/UserManagement.js:113-120 | every super admin survives a delete |
| UserManagement.StoreNameOf | src/components/UserManagement.js:129-136 | the chosen store's name, or the empty string when the id is not listed |
| UserManagement.UserManagementForm.constructor | src/components/UserManagement.js:73-83 | the reset form, no edited user, dialog closed |
| UserManagement.UserManagementForm.HandleEditUser | src/components/UserManagement.js:91-103 | the user's fields, `cashier` for a missing role, active unless the flag is false |
| UserManagement.UserManagementForm.HandleStoreChange | src/components/UserManagement.js:129-136 | the store id and that store's name change and nothing else |
| UserManagement.UserManagementForm.HandleSubmit | src/components/UserManagement.js:138-189 | a refused form writes nothing; otherwise the normalised record is written, and only a successful write resets the dialog |
| Text.TakeFirst | src/components/BarcodeScanner.js:27 | `slice(0, n)`: a prefix of length min(n, length) |
| BarcodeScanner.RecentScans | src/components/BarcodeScanner.js:26-29 | at most five entries, the new code first, then the most recent earlier codes other than it in their previous order, as many as fit: only the oldest are dropped |
| BarcodeScanner.RecentKeepsDistinct | src/components/BarcodeScanner.js:27 | the list never gains a duplicate |
| BarcodeScanner.RecentKeepsOrder | src/components/BarcodeScanner.js:27 | retained older entries keep their order |
| BarcodeScanner.RecentKeepsAllWhenRoom | src/components/BarcodeScanner.js:27 | with fewer than five entries no earlier code is lost |
| BarcodeScanner.RecentRepeat | src/components/BarcodeScanner.js:27 | submitting the newest code again changes nothing |
| BarcodeScanner.ScannerDialog.constructor | src/components/BarcodeScanner.js:19-21 | an empty field, not submitting, no recent scans |
| BarcodeScanner.ScannerDialog.SetManualCode | src/components/BarcodeScanner.js:54-57 | the field is set and nothing else changes |
| BarcodeScanner.ScannerDialog.BeginSubmit | src/components/BarcodeScanner.js:19-33 | blank input changes nothing; otherwise the trimmed code is submitted, the dialog is busy and the recent list is updated |
| BarcodeScanner.ScannerDialog.FinishSubmit | src/components/BarcodeScanner.js:33-45 | the field is cleared only on success; the dialog is no longer busy |
| BarcodeScanner.ScannerDialog.HandleKeyPress | src/components/BarcodeScanner.js:48-52 | Enter submits only when no submission is in progress; the typed text is kept either way, and a blank Enter changes nothing |
| Text.TrimEmptyIffBlank | src/components/BarcodeScanner.js:20-21 | a trimmed text is empty exactly when it is all whitespace |
| Text.ZeroPadShape | src/utils/billNumberGenerator.js:36 | `padStart(n, '0')` gives at least n digits reading back as the number |
| Text.SplitJoin | src/utils/qrcodeGenerator.js:186 | splitting a join of separator-free fields gives the fields back |

## Left out

- Firestore I/O (`getDocs`, `updateDoc`, `setDoc`, `addDoc`, `deleteDoc`, `onSnapshot`) is modelled as in-memory sequences and maps. A write by document id is modelled as a change at that record's position, assuming document ids are unique. The `subscribeToUsers`/`unsubscribe` plumbing and `subscribeToStoreSettings` listener registration are not modelled; the value they deliver is the merged-settings function.
- `Promise.all` in the bulk barcode update is modelled as a sequential pass; concurrent writes and the non-atomic read-increment-write of the bill counter are not modelled.
- Timestamps (`createdAt`, `updatedAt`, `roleFixedAt`, `lastUpdated`, `resetAt`) are not modelled, except `serverTimestamp()` in settings documents, which is a marker value.
- The `Date.now()` fallback bill numbers of the error paths are not modelled.
- `Math.random` draws are inputs (the draw and the retry suffixes).
- The answer to `window.confirm` is a boolean input; `alert` messages, console output, `navigator.vibrate` and input focus are not modelled.
- `toLowerCase` and `toUpperCase` are modelled on ASCII letters only; JavaScript maps all of Unicode.
- String lengths count characters, not UTF-16 code units.
- `parseFloat` is modelled on exact reals: double-precision rounding and the range of doubles are not modelled.
- The sales total of the dashboard and the other floating-point money computations are not modelled.
- A counter document without a `count` field reads as 0; a stored count is a natural number.
- JavaScript lookups that fall through to prototype properties (a role or view named like an `Object` method) are not modelled.
- The user filter of the dashboard's users listener (AdminDashboard.js lines 71-74) is not modelled; `UpdateStats` takes the filtered users.
- `getStores` is modelled as its list of store ids; `generateUniqueBarcode` (an unseen module) is a function parameter.
- BarcodeManager.WriteSelected: the QR payload of each product is a function parameter `qrcodeFor`, standing for `generateUniqueQRCode(name, id, inventory, product.storeId || '001')` run against the inventory read before the pass; the model does not tie that parameter to `QrCodeGenerator.GenerateUniqueQRCode`.
- A product without a `name` makes `generateProductCodeFromName`, `getCategoryCode` and `testScanCode` throw a `TypeError` on `.toLowerCase()`; the model's product name is always a string, so that failure is not modelled.
- A product's `stock` is an integer that is always present. A missing stock, which the CSV export writes as an empty field and which fails the `stock < 10` low-stock test, and a fractional stock are not modelled.
- The extra product-code argument passed to `generateUniqueQRCode` by the barcode manager is ignored, as in the source.
- QR image rendering (`generateQRCodeImage`, `generateQRCodeSVG`) is not modelled, as it is a foreign library.
- The hard-coded super administrators are modelled as a fixed table; the `createdAt`/`updatedAt` dates of their records are not modelled.
- BarcodeManager.Selection.GenerateBulk: a failure is reported when a write is refused, but the writes after it are still modelled as done, since `Promise.all` has started them all.
