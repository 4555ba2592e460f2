# API key manager: a verified model

This project models the core of a Raycast extension that stores API keys
in a JSON file in the user's home directory. The modelled pieces are:

- the store: load, save, add, update, record-use, delete, and the category
  queries;
- the clipboard guard, which copies a key and clears it after a delay if
  the clipboard still holds it;
- the list view's search, category filter and most-recently-used sort, and
  its per-row visibility toggle;
- the masked key display;
- the submit handlers of the add and edit forms.

The model's modules follow the source files:

| module | file | form |
|---|---|---|
| `Wrappers`, `Seqs`, `Text` | — | shared values: `Option`/`Result`, `filter`, and the JavaScript string operations used (`toLowerCase`, `includes`, `trim`, `split`, `join`, default `sort` order) |
| `ApiKeyStorage` | `src/utils/apiKeyStorage.ts` | record datatypes and pure functions, plus a `KeyStore` class whose `file` field is the JSON file and whose methods return a `Result` |
| `Clipboard` | `src/utils/clipboard.ts` | a `ClipboardGuard` class with the system clipboard and the module-wide `clearTimer` as fields |
| `KeyList` | `src/index.tsx` | functions and lemmas |
| `KeyDisplay` | `src/components/KeyDisplay.tsx` | functions and lemmas |
| `AddApiKeyForm` | `src/add-api-key.tsx` | functions and lemmas |
| `EditApiKeyForm` | `src/edit-api-key.tsx` | functions and lemmas |

Things the program takes from its environment are parameters:

- the JSON file is a `FileState`:
  - `Missing` (ENOENT),
  - `Unreadable` (any other read or parse failure),
  - or the parsed `Contents`;
- whether each write succeeds is `saveOk`;
- the generated id and the clock reading are `id` and `now`;
- the random nibbles of the fallback UUID are `nibbles`;
- whether each clipboard or toast call succeeds is a boolean;
- the firing of the clear timer is the explicit `TimerFires` step.

Timestamps are abstract integers: one per ISO string, ordered the way
`getTime()` orders them.

Behaviours of the code worth noting, all modelled as written:

- `updateKeyLastUsed` sets only `lastUsed`. It does not bump `updatedAt`.
- A success toast that throws after a copy leaves the key on the clipboard,
  with no clear timer armed.
- `deleteApiKey` removes every record with the id. That is exactly one
  record only while ids are unique (`ApiKeyStorage.WithoutUniqueId`).
- Only `addApiKey` checks that (service, name) pairs are unique.
  `updateApiKey` can rename a record onto another record's pair
  (`ApiKeyStorage.UpdateCanDuplicatePairs`).
- In the add form, the custom-service field never takes effect, because
  the handler tests for an option name the dropdown does not offer (see
  Findings). `AddApiKeyForm.HandleSubmit` models the handler as written;
  `AddApiKeyForm.HandleSubmitIntended` is the corrected handler.

## Model

| member | source | states |
|---|---|---|
| ApiKeyStorage.LoadOutcomes | src/utils/apiKeyStorage.ts:42-54 | loading succeeds iff the file is missing or parsed, and then gives the stored records; a missing file gives the empty list; an empty result only ever comes from a missing or empty file, never from an error |
| ApiKeyStorage.KeyStore.GetApiKeys | src/utils/apiKeyStorage.ts:42-54 | returns `LoadKeys` of the file: a missing file reads as `[]`, an unreadable one as `ReadFailed`, otherwise as its records |
| ApiKeyStorage.KeyStore.SaveApiKeys | src/utils/apiKeyStorage.ts:56-64 | on success the file holds exactly the given records; on failure the error is `WriteFailed` and the file is unchanged |
| ApiKeyStorage.UuidTemplateText | src/utils/apiKeyStorage.ts:25 | the template built from groups of `x` is the source's literal template |
| ApiKeyStorage.UuidTemplateDraws | src/utils/apiKeyStorage.ts:25-29 | the template has 31 `x`/`y` positions, so the fallback draws 31 random nibbles |
| ApiKeyStorage.ReplaceXY | src/utils/apiKeyStorage.ts:25-29 | the replacement keeps the length; each `x` becomes a lower-case hex digit, each `y` one of `8 9 a b`, and every other character is kept |
| ApiKeyStorage.FallbackUuid | src/utils/apiKeyStorage.ts:25-29 | the fallback id has length 36, with `-` at 8, 13, 18 and 23, `4` at 14, one of `8 9 a b` at 19, and lower-case hex everywhere else |
| ApiKeyStorage.GenerateUuid | src/utils/apiKeyStorage.ts:20-31 | the platform UUID is returned when there is one; otherwise exactly `FallbackUuid` of the drawn nibbles, so length 36, dashes at 8, 13, 18 and 23, `4` at 14, one of `8 9 a b` at 19 and lower-case hex elsewhere |
| ApiKeyStorage.KeyStore.AddApiKey | src/utils/apiKeyStorage.ts:69-107 | fails with `ReadFailed`, `DuplicateKey` (some record has the same service and name) or `WriteFailed`, and then the file is unchanged; otherwise it succeeds, and the file is the old records plus one new record at the end: the given fields, categories and notes defaulted to empty, and `createdAt == updatedAt == now` |
| ApiKeyStorage.AddKeepsPairsUnique | src/utils/apiKeyStorage.ts:78-93 | appending a record whose (service, name) pair is absent keeps all pairs distinct |
| ApiKeyStorage.UpdateCanDuplicatePairs | src/utils/apiKeyStorage.ts:120-124 | an update can rename a record onto another record's (service, name) pair: the add-time check is not repeated |
| ApiKeyStorage.IndexOfId | src/utils/apiKeyStorage.ts:115 | `findIndex`: -1 iff no record has the id; otherwise the first index holding it |
| ApiKeyStorage.FindIndex | src/utils/apiKeyStorage.ts:157 | the scanning loop returns exactly `IndexOfId` |
| ApiKeyStorage.Merge | src/utils/apiKeyStorage.ts:120-124 | no contract of its own: the spread `{ ...keys[idx], ...updates, updatedAt }`; its properties are `MergeFields` and `MergeMerge` |
| ApiKeyStorage.MergeFields | src/utils/apiKeyStorage.ts:120-124 | the merged record keeps `id` and `createdAt` and takes `updatedAt := now`; each field present in the update overwrites, and each absent one is kept |
| ApiKeyStorage.MergeMerge | src/utils/apiKeyStorage.ts:120-124 | two updates in a row equal one update with the later fields winning, stamped with the later time |
| ApiKeyStorage.KeyStore.UpdateApiKey | src/utils/apiKeyStorage.ts:109-131 | fails with `ReadFailed`, `NotFound` (unknown id) or `WriteFailed`, and then the file is unchanged; otherwise only the first record with the id is replaced, by its merge with the update, and every other index is kept |
| ApiKeyStorage.KeyStore.UpdateKeyLastUsed | src/utils/apiKeyStorage.ts:154-165 | an unknown id or a read or write failure leaves the file as it was, and no error escapes; otherwise only `lastUsed` of the first record with the id becomes `now` |
| ApiKeyStorage.WithoutId | src/utils/apiKeyStorage.ts:171 | no contract of its own: `keys.filter(k => k.id !== id)`; its properties are `WithoutIdSpec` and `WithoutUniqueId` |
| ApiKeyStorage.WithoutIdSpec | src/utils/apiKeyStorage.ts:171-173 | the filtered list holds exactly the records with another id, each as often as before and in the same order; its length is unchanged iff no record has the id, and then it is the input |
| ApiKeyStorage.WithoutUniqueId | src/utils/apiKeyStorage.ts:170-173 | when ids are unique and the id is present, deleting removes exactly one record |
| ApiKeyStorage.KeyStore.DeleteApiKey | src/utils/apiKeyStorage.ts:167-182 | fails with `ReadFailed`, `NotFound` (no record has the id) or `WriteFailed`, and then the file is unchanged; otherwise the file holds the records without that id, in order |
| ApiKeyStorage.CategoryUnionMembership | src/utils/apiKeyStorage.ts:136-142 | a tag is collected iff some record lists it |
| ApiKeyStorage.InsertSorted | src/utils/apiKeyStorage.ts:144 | inserting into a strictly ascending list keeps it strictly ascending, and its elements are the old ones plus the new one |
| ApiKeyStorage.AscendingIsDuplicateFree | src/utils/apiKeyStorage.ts:136-144 | a strictly ascending list has no repeated element |
| ApiKeyStorage.SortStrings | src/utils/apiKeyStorage.ts:144 | `Array.from(set).sort()` yields a strictly ascending list holding exactly the set's elements |
| ApiKeyStorage.KeyStore.GetAllCategories | src/utils/apiKeyStorage.ts:134-145 | errors iff the file is unreadable; otherwise the result is strictly ascending and its elements are exactly the union of all records' categories |
| ApiKeyStorage.KeysByCategory | src/utils/apiKeyStorage.ts:149-151 | no contract of its own: the filter on records whose categories include the tag; its properties are `KeysByCategorySpec` and `CategoryListedIffKeysExist` |
| ApiKeyStorage.KeysByCategorySpec | src/utils/apiKeyStorage.ts:149-151 | the result holds exactly the records listing the tag, each as often as before, in their original order |
| ApiKeyStorage.CategoryListedIffKeysExist | src/utils/apiKeyStorage.ts:134-152 | a tag is among all categories iff asking for its records returns at least one |
| ApiKeyStorage.KeyStore.GetKeysByCategory | src/utils/apiKeyStorage.ts:147-152 | errors iff the file is unreadable; otherwise returns exactly `KeysByCategory` of the stored records |
| Text.StrLessIrreflexive | src/utils/apiKeyStorage.ts:144 | the default sort order is irreflexive |
| Text.StrLessTransitive | src/utils/apiKeyStorage.ts:144 | the default sort order is transitive |
| Text.StrLessTotal | src/utils/apiKeyStorage.ts:144 | of two different strings, one sorts before the other |
| Seqs.FilterMembership | src/utils/apiKeyStorage.ts:149 | `filter` keeps exactly the elements that pass |
| Seqs.FilterMultiset | src/utils/apiKeyStorage.ts:149 | `filter` keeps each passing element as often as before and drops the others |
| Seqs.FilterIsSubsequence | src/utils/apiKeyStorage.ts:149 | `filter` keeps the input order |
| Seqs.FilterLength | src/utils/apiKeyStorage.ts:171-173 | the filtered length equals the input length iff every element passes, and then the result is the input |
| Clipboard.ClipboardGuard.constructor | src/utils/clipboard.ts:5 | the guard starts with no timer pending |
| Clipboard.ClipboardGuard.CopyToClipboardWithClear | src/utils/clipboard.ts:3-55 | the old timer is always cancelled. A failed copy reports `CopyFailed` and leaves the clipboard as it was. Otherwise the clipboard holds the text, and a timer for that text and delay (by default `DefaultClearDelay`, 30 000 ms) is pending iff the success toast also succeeded. So at most one timer is ever pending |
| Clipboard.ClipboardGuard.TimerFires | src/utils/clipboard.ts:29-45 | the clipboard is cleared iff reading and clearing succeed and it still holds the copied text; otherwise it is untouched, and no error escapes; afterwards no timer is pending |
| Clipboard.ClipboardGuard.CancelClipboardClear | src/utils/clipboard.ts:57-62 | no timer is pending afterwards and the clipboard is unchanged, so a second cancel changes nothing |
| Clipboard.ClipboardGuard.ExternalCopy | src/utils/clipboard.ts:31-32 | the environment's step: something other than the guard puts text on the clipboard, leaving the pending timer as it was; this is the change the timer's comparison guards against |
| Clipboard.ExpiryScenarios | src/utils/clipboard.ts:12-45 | no contract: a client of the guard whose assertions follow from the contracts above. A default copy arms a 30 000 ms timer and is cleared when it fires; a copy overwritten by the user survives its timer; a second copy replaces the first timer; cancelling twice leaves no timer and the clipboard alone |
| Text.Lower | src/index.tsx:74 | lower-casing keeps the length and folds each character on its own |
| Text.LowerIdempotent | src/index.tsx:74 | lower-casing twice is lower-casing once |
| Text.IncludesIffOccurs | src/index.tsx:77-80 | `includes` holds iff the query occurs at some position |
| KeyList.MatchesSearchIffContains | src/index.tsx:74-81 | the search test passes iff the lower-cased query occurs in the lower-cased name, service, some category or the notes |
| Seqs.FilterFilter | src/index.tsx:75-89 | two successive filters equal one filter by both tests |
| KeyList.FilteredKeys | src/index.tsx:69-97 | no contract of its own: search filter, category filter, then the last-used sort; its properties are `FilterStepsSpec`, `FilteredKeysSpec`, `UnfilteredIsPermutation`, `FilteredKeysSound` and `NeverUsedLast` |
| KeyList.FilterStepsSpec | src/index.tsx:73-89 | the two filters keep exactly the records passing both tests, each as often as before, in input order |
| KeyList.InsertByTime | src/index.tsx:92-96 | inserting into a list sorted most-recent first keeps it sorted and adds exactly the one record |
| KeyList.SortByLastUsed | src/index.tsx:92-96 | the sort yields a permutation of its input, non-increasing in last-use time |
| KeyList.InsertByTimeStable | src/index.tsx:92-96 | inserting keeps, for each time value, the records with that time in order, with the new record ahead of the older ones |
| KeyList.SortByLastUsedStable | src/index.tsx:92-96 | the sort is stable: records with equal times keep their relative order |
| KeyList.FilteredKeysSpec | src/index.tsx:69-97 | the list holds exactly the loaded records that pass both filters, each as often as loaded; it is sorted most-recent first, with ties in loaded order |
| KeyList.UnfilteredIsPermutation | src/index.tsx:69-97 | with no search text and "All" selected, the list is a permutation of the loaded records |
| KeyList.FilteredKeysSound | src/index.tsx:70-88 | every listed record was loaded; with search text, it contains the lower-cased query; with a category, it lists that exact tag |
| KeyList.NeverUsedLast | src/index.tsx:92-96 | a record never used is listed after every record with a positive last-use time |
| KeyList.KeyIdCollision | src/index.tsx:206 | two records with different (name, service) pairs can share a row key |
| KeyList.ToggleKeyVisibility | src/index.tsx:12-17 | toggling flips whether that row is shown and leaves every other row's entry as it was |
| KeyList.ToggleTwice | src/index.tsx:213 | toggling twice shows the same rows as before, and restores the map exactly when the row had an entry |
| KeyDisplay.Bullets | src/components/KeyDisplay.tsx:23 | `'•'.repeat(n)` is n bullets |
| KeyDisplay.DisplayValue | src/components/KeyDisplay.tsx:21-26 | when visible or shown in full, the value itself; when masked, 8 bullets for a value of at most 8 characters, else the first 4, 8 bullets and the last 4 (16 characters) |
| KeyDisplay.MaskRevealsAtMostEight | src/components/KeyDisplay.tsx:23-25 | masked short values all look the same; masked long values that agree in their first and last 4 characters look the same; a masked output shows value characters only in its first 4 and last 4 positions |
| KeyDisplay.ToggleVisibility | src/components/KeyDisplay.tsx:15-19 | the toggle flips `isVisible` |
| AddApiKeyForm.HandleSubmit | src/add-api-key.tsx:41-60 | no contract of its own: the handler as written, choosing the service with line 53's test for "Custom"; its properties are `SubmitValidation` and `SubmitIgnoresCustomName` |
| AddApiKeyForm.HandleSubmitIntended | src/add-api-key.tsx:41-60 | no contract of its own: the handler with the service chosen by the option name "🔑 Custom"; its property is `IntendedSubmitUsesTypedName` |
| AddApiKeyForm.SubmitValidation | src/add-api-key.tsx:41-60 | the submission stops at "Missing Fields" iff the name or value is empty; otherwise the store is asked to add exactly the entered name, value, notes and parsed categories, under the service line 53 chooses |
| AddApiKeyForm.SubmitIgnoresCustomName | src/add-api-key.tsx:53-60 | as written, for every offered option the key is added under that option's own name, and a typed name that is not an option never reaches the store |
| AddApiKeyForm.IntendedSubmitUsesTypedName | src/add-api-key.tsx:53-60 | the corrected handler adds the key under the typed name when "🔑 Custom" is selected, and otherwise submits exactly what the written handler submits |
| AddApiKeyForm.CustomNeverSelected | src/add-api-key.tsx:53 | as written, every offered option is submitted as itself, so a typed custom name that is not itself an option is never submitted |
| AddApiKeyForm.CustomNameReachable | src/add-api-key.tsx:16 | with the option name "🔑 Custom" in the test, selecting it submits the typed name and every other option is submitted as itself |
| Text.TrimStart | src/add-api-key.tsx:56 | the result is the suffix left after dropping a prefix made only of white space, and it does not start with white space, so exactly the leading white space is removed |
| Text.TrimEnd | src/add-api-key.tsx:56 | the result is the prefix left after dropping a suffix made only of white space, and it does not end with white space, so exactly the trailing white space is removed |
| Text.TrimIdempotent | src/add-api-key.tsx:56 | a trimmed string has no white space at either end, and trimming it again changes nothing |
| Text.TrimKeepsOut | src/add-api-key.tsx:56 | trimming adds no character, so a comma-free string stays comma-free |
| AddApiKeyForm.TrimAll | src/add-api-key.tsx:56 | the `map` trims each segment and keeps their number |
| Text.Split | src/add-api-key.tsx:55 | `split` yields at least one piece and no piece contains the separator |
| Text.JoinSplit | src/add-api-key.tsx:55 | joining the pieces of a split with the separator gives back the input |
| Text.SplitJoin | src/add-api-key.tsx:55 | splitting a join of separator-free pieces gives back the pieces |
| AddApiKeyForm.ParseCategories | src/add-api-key.tsx:54-57 | no contract of its own: split on commas, trim each piece, drop the empty ones; its properties are `ParseCategoriesSpec`, `ParsedCategoryClean`, `ParseEmpty` and `ParseJoinRoundTrip` |
| AddApiKeyForm.ParseCategoriesSpec | src/add-api-key.tsx:54-57 | the parsed categories are exactly the non-empty trimmed segments, each as often as it occurs among them, in segment order; each is non-empty, equals its own trim and has no comma |
| AddApiKeyForm.ParsedCategoryClean | src/add-api-key.tsx:54-57 | any one parsed category is non-empty, trimmed and comma-free |
| AddApiKeyForm.ParseEmpty | src/add-api-key.tsx:54-57 | an empty category field gives no categories |
| AddApiKeyForm.ParseJoinRoundTrip | src/add-api-key.tsx:54-57 | parsing the comma-join of non-empty, trimmed, comma-free categories gives back the same list |
| EditApiKeyForm.InitialService | src/edit-api-key.tsx:42 | the initial selection is one of the offered services: the stored service if offered, else "Custom" |
| EditApiKeyForm.InitialCustomService | src/edit-api-key.tsx:44 | no contract of its own: the stored service when the initial selection is "Custom", else empty; its property is `ServiceRoundTrip` |
| EditApiKeyForm.ServiceName | src/edit-api-key.tsx:61 | no contract of its own: the typed name when "Custom" is selected, else the selection; its properties are `ServiceRoundTrip` and `SubmitValidation` |
| EditApiKeyForm.ServiceRoundTrip | src/edit-api-key.tsx:42-61 | if the dropdown and custom field are left as initialised, the submitted service is the stored one, whatever string it is |
| EditApiKeyForm.HandleSubmit | src/edit-api-key.tsx:49-62 | no contract of its own: the required-field check, then one `updateApiKey(id, { service, name, key })`; its properties are `SubmitValidation`, `SubmitKeepsOtherFields` and `UntouchedSubmitChangesOnlyUpdatedAt` |
| EditApiKeyForm.SubmitValidation | src/edit-api-key.tsx:49-62 | the submission stops at "Missing Fields" iff the name or value is empty; otherwise it updates that id with exactly the service chosen at line 61 and the entered name and value, and sends nothing for categories, notes or last use |
| EditApiKeyForm.SubmitKeepsOtherFields | src/edit-api-key.tsx:62 | the update sends only service, name and key, so after the merge categories, notes, last use, id and creation time are unchanged |
| EditApiKeyForm.UntouchedSubmitChangesOnlyUpdatedAt | src/edit-api-key.tsx:42-62 | submitting the form as opened leaves the record unchanged except for its update time |

## Left out

- File I/O:
  - reading, writing and creating the storage directory are not modelled;
  - a failing `mkdir` is folded into `Unreadable` when loading, and into `saveOk == false` when saving;
  - the storage path is not modelled;
  - JSON parsing and printing are not modelled; a parse failure is `Unreadable`, like any non-ENOENT read error.
- `crypto.randomUUID`, `Math.random` and `new Date()` are parameters (`randomUuid`, `nibbles`, `id`, `now`). The model does not look at their distribution.
- Timestamps: ISO strings and their parsing by `new Date(...).getTime()` are replaced by integers. An unparseable date (NaN) is not modelled.
- Text.Lower: folds ASCII letters only, not full Unicode `toLowerCase`.
- Text: strings are sequences of code points, not UTF-16 units. Substring positions and the default `sort` order can differ from JavaScript for characters outside the Basic Multilingual Plane.
- ApiKeyStorage.KeyUpdates: an update field set explicitly to `undefined` (which the spread would copy) is the same as an absent field.
- ApiKeyStorage.KeyStore.UpdateApiKey, ApiKeyStorage.KeyStore.DeleteApiKey: the source rethrows every failure with one generic message; the model keeps the cause (`ReadFailed`, `NotFound`, `WriteFailed`).
- ApiKeyStorage.KeyStore.AddApiKey: which message is logged is not modelled.
- Logging is left out everywhere.
- Concurrency: every store call, and every clipboard call, is one atomic step. `await` interleavings and races between processes writing the file are not modelled. A timer callback's `finally` that nulls a newer timer set during its awaits is not modelled either.
- ApiKeyStorage.KeyStore.SaveApiKeys: a failed write is taken to leave the file as it was. `writeFile` truncates the file before writing, so a write failing part-way (a full disk, an I/O error) can leave a partial file that the next load reads as `Unreadable`. The "file unchanged" clause on the `WriteFailed` path of `SaveApiKeys`, `AddApiKey`, `UpdateApiKey`, `UpdateKeyLastUsed` and `DeleteApiKey` rests on this choice.
- Clipboard.ClipboardGuard.CopyToClipboardWithClear: the failure toast that precedes the rethrow, and that toast's own failure, are not modelled.
- Clipboard.ClipboardGuard.TimerFires: the "cleared" toast is not modelled. Only the clipboard contents are.
- Clipboard.ClipboardGuard.TimerFires: the delay is recorded; elapsed time is not modelled.
- The user interface is not modelled:
  - components, toasts and navigation;
  - the `LocalStorage` view preference, and icons;
  - the "Copied" indicator in `KeyDisplay`, and the calls to `onToggleVisibility`.
- The add form's second read after an error (`src/add-api-key.tsx:73-92`) is an I/O round trip that only picks the toast message. It is not modelled.
- `src/view-api-key-detail.tsx` and `src/components/ApiKeyListItem.tsx` are not part of this model. They are presentation: a short mask, a date formatter and an icon table.

## Findings

| source | as written | input that shows it | evidently intended | confidence | as-written member | corrected member |
|---|---|---|---|---|---|---|
| src/add-api-key.tsx:53 | the option that reveals the custom field is named "🔑 Custom" (line 16), but the handler tests `selectedService === "Custom"` | select "🔑 Custom": no custom-name field is shown (line 141 tests "Custom" too), and the key is stored under service "🔑 Custom" | when "🔑 Custom" is selected, the typed name is stored | high, by reading the code; not executed | AddApiKeyForm.SubmitIgnoresCustomName | AddApiKeyForm.IntendedSubmitUsesTypedName |

`AddApiKeyForm.HandleSubmit` keeps the written test, so the model submits
what the code submits. The corrected choice is `AddApiKeyForm.ServiceName`,
used by `AddApiKeyForm.HandleSubmitIntended`. The form's render test at
`src/add-api-key.tsx:141` has the same mismatch, so as written the field is
never even displayed.
