# SecuredStorage in Dafny

A model of the `SecuredStorage` facade: a typed layer over the platform
Keychain that adds, updates, saves (upserts), searches and removes key/value
secrets under a service name, an optional access group and an accessibility
policy. The model covers the translation layer of the facade: how each
operation builds its attribute dictionary, how nil entries are dropped, which
provider operation it calls and how often, how the returned `OSStatus` becomes
an `AddingResult`, `UpdateResult` or `SearchResult`, how the records of a
search-all are folded into a key-to-data map, and the fixed mapping from
`Accessibility` to the Keychain's accessibility constants.

Files and modules:

- `wrappers.dfy` (`Wrappers`): `Option`, for Swift optionals.
- `keychain.dfy` (`Keychain`): attribute keys, platform constants, query values,
  search result objects, `OSStatus` (32-bit) and the codes `errSecSuccess` (0),
  `errSecDuplicateItem` (-25299) and `errSecItemNotFound` (-25300).
- `accessibility.dfy` (`AccessibilityPolicy`): `Accessibility` and `queryValue`.
- `request_result.dfy` (`RequestResult`): the three outcome types.
- `queries.dfy` (`Queries`): `makeDefaultQueryParams`, `getDictionary` and the
  exact query each operation sends.
- `responses.dfy` (`Responses`): status-code mapping per operation, the `as?`
  coercions of a search result, and the record fold of `searchAllValues`.
- `data_provider.dfy` (`DataProvider`): the four-operation provider seam, as a
  scripted provider that answers with preset codes and logs every call.
- `storage.dfy` (`Storage`): the facade class and its six operations.

The facade's operations are methods that build the query step by step, call
the provider and map the code; each method's postcondition gives the exact
call log the provider sees and the outcome as a function of the provider's
preset answer. Since the preset answers are arbitrary, the contracts hold for
every status code and every search result.

## Model

| member | source | states |
|---|---|---|
| `AccessibilityPolicy.QueryValue` | SecuredStorage/Sources/SecuredStorage/Accessibility.swift:15-52 | The constant is one of the five accessibility constants, and it is a "this device only" constant exactly when the policy does not migrate with a backup (`shouldBeMigrated == false`, or `whenPasscodeSet`). |
| `AccessibilityPolicy.PolicyOf` | SecuredStorage/Sources/SecuredStorage/Accessibility.swift:33-52 | The same table read from the constants' side: a constant stands for a policy exactly when it is an accessibility constant. |
| `AccessibilityPolicy.QueryValueRoundTrip` | SecuredStorage/Tests/SecuredStorageTests/AccessibilityTests.swift:17-50 | Each of the five policies maps to the constant that stands for it (when unlocked / after first unlock, migrating or device only; passcode set, device only), and a constant stands for a policy only if that policy maps to it. |
| `AccessibilityPolicy.QueryValueInjective` | SecuredStorage/Sources/SecuredStorage/Accessibility.swift:33-52 | Two policies with the same constant are the same policy: five variants give five distinct constants. |
| `AccessibilityPolicy.QueryValueOnto` | SecuredStorage/Sources/SecuredStorage/Accessibility.swift:33-52 | Every accessibility constant is the translation of some policy. |
| `RequestResult.SearchResultEqual` | SecuredStorage/Tests/SecuredStorageTests/Extensions/SecuredStorage.SearchResult+Equatable.swift:8-23 | Results judged equal are of the same variant, and two equal failures carry the same code. |
| `RequestResult.SearchResultEqualIsStructural` | SecuredStorage/Tests/SecuredStorageTests/Extensions/SecuredStorage.SearchResult+Equatable.swift:8-21 | The case-by-case equality on search results (both success with equal payloads, both not-found, both failure with equal codes) is exactly structural equality; results of different variants are never equal. |
| `Queries.DefaultQueryParams` | SecuredStorage/Sources/SecuredStorage/SecuredStorage.swift:178-185 | The default literal always has the four keys class, accessible, service and access group, the last possibly nil. |
| `Queries.GetDictionary` | SecuredStorage/Sources/SecuredStorage/SecuredStorage.swift:187-195 | Keeps exactly the entries whose value is non-nil, with keys and values unchanged, and drops every nil entry. |
| `Queries.GetDictionaryInsert` | SecuredStorage/Sources/SecuredStorage/SecuredStorage.swift:187-195 | Setting a non-nil entry before the filter gives the same dictionary as setting it after the filter. |
| `Queries.GetDictionaryOfPresent` | SecuredStorage/Sources/SecuredStorage/SecuredStorage.swift:187-195 | A dictionary without nil entries passes the filter unchanged. |
| `Queries.BaseQuery` | SecuredStorage/Sources/SecuredStorage/SecuredStorage.swift:178-185 | The base of every query: class generic password, the policy's accessibility constant, the service name, and the access-group key only when a group is set, then with that exact value. |
| `Queries.DefaultQueryParamsFiltered` | SecuredStorage/Sources/SecuredStorage/SecuredStorage.swift:178-195 | The default literal, once nil entries are dropped, is the base query: an unset group never reaches the store. |
| `Queries.AddQuery` | SecuredStorage/Sources/SecuredStorage/SecuredStorage.swift:48-50 | addValue's query keeps the base and adds exactly the account and the data. |
| `Queries.ItemQuery` | SecuredStorage/Sources/SecuredStorage/SecuredStorage.swift:69-70 | updateValue's and removeValue's query keeps the base and adds exactly the account, with no data key. |
| `Queries.UpdateAttributes` | SecuredStorage/Sources/SecuredStorage/SecuredStorage.swift:72 | The attributes to update hold the new data and nothing else. |
| `Queries.SearchQuery` | SecuredStorage/Sources/SecuredStorage/SecuredStorage.swift:110-113 | searchValue's query keeps the base and adds exactly account, match limit one and return data true. |
| `Queries.SearchAllQuery` | SecuredStorage/Sources/SecuredStorage/SecuredStorage.swift:131-134 | searchAllValues's query keeps the base and adds exactly match limit all, return attributes true and return data true, with no account key. |
| `Queries.AddQueryWithGroupExample` | SecuredStorage/Tests/SecuredStorageTests/AddingValueToSecuredStorageWithGroupTests.swift:10-17 | For service "stubServiceName", group "stubAccessGroup", key "stubKey" and `afterFirstUnlock(shouldBeMigrated: false)`, the add query is exactly the six-entry dictionary the add and save tests expect, with the after-first-unlock device-only constant. |
| `Queries.NoGroupNoAccessGroupKey` | SecuredStorage/Tests/SecuredStorageTests/GroupTests.swift:29-34 | Without a group, no query of any operation carries the access-group key. |
| `Responses.AddingOutcome` | SecuredStorage/Sources/SecuredStorage/SecuredStorage.swift:54-61 | Duplicate iff the code is errSecDuplicateItem, success iff errSecSuccess, otherwise a failure carrying the code unchanged. |
| `Responses.UpdateOutcome` | SecuredStorage/Sources/SecuredStorage/SecuredStorage.swift:79-84 | Success iff the code is errSecSuccess; every other code, item-not-found included, is a failure carrying it. |
| `Responses.RemoveOutcome` | SecuredStorage/Sources/SecuredStorage/SecuredStorage.swift:168-173 | Success iff the code is errSecSuccess or errSecItemNotFound; every other code is a failure carrying it. |
| `Responses.SearchOutcome` | SecuredStorage/Sources/SecuredStorage/SecuredStorage.swift:118-125 | Not-found iff errSecItemNotFound, success with the coerced payload iff errSecSuccess, otherwise a failure carrying the code. |
| `Responses.AddingStatus` | SecuredStorage/Sources/SecuredStorage/SecuredStorage.swift:54-61 | Every adding outcome the mapping can produce (success, duplicate, or a failure whose code is neither success nor duplicate) is produced again from the code read back from it. |
| `Responses.UpdateStatus` | SecuredStorage/Sources/SecuredStorage/SecuredStorage.swift:79-84 | Every update outcome the mapping can produce (success, or a failure whose code is not success) is produced again from the code read back from it. |
| `Responses.OutcomesKeepStatus` | SecuredStorage/Sources/SecuredStorage/SecuredStorage.swift:54-84 | Adding and update outcomes lose no information: the store's code can be read back from the outcome. |
| `Responses.RemoveIsUpdateExceptNotFound` | SecuredStorage/Sources/SecuredStorage/SecuredStorage.swift:168-173 | Removal agrees with update on every code except item-not-found, which becomes success: deleting an absent key is not an error. |
| `Responses.AsData` | SecuredStorage/Sources/SecuredStorage/SecuredStorage.swift:122 | The payload of a single search is the bytes exactly when the store returned bytes, and nil for any other or missing object. |
| `Responses.AsRecords` | SecuredStorage/Sources/SecuredStorage/SecuredStorage.swift:143 | The records are present exactly when the store returned an array of attribute dictionaries. |
| `Responses.AllValuesPayload` | SecuredStorage/Sources/SecuredStorage/SecuredStorage.swift:142-151 | A search-all payload is nil when the store did not return records, and otherwise the fold of those records. |
| `Responses.RecordEntry` | SecuredStorage/Sources/SecuredStorage/SecuredStorage.swift:145-147 | A record yields an (account, data) pair exactly when its account is a string and its data is bytes, and the pair is those two values. |
| `Responses.FoldRecords` | SecuredStorage/Sources/SecuredStorage/SecuredStorage.swift:144-150 | Every entry of the folded map comes from some record with that account and that data. |
| `Responses.FoldRecordsKeys` | SecuredStorage/Sources/SecuredStorage/SecuredStorage.swift:143-150 | A key is in the folded map exactly when some record has that string account and byte data; records missing either are skipped. |
| `Responses.FoldRecordsLastWins` | SecuredStorage/Sources/SecuredStorage/SecuredStorage.swift:144-150 | The value under a key is the data of the last well-formed record with that account: a later record overwrites an earlier one. |
| `Responses.FoldRecordsSkipsMalformed` | SecuredStorage/Sources/SecuredStorage/SecuredStorage.swift:145-147 | Removing every malformed record beforehand does not change the folded map. |
| `Responses.FoldSingleRecord` | SecuredStorage/Tests/SecuredStorageTests/SearchAllValuesInSecuredStorageWithGroupTests.swift:29-37 | One record with account k and data b folds to exactly {k: b}. |
| `DataProvider.ScriptedDataProvider.AddItem` | SecuredStorage/Sources/SecuredStorage/SecuredDataProvider.swift:12 | Logs one add call with the given query and answers with the preset code. |
| `DataProvider.ScriptedDataProvider.CopyItemMatching` | SecuredStorage/Sources/SecuredStorage/SecuredDataProvider.swift:14 | Logs one search call with the given query and answers with the preset code and result object. |
| `DataProvider.ScriptedDataProvider.UpdateItem` | SecuredStorage/Sources/SecuredStorage/SecuredDataProvider.swift:16 | Logs one update call with the given query and attributes and answers with the preset code. |
| `DataProvider.ScriptedDataProvider.DeleteItem` | SecuredStorage/Sources/SecuredStorage/SecuredDataProvider.swift:18 | Logs one delete call with the given query and answers with the preset code. |
| `DataProvider.CountsPartition` | SecuredStorage/Tests/SecuredStorageTests/SaveValueTests.swift:95-143 | The add, update and other-method counters together count every logged call exactly once. |
| `DataProvider.CountsAppend` | SecuredStorage/Tests/SecuredStorageTests/SaveValueTests.swift:95-143 | The per-operation call counts of a log are additive over appended calls. |
| `Storage.SecuredStorage.constructor` | SecuredStorage/Sources/SecuredStorage/SecuredStorage.swift:29-37 | A storage keeps the given service name, access group and provider. |
| `Storage.SecuredStorage.AddValue` | SecuredStorage/Sources/SecuredStorage/SecuredStorage.swift:43-62 | Exactly one provider call, an add with base + account + data; the outcome is the add mapping of the returned code. |
| `Storage.SecuredStorage.UpdateValue` | SecuredStorage/Sources/SecuredStorage/SecuredStorage.swift:64-85 | Exactly one provider call, an update with base + account as query and {data} as attributes; the outcome is the update mapping of the returned code. |
| `Storage.SecuredStorage.SaveValue` | SecuredStorage/Sources/SecuredStorage/SecuredStorage.swift:87-102 | One add call; one update call exactly when add reports a duplicate, and none otherwise; no search or delete. The result is success on add success, the update's outcome on a duplicate, and the add's failure code otherwise. |
| `Storage.SecuredStorage.SearchValue` | SecuredStorage/Sources/SecuredStorage/SecuredStorage.swift:106-126 | Exactly one provider call, a search with base + account + match one + return data; not-found, success with the bytes (or nil) or failure, by the returned code. |
| `Storage.SecuredStorage.SearchAllValues` | SecuredStorage/Sources/SecuredStorage/SecuredStorage.swift:128-155 | Exactly one provider call, a search with base + match all + return attributes + return data; on success the payload is the record fold, or nil if no records came back. |
| `Storage.SecuredStorage.RemoveValue` | SecuredStorage/Sources/SecuredStorage/SecuredStorage.swift:159-174 | Exactly one provider call, a delete with base + account; success on success or item-not-found, otherwise a failure carrying the code. |

## Left out

- Responses.FoldRecords, Responses.FoldRecordsKeys: accounts are compared code point by code point, while the source's `[String: Data]` treats canonically equivalent Swift strings (such as a precomposed and a decomposed accent) as the same key and merges them; the model keeps them as separate keys.
- Responses.FoldRecordsLastWins: "last record wins" holds per account spelling; for two canonically equivalent but differently spelled accounts the source keeps only the later record's data under one key, which the model does not capture.
- The default provider (`DefaultSecuredDataProvider.swift`): each of its methods is a single call to `SecItemAdd`, `SecItemCopyMatching`, `SecItemUpdate` or `SecItemDelete`, which are platform functions with no logic here.
- The provider protocol is not modelled as an interface type: the facade holds a concrete scripted provider with preset answers and a call log. Any binding answers some code (and object); since the preset answers are arbitrary, the facade's contracts cover every answer, but substituting another provider implementation is not expressible.
- The Keychain's own semantics: uniqueness of (service, group, account), encryption, enforcement of accessibility at read time (`errSecInteractionNotAllowed`), durability.
- CoreFoundation bridging: `CFDictionary`, `CFString`, `CFTypeRef` and the `as?` casts become datatypes and pattern matches; attribute keys are the nine the facade uses, and a record's other attributes are not modelled.
- The default arguments of the initialiser (no group, the default provider) are explicit parameters.
- Concurrency: there is none; every operation is one synchronous request (two for saveValue).
- `Package.swift` (build manifest) and the XCTest harness and spies; the scripted provider plays the spies' role.
- In the source the `as?` coercion of a search result runs only on the success branch; the model passes the coerced payload to the status mapping, which uses it only on success, so the results are the same.
- Lenient coercions are kept as the code has them: a successful search whose answer is not bytes succeeds with a nil payload, and a successful search-all whose answer is not an array of records succeeds with a nil payload, rather than failing.
