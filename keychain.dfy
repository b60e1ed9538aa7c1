/**
  The vocabulary of the platform secure-credential store (the Keychain) that the
  storage facade speaks: attribute names, the opaque constants it sends, the
  values a query holds, the objects a search returns and the status codes.
  CoreFoundation bridging (CFDictionary, CFString, CFTypeRef and the `as?`
  casts) is abstracted into these datatypes.
*/
module Keychain {
  import opened Wrappers

  newtype byte = x: int | 0 <= x < 256

  /** `Data` in the source. */
  type Bytes = seq<byte>

  /** `OSStatus` is a signed 32-bit integer. */
  newtype OSStatus = x: int | -0x8000_0000 <= x < 0x8000_0000

  const ErrSecSuccess: OSStatus := 0
  const ErrSecDuplicateItem: OSStatus := -25299
  const ErrSecItemNotFound: OSStatus := -25300

  /** The attribute keys (`kSecClass`, `kSecAttrAccessible`, ...) the facade uses. */
  datatype Attr =
    | Class             // kSecClass
    | Accessible        // kSecAttrAccessible
    | Service           // kSecAttrService
    | AccessGroup       // kSecAttrAccessGroup
    | Account           // kSecAttrAccount
    | ValueData         // kSecValueData
    | MatchLimit        // kSecMatchLimit
    | ReturnData        // kSecReturnData
    | ReturnAttributes  // kSecReturnAttributes

  /** The opaque platform constants the facade puts into queries. */
  datatype SecConstant =
    | ClassGenericPassword                      // kSecClassGenericPassword
    | AccessibleWhenUnlocked                    // kSecAttrAccessibleWhenUnlocked
    | AccessibleWhenUnlockedThisDeviceOnly      // kSecAttrAccessibleWhenUnlockedThisDeviceOnly
    | AccessibleAfterFirstUnlock                // kSecAttrAccessibleAfterFirstUnlock
    | AccessibleAfterFirstUnlockThisDeviceOnly  // kSecAttrAccessibleAfterFirstUnlockThisDeviceOnly
    | AccessibleWhenPasscodeSetThisDeviceOnly   // kSecAttrAccessibleWhenPasscodeSetThisDeviceOnly
    | MatchLimitOne                             // kSecMatchLimitOne
    | MatchLimitAll                             // kSecMatchLimitAll

  /** A value stored under an attribute key. */
  datatype Value =
    | Str(s: string)
    | Data(bytes: Bytes)
    | Flag(b: bool)
    | Constant(c: SecConstant)

  /** A query or attribute dictionary handed to the store, after nil entries are dropped. */
  type Query = map<Attr, Value>

  /** One attribute dictionary in the array a search with `kSecReturnAttributes` returns. */
  type Record = map<Attr, Value>

  /** What `SecItemCopyMatching` may write into its `result` out-parameter. */
  datatype CFObject =
    | Plain(v: Value)                  // a single value, e.g. the item's data
    | RecordArray(records: seq<Record>) // an array of attribute dictionaries
    | OtherObject                      // anything else (a number, a date, a mixed array, ...)
}
