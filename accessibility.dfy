/**
  The accessibility policy of a stored item and its translation to the
  Keychain's `kSecAttrAccessible*` constants.
*/
module AccessibilityPolicy {
  import opened Wrappers
  import opened Keychain

  datatype Accessibility =
    | WhenUnlocked(shouldBeMigrated: bool)
    | AfterFirstUnlock(shouldBeMigrated: bool)
    | WhenPasscodeSet

  /** Whether an item under this policy may move to a new device with an encrypted backup. */
  predicate MigratesWithBackup(a: Accessibility) {
    match a
    case WhenUnlocked(m) => m
    case AfterFirstUnlock(m) => m
    case WhenPasscodeSet => false
  }

  /** The constants whose items stay on the device that created them. */
  predicate IsThisDeviceOnly(k: SecConstant) {
    k in {AccessibleWhenUnlockedThisDeviceOnly, AccessibleAfterFirstUnlockThisDeviceOnly,
          AccessibleWhenPasscodeSetThisDeviceOnly}
  }

  /** The five constants an accessibility policy can translate to. */
  predicate IsAccessibilityConstant(k: SecConstant) {
    k in {AccessibleWhenUnlocked, AccessibleWhenUnlockedThisDeviceOnly, AccessibleAfterFirstUnlock,
          AccessibleAfterFirstUnlockThisDeviceOnly, AccessibleWhenPasscodeSetThisDeviceOnly}
  }

  /** `queryValue`: the Keychain constant for a policy. */
  function QueryValue(a: Accessibility): (k: SecConstant)
    ensures IsAccessibilityConstant(k)
    ensures IsThisDeviceOnly(k) <==> !MigratesWithBackup(a)
  {
    match a
    case WhenUnlocked(shouldBeMigrated) =>
      if shouldBeMigrated then AccessibleWhenUnlocked else AccessibleWhenUnlockedThisDeviceOnly
    case AfterFirstUnlock(shouldBeMigrated) =>
      if shouldBeMigrated then AccessibleAfterFirstUnlock else AccessibleAfterFirstUnlockThisDeviceOnly
    case WhenPasscodeSet =>
      AccessibleWhenPasscodeSetThisDeviceOnly
  }

  /**
    The reverse reading of the same table, written from the constants' side:
    which policy a constant stands for, if any.
  */
  function PolicyOf(k: SecConstant): (r: Option<Accessibility>)
    ensures r.Some? <==> IsAccessibilityConstant(k)
  {
    match k
    case AccessibleWhenUnlocked => Some(WhenUnlocked(true))
    case AccessibleWhenUnlockedThisDeviceOnly => Some(WhenUnlocked(false))
    case AccessibleAfterFirstUnlock => Some(AfterFirstUnlock(true))
    case AccessibleAfterFirstUnlockThisDeviceOnly => Some(AfterFirstUnlock(false))
    case AccessibleWhenPasscodeSetThisDeviceOnly => Some(WhenPasscodeSet)
    case _ => None
  }

  /** Every policy translates to the constant that stands for it, and back. */
  lemma QueryValueRoundTrip(a: Accessibility, k: SecConstant)
    ensures PolicyOf(QueryValue(a)) == Some(a)
    ensures PolicyOf(k) == Some(a) ==> QueryValue(a) == k
  {
  }

  /** The translation is injective: five policies give five distinct constants. */
  lemma QueryValueInjective(a: Accessibility, b: Accessibility)
    ensures QueryValue(a) == QueryValue(b) ==> a == b
  {
  }

  /** The translation reaches exactly the five accessibility constants. */
  lemma QueryValueOnto(k: SecConstant)
    requires IsAccessibilityConstant(k)
    ensures exists a :: QueryValue(a) == k
  {
    var a := PolicyOf(k).value;
    QueryValueRoundTrip(a, k);
  }
}
