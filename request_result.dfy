/** The closed outcome types the facade returns. */
module RequestResult {
  import opened Keychain

  /** Result of adding an item. */
  datatype AddingResult = Success | TryToDuplicate | Failure(status: OSStatus)

  /** Result of searching; generic in what a successful search carries. */
  datatype SearchResult<Element> = Success(payload: Element) | NotFound | Failure(status: OSStatus)

  /** Result of updating, saving or removing an item. */
  datatype UpdateResult = Success | Failure(status: OSStatus)

  /**
    The equality on search results written case by case: same variant, and
    equal payloads or equal codes where the variant carries one.
  */
  predicate SearchResultEqual<T(==)>(lhs: SearchResult<T>, rhs: SearchResult<T>)
    ensures SearchResultEqual(lhs, rhs) ==> lhs.Success? == rhs.Success? && lhs.NotFound? == rhs.NotFound?
    ensures SearchResultEqual(lhs, rhs) && lhs.Failure? ==> lhs.status == rhs.status
  {
    match (lhs, rhs)
    case (Success(l), Success(r)) => l == r
    case (NotFound, NotFound) => true
    case (Failure(l), Failure(r)) => l == r
    case _ => false
  }

  /** That case-by-case equality is exactly structural equality. */
  lemma SearchResultEqualIsStructural<T>(lhs: SearchResult<T>, rhs: SearchResult<T>)
    ensures SearchResultEqual(lhs, rhs) <==> lhs == rhs
    ensures lhs.Success? != rhs.Success? ==> !SearchResultEqual(lhs, rhs)
    ensures lhs.NotFound? != rhs.NotFound? ==> !SearchResultEqual(lhs, rhs)
  {
  }
}
