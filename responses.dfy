/**
  How the facade reads what the store answers: the per-operation mapping of
  status codes to outcomes, the coercion of a search result, and the fold of
  attribute records into a key-to-data map.
*/
module Responses {
  import opened Wrappers
  import opened Keychain
  import opened RequestResult

  /** addValue: duplicate and success are special, every other code is a failure. */
  function AddingOutcome(status: OSStatus): (r: AddingResult)
    ensures r == AddingResult.TryToDuplicate <==> status == ErrSecDuplicateItem
    ensures r == AddingResult.Success <==> status == ErrSecSuccess
    ensures r.Failure? ==> r.status == status
  {
    if status == ErrSecDuplicateItem then AddingResult.TryToDuplicate
    else if status == ErrSecSuccess then AddingResult.Success
    else AddingResult.Failure(status)
  }

  /** updateValue: only success is special; a missing item is an ordinary failure. */
  function UpdateOutcome(status: OSStatus): (r: UpdateResult)
    ensures r == UpdateResult.Success <==> status == ErrSecSuccess
    ensures r.Failure? ==> r.status == status
  {
    if status == ErrSecSuccess then UpdateResult.Success else UpdateResult.Failure(status)
  }

  /** removeValue: success and item-not-found both count as success. */
  function RemoveOutcome(status: OSStatus): (r: UpdateResult)
    ensures r == UpdateResult.Success <==> status == ErrSecSuccess || status == ErrSecItemNotFound
    ensures r.Failure? ==> r.status == status
  {
    if status == ErrSecSuccess || status == ErrSecItemNotFound then UpdateResult.Success
    else UpdateResult.Failure(status)
  }

  /** searchValue / searchAllValues: not-found and success are special. */
  function SearchOutcome<T>(status: OSStatus, found: T): (r: SearchResult<T>)
    ensures r.NotFound? <==> status == ErrSecItemNotFound
    ensures r.Success? <==> status == ErrSecSuccess
    ensures r.Success? ==> r.payload == found
    ensures r.Failure? ==> r.status == status
  {
    if status == ErrSecItemNotFound then SearchResult.NotFound
    else if status == ErrSecSuccess then SearchResult.Success(found)
    else SearchResult.Failure(status)
  }

  /** The code an adding outcome stands for; the inverse of AddingOutcome. */
  function AddingStatus(r: AddingResult): (s: OSStatus)
    ensures (r.Failure? ==> r.status != ErrSecSuccess && r.status != ErrSecDuplicateItem) ==> AddingOutcome(s) == r
  {
    match r
    case Success => ErrSecSuccess
    case TryToDuplicate => ErrSecDuplicateItem
    case Failure(s) => s
  }

  /** The code an update outcome stands for; the inverse of UpdateOutcome. */
  function UpdateStatus(r: UpdateResult): (s: OSStatus)
    ensures (r.Failure? ==> r.status != ErrSecSuccess) ==> UpdateOutcome(s) == r
  {
    match r
    case Success => ErrSecSuccess
    case Failure(s) => s
  }

  /** Adding and updating lose no information: the caller can recover the store's code. */
  lemma OutcomesKeepStatus(status: OSStatus)
    ensures AddingStatus(AddingOutcome(status)) == status
    ensures UpdateStatus(UpdateOutcome(status)) == status
  {
  }

  /**
    Removal agrees with update on every code but item-not-found, which it
    turns into success: deleting an absent key is not an error.
  */
  lemma RemoveIsUpdateExceptNotFound(status: OSStatus)
    ensures RemoveOutcome(status)
         == if status == ErrSecItemNotFound then UpdateResult.Success else UpdateOutcome(status)
  {
  }

  /** `item as? Data`: the bytes if the search produced bytes, nil otherwise. */
  function AsData(item: Option<CFObject>): (r: Option<Bytes>)
    ensures r.Some? <==> item.Some? && item.value.Plain? && item.value.v.Data?
    ensures r.Some? ==> item.value.v.bytes == r.value
  {
    match item
    case Some(Plain(Data(b))) => Some(b)
    case _ => None
  }

  /** `item as? [[String: Any]]`: the records if the search produced an array of them. */
  function AsRecords(item: Option<CFObject>): (r: Option<seq<Record>>)
    ensures r.Some? <==> item.Some? && item.value.RecordArray?
    ensures r.Some? ==> item.value.records == r.value
  {
    match item
    case Some(RecordArray(rs)) => Some(rs)
    case _ => None
  }

  /** The (account, data) pair of a record, when it has a string account and byte data. */
  function RecordEntry(rec: Record): (r: Option<(string, Bytes)>)
    ensures r.Some? <==> Account in rec && rec[Account].Str? && ValueData in rec && rec[ValueData].Data?
    ensures r.Some? ==> Str(r.value.0) == rec[Account] && Data(r.value.1) == rec[ValueData]
  {
    if Account in rec && rec[Account].Str? && ValueData in rec && rec[ValueData].Data?
    then Some((rec[Account].s, rec[ValueData].bytes))
    else None
  }

  /** The record supplies an entry for key `k`. */
  predicate SuppliesKey(rec: Record, k: string) {
    RecordEntry(rec).Some? && RecordEntry(rec).value.0 == k
  }

  /** Some record of `rs` has account `k` and data `v`. */
  predicate FromSomeRecord(rs: seq<Record>, k: string, v: Bytes) {
    exists i :: 0 <= i < |rs| && RecordEntry(rs[i]) == Some((k, v))
  }

  /**
    The `reduce(into:)` of searchAllValues: records are visited in order, a
    malformed one is skipped, a well-formed one sets its account to its data.
  */
  function FoldRecords(rs: seq<Record>): (m: map<string, Bytes>)
    ensures forall k :: k in m ==> FromSomeRecord(rs, k, m[k])
    decreases |rs|
  {
    if rs == [] then map[]
    else
      var acc := FoldRecords(rs[..|rs| - 1]);
      match RecordEntry(rs[|rs| - 1])
      case None => acc
      case Some(e) => acc[e.0 := e.1]
  }

  /** The keys of the fold are exactly the accounts of the well-formed records. */
  lemma {:induction false} FoldRecordsKeys(rs: seq<Record>, k: string)
    ensures k in FoldRecords(rs) <==> exists i :: 0 <= i < |rs| && SuppliesKey(rs[i], k)
    decreases |rs|
  {
    if rs != [] {
      var n := |rs| - 1;
      var init := rs[..n];
      FoldRecordsKeys(init, k);
      if k in FoldRecords(rs) && !SuppliesKey(rs[n], k) {
        assert k in FoldRecords(init);
        var i :| 0 <= i < n && SuppliesKey(init[i], k);
        assert rs[i] == init[i];
      }
      if i :| 0 <= i < |rs| && SuppliesKey(rs[i], k) {
        if i < n {
          assert init[i] == rs[i];
          assert k in FoldRecords(init);
        }
      }
    }
  }

  /**
    The value under a key is the data of the last well-formed record with that
    account: a later record overwrites an earlier one.
  */
  lemma {:induction false} FoldRecordsLastWins(rs: seq<Record>, i: int, k: string)
    requires 0 <= i < |rs| && SuppliesKey(rs[i], k)
    requires forall j :: i < j < |rs| ==> !SuppliesKey(rs[j], k)
    ensures k in FoldRecords(rs) && FoldRecords(rs)[k] == RecordEntry(rs[i]).value.1
    decreases |rs|
  {
    var n := |rs| - 1;
    if i < n {
      var init := rs[..n];
      assert init[i] == rs[i];
      FoldRecordsLastWins(init, i, k);
    }
  }

  /** Only the well-formed records, in their order. */
  function WellFormedOnly(rs: seq<Record>): (r: seq<Record>)
    ensures forall j :: 0 <= j < |r| ==> RecordEntry(r[j]).Some?
    ensures |r| <= |rs|
    decreases |rs|
  {
    if rs == [] then []
    else
      var last := rs[|rs| - 1];
      WellFormedOnly(rs[..|rs| - 1]) + (if RecordEntry(last).Some? then [last] else [])
  }

  /**
    The filter keeps order: filtering a concatenation is concatenating the
    filtered parts. With the single-record case (a record is kept exactly when
    it is well-formed) this pins WellFormedOnly as the order-preserving filter.
  */
  lemma {:induction false} WellFormedOnlyAppend(a: seq<Record>, b: seq<Record>)
    ensures WellFormedOnly(a + b) == WellFormedOnly(a) + WellFormedOnly(b)
    decreases |b|
  {
    if b == [] {
      assert a + b == a;
    } else {
      var n := |b| - 1;
      var tail := if RecordEntry(b[n]).Some? then [b[n]] else [];
      WellFormedOnlyAppend(a, b[..n]);
      assert (a + b)[..|a + b| - 1] == a + b[..n];
      assert (a + b)[|a + b| - 1] == b[n];
      assert WellFormedOnly(a + b) == WellFormedOnly(a + b[..n]) + tail;
      assert WellFormedOnly(b) == WellFormedOnly(b[..n]) + tail;
      assert (WellFormedOnly(a) + WellFormedOnly(b[..n])) + tail
          == WellFormedOnly(a) + (WellFormedOnly(b[..n]) + tail);
    }
  }

  /** The filter keeps exactly the well-formed records. */
  lemma {:induction false} WellFormedOnlyMembers(rs: seq<Record>, rec: Record)
    ensures rec in WellFormedOnly(rs) <==> rec in rs && RecordEntry(rec).Some?
    decreases |rs|
  {
    if rs != [] {
      var n := |rs| - 1;
      WellFormedOnlyMembers(rs[..n], rec);
      assert rs == rs[..n] + [rs[n]];
    }
  }

  /** Dropping the malformed records beforehand changes nothing: the fold skips them. */
  lemma {:induction false} FoldRecordsSkipsMalformed(rs: seq<Record>)
    ensures FoldRecords(WellFormedOnly(rs)) == FoldRecords(rs)
    decreases |rs|
  {
    if rs != [] {
      var n := |rs| - 1;
      var last := rs[n];
      var w := WellFormedOnly(rs[..n]);
      FoldRecordsSkipsMalformed(rs[..n]);
      if RecordEntry(last).Some? {
        var ext := w + [last];
        assert ext[..|ext| - 1] == w;
        assert ext[|ext| - 1] == last;
      } else {
        assert w + [] == w;
      }
    }
  }

  /** searchAllValues' success payload: nil unless the store answered with records. */
  function AllValuesPayload(item: Option<CFObject>): (r: Option<map<string, Bytes>>)
    ensures r.Some? <==> AsRecords(item).Some?
    ensures r.Some? ==> r.value == FoldRecords(AsRecords(item).value)
  {
    match AsRecords(item)
    case None => None
    case Some(rs) => Some(FoldRecords(rs))
  }

  /** One well-formed record with account k and data b folds to exactly {k: b}. */
  lemma FoldSingleRecord(k: string, b: Bytes)
    ensures FoldRecords([map[Account := Str(k), ValueData := Data(b)]]) == map[k := b]
  {
  }
}
