/**
  The four-operation seam between the facade and the secure store. The real
  binding forwards each call to the platform; here the seam is a scripted
  provider: each operation answers with the code (and, for a search, the
  object) it was given beforehand, and every call is appended to a log, so
  that which operation was called, with what, and how often can be stated.
*/
module DataProvider {
  import opened Wrappers
  import opened Keychain

  /** One call received by the provider, with the dictionaries it was given. */
  datatype Call =
    | AddItemCall(query: Query)
    | CopyItemMatchingCall(query: Query)
    | UpdateItemCall(query: Query, attributesToUpdate: Query)
    | DeleteItemCall(query: Query)

  /** How many of the logged calls reached addItem / copyItemMatching / updateItem / deleteItem. */
  function CountAdd(calls: seq<Call>): (n: nat)
  {
    if calls == [] then 0 else CountAdd(calls[..|calls| - 1]) + (if calls[|calls| - 1].AddItemCall? then 1 else 0)
  }

  function CountUpdate(calls: seq<Call>): (n: nat)
  {
    if calls == [] then 0 else CountUpdate(calls[..|calls| - 1]) + (if calls[|calls| - 1].UpdateItemCall? then 1 else 0)
  }

  /** Calls to anything but addItem and updateItem. */
  function CountOthers(calls: seq<Call>): (n: nat)
  {
    if calls == [] then 0
    else CountOthers(calls[..|calls| - 1])
         + (if calls[|calls| - 1].CopyItemMatchingCall? || calls[|calls| - 1].DeleteItemCall? then 1 else 0)
  }

  /** Every logged call is counted exactly once, by one of the three counters. */
  lemma {:induction false} CountsPartition(calls: seq<Call>)
    ensures CountAdd(calls) + CountUpdate(calls) + CountOthers(calls) == |calls|
    decreases |calls|
  {
    if calls != [] {
      CountsPartition(calls[..|calls| - 1]);
    }
  }

  /** Appending calls adds their counts. */
  lemma {:induction false} CountsAppend(calls: seq<Call>, more: seq<Call>)
    ensures CountAdd(calls + more) == CountAdd(calls) + CountAdd(more)
    ensures CountUpdate(calls + more) == CountUpdate(calls) + CountUpdate(more)
    ensures CountOthers(calls + more) == CountOthers(calls) + CountOthers(more)
    decreases |more|
  {
    if more != [] {
      var n := |more| - 1;
      CountsAppend(calls, more[..n]);
      assert (calls + more)[..|calls + more| - 1] == calls + more[..n];
      assert (calls + more)[|calls + more| - 1] == more[n];
    } else {
      assert calls + more == calls;
    }
  }

  class ScriptedDataProvider {
    var addItemResult: OSStatus
    var copyItemMatchingResult: OSStatus
    var copyItemMatchingOut: Option<CFObject>
    var updateItemResult: OSStatus
    var deleteItemResult: OSStatus
    /** Every call received so far, oldest first. */
    var calls: seq<Call>

    constructor (addItemResult: OSStatus, copyItemMatchingResult: OSStatus, copyItemMatchingOut: Option<CFObject>,
                 updateItemResult: OSStatus, deleteItemResult: OSStatus)
      ensures this.addItemResult == addItemResult
      ensures this.copyItemMatchingResult == copyItemMatchingResult
      ensures this.copyItemMatchingOut == copyItemMatchingOut
      ensures this.updateItemResult == updateItemResult
      ensures this.deleteItemResult == deleteItemResult
      ensures calls == []
    {
      this.addItemResult := addItemResult;
      this.copyItemMatchingResult := copyItemMatchingResult;
      this.copyItemMatchingOut := copyItemMatchingOut;
      this.updateItemResult := updateItemResult;
      this.deleteItemResult := deleteItemResult;
      calls := [];
    }

    method AddItem(query: Query) returns (status: OSStatus)
      modifies this`calls
      ensures calls == old(calls) + [AddItemCall(query)]
      ensures status == addItemResult
    {
      calls := calls + [AddItemCall(query)];
      status := addItemResult;
    }

    method CopyItemMatching(query: Query) returns (status: OSStatus, result: Option<CFObject>)
      modifies this`calls
      ensures calls == old(calls) + [CopyItemMatchingCall(query)]
      ensures status == copyItemMatchingResult && result == copyItemMatchingOut
    {
      calls := calls + [CopyItemMatchingCall(query)];
      status, result := copyItemMatchingResult, copyItemMatchingOut;
    }

    method UpdateItem(query: Query, attributesToUpdate: Query) returns (status: OSStatus)
      modifies this`calls
      ensures calls == old(calls) + [UpdateItemCall(query, attributesToUpdate)]
      ensures status == updateItemResult
    {
      calls := calls + [UpdateItemCall(query, attributesToUpdate)];
      status := updateItemResult;
    }

    method DeleteItem(query: Query) returns (status: OSStatus)
      modifies this`calls
      ensures calls == old(calls) + [DeleteItemCall(query)]
      ensures status == deleteItemResult
    {
      calls := calls + [DeleteItemCall(query)];
      status := deleteItemResult;
    }
  }
}
