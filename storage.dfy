/**
  The storage facade: a service name, an optional access group and a data
  provider. Each operation builds its query from the default parameters,
  sets its own entries, drops nil entries, makes one call to the provider
  (saveValue at most two) and maps the returned code to an outcome.
*/
module Storage {
  import opened Wrappers
  import opened Keychain
  import opened AccessibilityPolicy
  import opened RequestResult
  import opened Queries
  import opened Responses
  import opened DataProvider

  class SecuredStorage {
    const name: string
    const accessGroup: Option<string>
    const dataProvider: ScriptedDataProvider

    constructor (name: string, accessGroup: Option<string>, dataProvider: ScriptedDataProvider)
      ensures this.name == name && this.accessGroup == accessGroup && this.dataProvider == dataProvider
    {
      this.name := name;
      this.accessGroup := accessGroup;
      this.dataProvider := dataProvider;
    }

    /** Sends base + account + data to addItem, once, and nothing else. */
    method AddValue(key: string, value: Bytes, accessibility: Accessibility) returns (r: AddingResult)
      modifies dataProvider`calls
      ensures dataProvider.calls
           == old(dataProvider.calls) + [AddItemCall(AddQuery(name, accessGroup, accessibility, key, value))]
      ensures r == AddingOutcome(dataProvider.addItemResult)
    {
      var requestQuery := DefaultQueryParams(name, accessGroup, accessibility);
      requestQuery := requestQuery[Account := Some(Str(key))];
      requestQuery := requestQuery[ValueData := Some(Data(value))];
      DefaultQueryParamsFiltered(name, accessGroup, accessibility);
      GetDictionaryInsert(DefaultQueryParams(name, accessGroup, accessibility), Account, Str(key));
      GetDictionaryInsert(DefaultQueryParams(name, accessGroup, accessibility)[Account := Some(Str(key))], ValueData, Data(value));

      var requestStatus := dataProvider.AddItem(GetDictionary(requestQuery));
      r := AddingOutcome(requestStatus);
    }

    /** Sends base + account as the query and {data: value} as the attributes to updateItem, once. */
    method UpdateValue(key: string, value: Bytes, accessibility: Accessibility) returns (r: UpdateResult)
      modifies dataProvider`calls
      ensures dataProvider.calls
           == old(dataProvider.calls)
              + [UpdateItemCall(ItemQuery(name, accessGroup, accessibility, key), UpdateAttributes(value))]
      ensures r == UpdateOutcome(dataProvider.updateItemResult)
    {
      var requestQuery := DefaultQueryParams(name, accessGroup, accessibility);
      requestQuery := requestQuery[Account := Some(Str(key))];
      DefaultQueryParamsFiltered(name, accessGroup, accessibility);
      GetDictionaryInsert(DefaultQueryParams(name, accessGroup, accessibility), Account, Str(key));

      var attributesToUpdate: RawQuery := map[ValueData := Some(Data(value))];
      assert GetDictionary(attributesToUpdate) == UpdateAttributes(value);

      var status := dataProvider.UpdateItem(GetDictionary(requestQuery), GetDictionary(attributesToUpdate));
      r := UpdateOutcome(status);
    }

    /**
      Upsert: add first; on a duplicate, update. Update is called exactly when
      add reports a duplicate, and then its outcome is the result.
    */
    method SaveValue(key: string, value: Bytes, accessibility: Accessibility) returns (r: UpdateResult)
      modifies dataProvider`calls
      ensures var added := AddItemCall(AddQuery(name, accessGroup, accessibility, key, value));
              var updated := UpdateItemCall(ItemQuery(name, accessGroup, accessibility, key), UpdateAttributes(value));
              dataProvider.calls
              == old(dataProvider.calls) + (if dataProvider.addItemResult == ErrSecDuplicateItem
                                            then [added, updated] else [added])
      ensures CountAdd(dataProvider.calls) == CountAdd(old(dataProvider.calls)) + 1
      ensures CountUpdate(dataProvider.calls)
           == CountUpdate(old(dataProvider.calls)) + (if dataProvider.addItemResult == ErrSecDuplicateItem then 1 else 0)
      ensures CountOthers(dataProvider.calls) == CountOthers(old(dataProvider.calls))
      ensures r == match AddingOutcome(dataProvider.addItemResult)
                   case Success => UpdateResult.Success
                   case TryToDuplicate => UpdateOutcome(dataProvider.updateItemResult)
                   case Failure(s) => UpdateResult.Failure(s)
    {
      ghost var before := dataProvider.calls;
      var addResult := AddValue(key, value, accessibility);
      match addResult {
        case Success =>
          r := UpdateResult.Success;
        case TryToDuplicate =>
          r := UpdateValue(key, value, accessibility);
        case Failure(status) =>
          r := UpdateResult.Failure(status);
      }
      CountsAppend(before, dataProvider.calls[|before|..]);
      assert before + dataProvider.calls[|before|..] == dataProvider.calls;
    }

    /** Queries base + account + match limit one + return data through copyItemMatching, once. */
    method SearchValue(key: string, accessibility: Accessibility) returns (r: SearchResult<Option<Bytes>>)
      modifies dataProvider`calls
      ensures dataProvider.calls
           == old(dataProvider.calls) + [CopyItemMatchingCall(SearchQuery(name, accessGroup, accessibility, key))]
      ensures r == SearchOutcome(dataProvider.copyItemMatchingResult, AsData(dataProvider.copyItemMatchingOut))
    {
      var requestQuery := DefaultQueryParams(name, accessGroup, accessibility);
      requestQuery := requestQuery[Account := Some(Str(key))];
      requestQuery := requestQuery[MatchLimit := Some(Constant(MatchLimitOne))];
      requestQuery := requestQuery[ReturnData := Some(Flag(true))];
      DefaultQueryParamsFiltered(name, accessGroup, accessibility);
      var q0 := DefaultQueryParams(name, accessGroup, accessibility);
      GetDictionaryInsert(q0, Account, Str(key));
      GetDictionaryInsert(q0[Account := Some(Str(key))], MatchLimit, Constant(MatchLimitOne));
      GetDictionaryInsert(q0[Account := Some(Str(key))][MatchLimit := Some(Constant(MatchLimitOne))],
                          ReturnData, Flag(true));

      var requestStatus, item := dataProvider.CopyItemMatching(GetDictionary(requestQuery));
      r := SearchOutcome(requestStatus, AsData(item));
    }

    /**
      Queries base + match limit all + return attributes + return data through
      copyItemMatching, once, and folds the records into a key-to-data map.
    */
    method SearchAllValues(accessibility: Accessibility) returns (r: SearchResult<Option<map<string, Bytes>>>)
      modifies dataProvider`calls
      ensures dataProvider.calls
           == old(dataProvider.calls) + [CopyItemMatchingCall(SearchAllQuery(name, accessGroup, accessibility))]
      ensures r == SearchOutcome(dataProvider.copyItemMatchingResult, AllValuesPayload(dataProvider.copyItemMatchingOut))
    {
      var requestQuery := DefaultQueryParams(name, accessGroup, accessibility);
      requestQuery := requestQuery[MatchLimit := Some(Constant(MatchLimitAll))];
      requestQuery := requestQuery[ReturnAttributes := Some(Flag(true))];
      requestQuery := requestQuery[ReturnData := Some(Flag(true))];
      DefaultQueryParamsFiltered(name, accessGroup, accessibility);
      var q0 := DefaultQueryParams(name, accessGroup, accessibility);
      GetDictionaryInsert(q0, MatchLimit, Constant(MatchLimitAll));
      GetDictionaryInsert(q0[MatchLimit := Some(Constant(MatchLimitAll))], ReturnAttributes, Flag(true));
      GetDictionaryInsert(q0[MatchLimit := Some(Constant(MatchLimitAll))][ReturnAttributes := Some(Flag(true))],
                          ReturnData, Flag(true));

      var requestStatus, item := dataProvider.CopyItemMatching(GetDictionary(requestQuery));
      r := SearchOutcome(requestStatus, AllValuesPayload(item));
    }

    /** Sends base + account to deleteItem, once; a missing item is not an error. */
    method RemoveValue(key: string, accessibility: Accessibility) returns (r: UpdateResult)
      modifies dataProvider`calls
      ensures dataProvider.calls
           == old(dataProvider.calls) + [DeleteItemCall(ItemQuery(name, accessGroup, accessibility, key))]
      ensures r == RemoveOutcome(dataProvider.deleteItemResult)
    {
      var requestQuery := DefaultQueryParams(name, accessGroup, accessibility);
      requestQuery := requestQuery[Account := Some(Str(key))];
      DefaultQueryParamsFiltered(name, accessGroup, accessibility);
      GetDictionaryInsert(DefaultQueryParams(name, accessGroup, accessibility), Account, Str(key));

      var status := dataProvider.DeleteItem(GetDictionary(requestQuery));
      r := RemoveOutcome(status);
    }
  }
}
