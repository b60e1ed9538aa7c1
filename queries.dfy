/**
  How the facade builds the attribute dictionaries it hands to the store:
  the base dictionary every operation starts from, the removal of nil-valued
  entries, and the exact shape of each operation's query.
*/
module Queries {
  import opened Wrappers
  import opened Keychain
  import opened AccessibilityPolicy

  /** A query before nil entries are dropped: `[CFString: Any?]` in the source. */
  type RawQuery = map<Attr, Option<Value>>

  /** `q` holds every entry of `base` with the same value. */
  predicate Extends(q: Query, base: Query) {
    forall a :: a in base ==> a in q && q[a] == base[a]
  }

  /**
    `makeDefaultQueryParams`: the literal with class, accessibility, service
    name and the (possibly nil) access group.
  */
  function DefaultQueryParams(name: string, accessGroup: Option<string>, accessibility: Accessibility): (m: RawQuery)
    ensures m.Keys == {Class, Accessible, Service, AccessGroup}
  {
    map[
      Class := Some(Constant(ClassGenericPassword)),
      Accessible := Some(Constant(QueryValue(accessibility))),
      Service := Some(Str(name)),
      AccessGroup := match accessGroup case None => None case Some(g) => Some(Str(g))
    ]
  }

  /** `getDictionary`: keeps exactly the non-nil entries, unchanged. */
  function GetDictionary(m: RawQuery): (r: Query)
    ensures forall a :: a in r <==> a in m && m[a].Some?
    ensures forall a :: a in r ==> m[a] == Some(r[a])
  {
    map a | a in m && m[a].Some? :: m[a].value
  }

  /** Setting a non-nil entry before the filter is setting it after the filter. */
  lemma GetDictionaryInsert(m: RawQuery, a: Attr, v: Value)
    ensures GetDictionary(m[a := Some(v)]) == GetDictionary(m)[a := v]
  {
  }

  /** Filtering a dictionary that has no nil entries gives it back unchanged. */
  lemma GetDictionaryOfPresent(q: Query)
    ensures GetDictionary(map a | a in q :: Some(q[a])) == q
  {
  }

  /**
    The base every outgoing query carries: class generic password, the
    accessibility constant, the service name, and the access group exactly
    when one is set.
  */
  function BaseQuery(name: string, accessGroup: Option<string>, accessibility: Accessibility): (q: Query)
    ensures q.Keys == {Class, Accessible, Service} + (if accessGroup.Some? then {AccessGroup} else {})
    ensures q[Class] == Constant(ClassGenericPassword)
    ensures q[Accessible] == Constant(QueryValue(accessibility))
    ensures q[Service] == Str(name)
    ensures accessGroup.Some? ==> q[AccessGroup] == Str(accessGroup.value)
  {
    var core := map[
      Class := Constant(ClassGenericPassword),
      Accessible := Constant(QueryValue(accessibility)),
      Service := Str(name)
    ];
    match accessGroup
    case None => core
    case Some(g) => core[AccessGroup := Str(g)]
  }

  /** The nil access group of the default literal never reaches the store. */
  lemma DefaultQueryParamsFiltered(name: string, accessGroup: Option<string>, accessibility: Accessibility)
    ensures GetDictionary(DefaultQueryParams(name, accessGroup, accessibility))
         == BaseQuery(name, accessGroup, accessibility)
  {
  }

  /** addValue's query: base + account + data. */
  function AddQuery(name: string, accessGroup: Option<string>, accessibility: Accessibility, key: string, value: Bytes): (q: Query)
    ensures Extends(q, BaseQuery(name, accessGroup, accessibility))
    ensures q.Keys == BaseQuery(name, accessGroup, accessibility).Keys + {Account, ValueData}
    ensures q[Account] == Str(key) && q[ValueData] == Data(value)
  {
    BaseQuery(name, accessGroup, accessibility)[Account := Str(key)][ValueData := Data(value)]
  }

  /** updateValue's and removeValue's query: base + account, and no data. */
  function ItemQuery(name: string, accessGroup: Option<string>, accessibility: Accessibility, key: string): (q: Query)
    ensures Extends(q, BaseQuery(name, accessGroup, accessibility))
    ensures q.Keys == BaseQuery(name, accessGroup, accessibility).Keys + {Account}
    ensures ValueData !in q && q[Account] == Str(key)
  {
    BaseQuery(name, accessGroup, accessibility)[Account := Str(key)]
  }

  /** updateValue's attributes to update: the new data and nothing else. */
  function UpdateAttributes(value: Bytes): (q: Query)
    ensures q.Keys == {ValueData} && q[ValueData] == Data(value)
  {
    map[ValueData := Data(value)]
  }

  /** searchValue's query: base + account + match limit one + return data. */
  function SearchQuery(name: string, accessGroup: Option<string>, accessibility: Accessibility, key: string): (q: Query)
    ensures Extends(q, BaseQuery(name, accessGroup, accessibility))
    ensures q.Keys == BaseQuery(name, accessGroup, accessibility).Keys + {Account, MatchLimit, ReturnData}
    ensures q[Account] == Str(key) && q[MatchLimit] == Constant(MatchLimitOne) && q[ReturnData] == Flag(true)
  {
    BaseQuery(name, accessGroup, accessibility)[Account := Str(key)]
      [MatchLimit := Constant(MatchLimitOne)][ReturnData := Flag(true)]
  }

  /** searchAllValues's query: base + match limit all + return attributes + return data, no account. */
  function SearchAllQuery(name: string, accessGroup: Option<string>, accessibility: Accessibility): (q: Query)
    ensures Extends(q, BaseQuery(name, accessGroup, accessibility))
    ensures q.Keys == BaseQuery(name, accessGroup, accessibility).Keys + {MatchLimit, ReturnAttributes, ReturnData}
    ensures Account !in q
    ensures q[MatchLimit] == Constant(MatchLimitAll) && q[ReturnAttributes] == Flag(true) && q[ReturnData] == Flag(true)
  {
    BaseQuery(name, accessGroup, accessibility)[MatchLimit := Constant(MatchLimitAll)]
      [ReturnAttributes := Flag(true)][ReturnData := Flag(true)]
  }

  /**
    The add query for a storage named "stubServiceName" with group
    "stubAccessGroup", storing key "stubKey" as device-only after first
    unlock, written out entry by entry.
  */
  lemma AddQueryWithGroupExample(value: Bytes)
    ensures AddQuery("stubServiceName", Some("stubAccessGroup"), AfterFirstUnlock(false), "stubKey", value)
         == map[
              Class := Constant(ClassGenericPassword),
              Accessible := Constant(AccessibleAfterFirstUnlockThisDeviceOnly),
              Service := Str("stubServiceName"),
              AccessGroup := Str("stubAccessGroup"),
              Account := Str("stubKey"),
              ValueData := Data(value)
            ]
  {
  }

  /** Without a group the access-group key is absent from every query, not sent empty. */
  lemma NoGroupNoAccessGroupKey(name: string, accessibility: Accessibility, key: string, value: Bytes)
    ensures AccessGroup !in AddQuery(name, None, accessibility, key, value)
    ensures AccessGroup !in ItemQuery(name, None, accessibility, key)
    ensures AccessGroup !in SearchQuery(name, None, accessibility, key)
    ensures AccessGroup !in SearchAllQuery(name, None, accessibility)
  {
  }
}
