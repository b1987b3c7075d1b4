/** The CommonJS entry point's own copies of `requireKeys` and `symbols`, which behave as the
    TypeScript ones do. */
module Legacy {
  import opened Wrappers
  import opened Utility

  /** `requireKeys(arr, obj)`: `forEach` over the list, throwing at the first key that is not an
      own key of the object. */
  function RequireKeys<V>(keys: seq<string>, obj: map<string, V>): (thrown: Option<KeyError>)
    ensures thrown.None? <==> forall j :: 0 <= j < |keys| ==> keys[j] in obj
    ensures thrown.Some? ==> exists i: nat :: FirstMissingAt(keys, obj, i) && thrown.value == MissingKey(keys[i])
  {
    if |keys| == 0 then None
    else if keys[0] !in obj then
      assert FirstMissingAt(keys, obj, 0);
      Some(MissingKey(keys[0]))
    else
      var rest := RequireKeys(keys[1..], obj);
      assert rest.Some? ==> exists i: nat :: FirstMissingAt(keys, obj, i) && rest.value == MissingKey(keys[i]) by {
        if rest.Some? {
          var i: nat :| FirstMissingAt(keys[1..], obj, i) && rest.value == MissingKey(keys[1..][i]);
          assert FirstMissingAt(keys, obj, i + 1);
        }
      }
      rest
  }

  /** The empty list passes whatever the object holds. */
  lemma EmptyListPasses<V>(obj: map<string, V>)
    ensures RequireKeys([], obj).None?
  {
  }

  /** Only key membership counts: a key whose value is `undefined` passes like any other. */
  lemma UndefinedValueIsPresent(keys: seq<string>, obj: map<string, Option<int>>, k: string)
    requires k in obj && obj[k].None?
    ensures RequireKeys(keys, obj) == RequireKeys(keys, obj[k := Some(0)])
  {
    var obj' := obj[k := Some(0)];
    assert obj'.Keys == obj.Keys;
    OutcomeDependsOnKeysOnly(keys, obj, obj');
  }

  /** The thrown error depends only on the object's key set. */
  lemma {:induction false} OutcomeDependsOnKeysOnly<V>(keys: seq<string>, obj: map<string, V>, obj': map<string, V>)
    requires obj.Keys == obj'.Keys
    ensures RequireKeys(keys, obj) == RequireKeys(keys, obj')
    decreases |keys|
  {
    if |keys| > 0 {
      OutcomeDependsOnKeysOnly(keys[1..], obj, obj');
    }
  }

  /** The `reduce` step: assign a fresh symbol, numbered by its call, to the name. */
  function Assign(o: map<string, Token>, name: string, serial: nat): map<string, Token> {
    if name == ProtoKey then o else o[name := Token(name, serial)]
  }

  /** `symbols(arr)`, folding from the left. */
  function Symbols(arr: seq<string>): (m: map<string, Token>)
    ensures SymbolMap(arr, m)
  {
    if |arr| == 0 then map[]
    else
      var init := arr[..|arr| - 1];
      var o := Symbols(init);
      assert forall k :: k in arr <==> k in init || k == arr[|arr| - 1] by {
        assert arr == init + [arr[|arr| - 1]];
      }
      Assign(o, arr[|arr| - 1], |arr| - 1)
  }

  /** Appending a name overwrites whatever the object held under it with the new symbol, so a name
      listed twice keeps the symbol made for its later occurrence. */
  lemma AppendOverwrites(arr: seq<string>, name: string)
    requires name != ProtoKey
    ensures Symbols(arr + [name]) == Symbols(arr)[name := Token(name, |arr|)]
  {
    assert (arr + [name])[..|arr|] == arr;
  }

  /** Naming `__proto__` adds no key and changes no entry. */
  lemma ProtoKeyIgnored(arr: seq<string>)
    ensures Symbols(arr + [ProtoKey]) == Symbols(arr)
  {
    assert (arr + [ProtoKey])[..|arr|] == arr;
  }
}
