/** `requireKeys`, the key-presence check, and `symbols`, which turns a list of names into an object
    of fresh symbols. */
module Utility {
  import opened Wrappers

  /** The error `requireKeys` throws: its message, with the missing key attached. */
  datatype KeyError = KeyError(key: string, message: string)

  function MissingKey(k: string): (e: KeyError)
    ensures e.key == k && e.message == "Missing key " + k
  {
    KeyError(k, "Missing key " + k)
  }

  /** `keys[i]` is the first key of the list that is not an own key of the object. */
  predicate FirstMissingAt<V>(keys: seq<string>, obj: map<string, V>, i: nat) {
    i < |keys| && keys[i] !in obj && forall j :: 0 <= j < i ==> keys[j] in obj
  }

  /** `requireKeys(arr, obj)`: every key of the list is checked in order against the object's own
      keys (its values are never looked at, so a key holding `undefined` counts as present); the
      first absent one is thrown. The object is a value and is left as it was. */
  method RequireKeys<V>(keys: seq<string>, obj: map<string, V>) returns (thrown: Option<KeyError>)
    ensures thrown.None? <==> forall j :: 0 <= j < |keys| ==> keys[j] in obj
    ensures thrown.Some? ==> exists i: nat :: FirstMissingAt(keys, obj, i) && thrown.value == MissingKey(keys[i])
  {
    var i := 0;
    while i < |keys|
      invariant 0 <= i <= |keys|
      invariant forall j :: 0 <= j < i ==> keys[j] in obj
    {
      if keys[i] !in obj {
        assert FirstMissingAt(keys, obj, i);
        return Some(MissingKey(keys[i]));
      }
      i := i + 1;
    }
    return None;
  }

  /** A symbol: its description, and the number of the `Symbol()` call that made it, which makes
      every symbol distinct from every other. */
  datatype Token = Token(description: string, serial: nat)

  /** Assigning a symbol to the `__proto__` property of a plain object sets its prototype only when
      the value is an object; a symbol is ignored, so no own key appears. */
  const ProtoKey := "__proto__"

  /** The position of the last occurrence of `k` in `s`, or -1. */
  function LastPos(s: seq<string>, k: string): (r: int)
    ensures -1 <= r < |s|
    ensures r >= 0 ==> s[r] == k && forall j :: r < j < |s| ==> s[j] != k
    ensures r == -1 ==> k !in s
  {
    if |s| == 0 then -1
    else if s[|s| - 1] == k then |s| - 1
    else LastPos(s[..|s| - 1], k)
  }

  /** What `symbols(arr)` builds: one key per distinct name other than `__proto__`, holding the
      symbol made for the name's last occurrence (later assignments overwrite earlier ones). */
  ghost predicate SymbolMap(arr: seq<string>, m: map<string, Token>) {
    && (forall k :: k in m <==> k in arr && k != ProtoKey)
    && (forall k :: k in m ==> m[k] == Token(k, LastPos(arr, k) as nat))
  }

  /** `symbols(arr)`: the `reduce` that assigns `Symbol(name)` to each name in turn. */
  method Symbols(arr: seq<string>) returns (m: map<string, Token>)
    ensures SymbolMap(arr, m)
  {
    m := map[];
    var i := 0;
    while i < |arr|
      invariant 0 <= i <= |arr|
      invariant SymbolMap(arr[..i], m)
    {
      assert arr[..i + 1][..i] == arr[..i];
      if arr[i] != ProtoKey {
        m := m[arr[i] := Token(arr[i], i)];
      }
      i := i + 1;
    }
    assert arr[..i] == arr;
  }
}
