/** Environment-variable overrides of the `.origami` configuration (`config.env`): aliased plugin
    keys are rewritten to their path, `ORIGAMI_A_B` variables become writes at the dotted path
    `a.b`, and writes addressed to `plugins.<alias>` are redirected into the aliased entry. */
module ConfigEnv {
  import opened Wrappers
  import opened Text
  import opened Json

  // ------------------------------------------------------------------ aliased plugin keys

  /** A plugin key of the form `path:alias` split into its parts. */
  datatype AliasedKey = AliasedKey(path: string, alias: string)

  /** The path group `\.{0,2}?\/.*`: `/`, `./` or `../` followed by characters other than line
      terminators. */
  predicate IsLocalPath(p: string) {
    || (StartsWith(p, "/") && NoLineTerminator(p[1..]))
    || (StartsWith(p, "./") && NoLineTerminator(p[2..]))
    || (StartsWith(p, "../") && NoLineTerminator(p[3..]))
  }

  /** The alias group `[\w-]+`. */
  predicate IsAlias(a: string) {
    |a| >= 1 && forall i :: 0 <= i < |a| ==> IsAliasChar(a[i])
  }

  /** `key` is `p`, a colon and `a`. */
  predicate JoinsAt(key: string, p: string, a: string) {
    key == p + ":" + a
  }

  /** `/^(\.{0,2}?\/.*):([\w-]+)$/.exec(key)`. The alias cannot contain a colon, so the match splits
      the key at its last colon: the greedy `.*` keeps every earlier colon in the path. */
  function ParseAliasedKey(key: string): (r: Option<AliasedKey>)
    ensures r.Some? ==> JoinsAt(key, r.value.path, r.value.alias)
    ensures r.Some? ==> IsLocalPath(r.value.path) && IsAlias(r.value.alias)
    ensures ':' !in key ==> r.None?
  {
    match LastIndexOf(key, ':')
    case None => None
    case Some(i) =>
      assert key == key[..i] + ":" + key[i + 1..];
      if IsLocalPath(key[..i]) && IsAlias(key[i + 1..]) then Some(AliasedKey(key[..i], key[i + 1..]))
      else None
  }

  /** A key is an aliased plugin key exactly when it is a local path, a colon and an alias. */
  lemma AliasedKeyDecomposition(key: string, p: string, a: string)
    ensures ParseAliasedKey(key) == Some(AliasedKey(p, a)) <==>
      (key == p + ":" + a && IsLocalPath(p) && IsAlias(a))
  {
    if key == p + ":" + a && IsAlias(a) {
      assert ':' !in a by {
        forall i | 0 <= i < |a| ensures a[i] != ':' {
          assert IsAliasChar(a[i]);
        }
      }
      LastIndexOfJoin(p, ':', a);
      assert key[..|p|] == p;
      assert key[|p| + 1..] == a;
    }
    if ParseAliasedKey(key) == Some(AliasedKey(p, a)) {
      var i := LastIndexOf(key, ':').value;
      assert key == key[..i] + ":" + key[i + 1..];
    }
  }

  /** Every aliased key, and so every rewritten path, starts with `/` or `.`. */
  lemma AliasedKeyStart(key: string)
    ensures ParseAliasedKey(key).Some? ==>
      var p := ParseAliasedKey(key).value.path;
      |p| >= 1 && (p[0] == '/' || p[0] == '.') && key[0] == p[0]
  {
  }

  // ------------------------------------------------------------------ normalising the plugins map

  /** The plugins object being rewritten and the alias table built alongside it. */
  datatype Normalised = Normalised(plugins: Object, aliases: map<string, string>)

  /** `order` lists every key of `m` exactly once, as `Object.entries` does. */
  ghost predicate EnumeratesKeys(order: seq<string>, m: Object) {
    && (forall k :: k in m <==> k in order)
    && (forall i, j :: 0 <= i < j < |order| ==> order[i] != order[j])
  }

  /** One iteration over a plugin entry: an aliased key is replaced by its path carrying the same
      options, its lower-cased alias is recorded, and the original key is deleted. */
  function NormaliseEntry(st: Normalised, key: string, options: Json): Normalised {
    match ParseAliasedKey(key)
    case None => st
    case Some(ak) =>
      Normalised(st.plugins[ak.path := options] - {key}, st.aliases[Lower(ak.alias) := ak.path])
  }

  /** Some aliased key of the snapshot has path `p` and options `v`. */
  ghost predicate CarriesOptionsOf(snapshot: Object, p: string, v: Json) {
    exists j :: j in snapshot && ParseAliasedKey(j).Some? && ParseAliasedKey(j).value.path == p && snapshot[j] == v
  }

  /** Some aliased key of the snapshot has path `p` and an alias that lower-cases to `a`. */
  ghost predicate DeclaresAlias(snapshot: Object, a: string, p: string) {
    exists j :: j in snapshot && ParseAliasedKey(j).Some? && ParseAliasedKey(j).value.path == p
      && Lower(ParseAliasedKey(j).value.alias) == a
  }

  /** The iteration over a snapshot of the entries, in order. Every entry it leaves is one it
      started with, or a path carrying the options of an aliased key of the snapshot; every alias
      it records is one it started with, or declared by an aliased key of the snapshot. */
  function NormaliseFrom(st: Normalised, snapshot: Object, order: seq<string>): (r: Normalised)
    ensures forall k :: k in r.plugins ==>
      (k in st.plugins && r.plugins[k] == st.plugins[k]) || CarriesOptionsOf(snapshot, k, r.plugins[k])
    ensures forall a :: a in r.aliases ==>
      (a in st.aliases && r.aliases[a] == st.aliases[a]) || DeclaresAlias(snapshot, a, r.aliases[a])
    decreases |order|
  {
    if |order| == 0 then st
    else
      var st' := if order[0] in snapshot then NormaliseEntry(st, order[0], snapshot[order[0]]) else st;
      NormaliseFrom(st', snapshot, order[1..])
  }

  /** The alias rewriting of `config.env`, applied when the configuration has a plugins object.
      Every resulting entry is an original one, unchanged, or an aliased key's options moved to its
      path; every recorded alias maps to the path of an aliased key declaring it. */
  function NormalisePlugins(plugins: Object, order: seq<string>): (r: Normalised)
    requires EnumeratesKeys(order, plugins)
    ensures forall k :: k in r.plugins ==>
      (k in plugins && r.plugins[k] == plugins[k]) || CarriesOptionsOf(plugins, k, r.plugins[k])
    ensures forall a :: a in r.aliases ==> DeclaresAlias(plugins, a, r.aliases[a])
  {
    NormaliseFrom(Normalised(plugins, map[]), plugins, order)
  }

  /** Key `j` of the snapshot, if aliased, neither deletes nor writes `x`. */
  predicate LeavesKey(snapshot: Object, j: string, x: string) {
    j in snapshot && ParseAliasedKey(j).Some? ==> j != x && ParseAliasedKey(j).value.path != x
  }

  /** Key `j` of the snapshot, if aliased, does not record the alias `a`. */
  predicate LeavesAlias(snapshot: Object, j: string, a: string) {
    j in snapshot && ParseAliasedKey(j).Some? ==> Lower(ParseAliasedKey(j).value.alias) != a
  }

  lemma {:induction false} NormaliseFrameKey(st: Normalised, snapshot: Object, order: seq<string>, x: string)
    requires forall k :: 0 <= k < |order| ==> LeavesKey(snapshot, order[k], x)
    ensures var r := NormaliseFrom(st, snapshot, order);
      (x in r.plugins <==> x in st.plugins) && (x in st.plugins ==> r.plugins[x] == st.plugins[x])
    decreases |order|
  {
    if |order| > 0 {
      var st' := if order[0] in snapshot then NormaliseEntry(st, order[0], snapshot[order[0]]) else st;
      assert LeavesKey(snapshot, order[0], x);
      NormaliseFrameKey(st', snapshot, order[1..], x);
    }
  }

  lemma {:induction false} NormaliseFrameAlias(st: Normalised, snapshot: Object, order: seq<string>, a: string)
    requires forall k :: 0 <= k < |order| ==> LeavesAlias(snapshot, order[k], a)
    ensures var r := NormaliseFrom(st, snapshot, order);
      (a in r.aliases <==> a in st.aliases) && (a in st.aliases ==> r.aliases[a] == st.aliases[a])
    decreases |order|
  {
    if |order| > 0 {
      var st' := if order[0] in snapshot then NormaliseEntry(st, order[0], snapshot[order[0]]) else st;
      assert LeavesAlias(snapshot, order[0], a);
      NormaliseFrameAlias(st', snapshot, order[1..], a);
    }
  }

  /** A key that is not an aliased key and is not the path of any aliased key keeps its options. */
  lemma KeyNotAliasedIsUntouched(plugins: Object, order: seq<string>, x: string)
    requires EnumeratesKeys(order, plugins)
    requires x in plugins && ParseAliasedKey(x).None?
    requires forall j :: j in plugins && ParseAliasedKey(j).Some? ==> ParseAliasedKey(j).value.path != x
    ensures x in NormalisePlugins(plugins, order).plugins
    ensures NormalisePlugins(plugins, order).plugins[x] == plugins[x]
  {
    forall k | 0 <= k < |order| ensures LeavesKey(plugins, order[k], x) {
      assert order[k] in plugins ==> order[k] != x || ParseAliasedKey(order[k]).None?;
    }
    NormaliseFrameKey(Normalised(plugins, map[]), plugins, order, x);
  }

  /** A key that does not start with `/` or `.`, such as a module name, keeps its options. */
  lemma ModuleKeyIsUntouched(plugins: Object, order: seq<string>, x: string)
    requires EnumeratesKeys(order, plugins)
    requires x in plugins && (|x| == 0 || (x[0] != '/' && x[0] != '.'))
    ensures x in NormalisePlugins(plugins, order).plugins
    ensures NormalisePlugins(plugins, order).plugins[x] == plugins[x]
  {
    AliasedKeyStart(x);
    forall j | j in plugins && ParseAliasedKey(j).Some? ensures ParseAliasedKey(j).value.path != x {
      AliasedKeyStart(j);
    }
    KeyNotAliasedIsUntouched(plugins, order, x);
  }

  /** Keys `j` and `k` of the snapshot are aliased keys that do not interfere: `j` neither deletes
      nor writes `k` or `k`'s path, and records a different alias. */
  predicate Independent(snapshot: Object, j: string, k: string)
    requires ParseAliasedKey(k).Some?
  {
    var ak := ParseAliasedKey(k).value;
    LeavesKey(snapshot, j, k) && LeavesKey(snapshot, j, ak.path) && LeavesAlias(snapshot, j, Lower(ak.alias))
  }

  lemma {:induction false} NormaliseAliasedFrom(st: Normalised, snapshot: Object, order: seq<string>, k: string)
    requires k in snapshot && ParseAliasedKey(k).Some?
    requires k in order
    requires forall i, j :: 0 <= i < j < |order| ==> order[i] != order[j]
    requires forall i :: 0 <= i < |order| && order[i] != k ==> Independent(snapshot, order[i], k)
    ensures var r, ak := NormaliseFrom(st, snapshot, order), ParseAliasedKey(k).value;
      && k !in r.plugins
      && ak.path in r.plugins && r.plugins[ak.path] == snapshot[k]
      && Lower(ak.alias) in r.aliases && r.aliases[Lower(ak.alias)] == ak.path
    decreases |order|
  {
    if order[0] == k {
      NormaliseAliasedFirst(st, snapshot, order, k);
    } else {
      var st' := if order[0] in snapshot then NormaliseEntry(st, order[0], snapshot[order[0]]) else st;
      var rest := order[1..];
      assert k in rest by {
        var i :| 0 <= i < |order| && order[i] == k;
        assert rest[i - 1] == k;
      }
      forall i | 0 <= i < |rest| && rest[i] != k ensures Independent(snapshot, rest[i], k) {
        assert rest[i] == order[i + 1];
      }
      NormaliseAliasedFrom(st', snapshot, rest, k);
      assert NormaliseFrom(st, snapshot, order) == NormaliseFrom(st', snapshot, rest);
    }
  }

  /** The aliased key is the first of the order: its own iteration moves it, and the later ones
      leave the key, its path and its alias alone. */
  lemma NormaliseAliasedFirst(st: Normalised, snapshot: Object, order: seq<string>, k: string)
    requires k in snapshot && ParseAliasedKey(k).Some?
    requires |order| >= 1 && order[0] == k
    requires forall i, j :: 0 <= i < j < |order| ==> order[i] != order[j]
    requires forall i :: 0 <= i < |order| && order[i] != k ==> Independent(snapshot, order[i], k)
    ensures var r, ak := NormaliseFrom(st, snapshot, order), ParseAliasedKey(k).value;
      && k !in r.plugins
      && ak.path in r.plugins && r.plugins[ak.path] == snapshot[k]
      && Lower(ak.alias) in r.aliases && r.aliases[Lower(ak.alias)] == ak.path
  {
    var ak := ParseAliasedKey(k).value;
    var st' := NormaliseEntry(st, k, snapshot[k]);
    var rest := order[1..];
    forall i | 0 <= i < |rest|
      ensures LeavesKey(snapshot, rest[i], k) && LeavesKey(snapshot, rest[i], ak.path)
      ensures LeavesAlias(snapshot, rest[i], Lower(ak.alias))
    {
      assert rest[i] == order[i + 1] && order[i + 1] != order[0];
      assert Independent(snapshot, order[i + 1], k);
    }
    EntryMovesKey(st, k, snapshot[k]);
    NormaliseFrameKey(st', snapshot, rest, k);
    NormaliseFrameKey(st', snapshot, rest, ak.path);
    NormaliseFrameAlias(st', snapshot, rest, Lower(ak.alias));
    assert NormaliseFrom(st, snapshot, order) == NormaliseFrom(st', snapshot, rest);
  }

  /** The iteration over an aliased key moves its options to its path and records its alias. */
  lemma EntryMovesKey(st: Normalised, k: string, v: Json)
    requires ParseAliasedKey(k).Some?
    ensures var r, ak := NormaliseEntry(st, k, v), ParseAliasedKey(k).value;
      && k !in r.plugins
      && ak.path in r.plugins && r.plugins[ak.path] == v
      && Lower(ak.alias) in r.aliases && r.aliases[Lower(ak.alias)] == ak.path
  {
    ParsedKeyIsNotPath(k);
  }

  lemma ParsedKeyIsNotPath(k: string)
    requires ParseAliasedKey(k).Some?
    ensures k != ParseAliasedKey(k).value.path
  {
    var ak := ParseAliasedKey(k).value;
    AliasedKeyDecomposition(k, ak.path, ak.alias);
    assert |k| > |ak.path|;
  }

  /** An aliased key whose path, key and alias no other aliased key touches is replaced by its path
      carrying the same options, and its lower-cased alias maps to that path. */
  lemma AliasedKeyIsRewritten(plugins: Object, order: seq<string>, k: string)
    requires EnumeratesKeys(order, plugins)
    requires k in plugins && ParseAliasedKey(k).Some?
    requires forall j :: j in plugins && j != k ==> Independent(plugins, j, k)
    ensures var r, ak := NormalisePlugins(plugins, order), ParseAliasedKey(k).value;
      && k !in r.plugins
      && ak.path in r.plugins && r.plugins[ak.path] == plugins[k]
      && Lower(ak.alias) in r.aliases && r.aliases[Lower(ak.alias)] == ak.path
  {
    forall i | 0 <= i < |order| && order[i] != k ensures Independent(plugins, order[i], k) {
      assert order[i] in plugins;
    }
    NormaliseAliasedFrom(Normalised(plugins, map[]), plugins, order, k);
  }

  // ------------------------------------------------------------------ environment variable names

  const EnvPrefix: string := "origami_"

  /** `/^origami_.*$/.test(name.toLowerCase())`: the lower-cased name starts with `origami_` and
      the rest contains no line terminator. */
  predicate IsOverrideName(name: string) {
    var l := Lower(name);
    StartsWith(l, EnvPrefix) && NoLineTerminator(l[|EnvPrefix|..])
  }

  /** The override key of a variable name, computed as the source does: lower-case it, turn every
      `_` into `.`, split at `.`, drop the first part and join the rest with `.`. For an override
      variable this is the lower-cased name after `origami_`, with every `_` turned into `.`. */
  function OverrideKey(name: string): (key: string)
    ensures IsOverrideName(name) ==> key == ReplaceChar(Lower(name)[|EnvPrefix|..], '_', '.')
  {
    var l := Lower(name);
    if StartsWith(l, EnvPrefix) then
      DropPrefixSegment(l);
      Join(Split(ReplaceChar(l, '_', '.'), '.')[1..], '.')
    else Join(Split(ReplaceChar(l, '_', '.'), '.')[1..], '.')
  }

  /** Turning `_` into `.` in `origami_<rest>` and dropping the first `.`-separated part leaves
      `<rest>` with its `_` turned into `.`. */
  lemma {:induction false} DropPrefixSegment(l: string)
    requires StartsWith(l, EnvPrefix)
    ensures Join(Split(ReplaceChar(l, '_', '.'), '.')[1..], '.') == ReplaceChar(l[|EnvPrefix|..], '_', '.')
  {
    var t := ReplaceChar(l[8..], '_', '.');
    var s := ReplaceChar(l, '_', '.');
    assert l[..8] == "origami_";
    assert s == "origami" + ['.'] + t by {
      assert |s| == 8 + |t|;
      forall i | 0 <= i < |s| ensures s[i] == ("origami" + ['.'] + t)[i] {
        if i < 8 {
          assert l[i] == l[..8][i];
        } else {
          assert t[i - 8] == (if l[i] == '_' then '.' else l[i]);
        }
      }
    }
    SplitAfterPart("origami", t, '.');
    assert Split(s, '.')[1..] == Split(t, '.');
    JoinSplit(t, '.');
  }

  /** An override key never contains `_`. */
  lemma OverrideKeyHasNoUnderscore(name: string)
    requires IsOverrideName(name)
    ensures '_' !in OverrideKey(name)
  {
    var t := ReplaceChar(Lower(name)[|EnvPrefix|..], '_', '.');
    forall i | 0 <= i < |t| ensures t[i] != '_' {
    }
  }

  // ------------------------------------------------------------------ plugin redirects

  /** The longest run of `[\w-]` characters of `s` starting at `j`. */
  function AliasRun(s: string, j: nat): (r: string)
    requires j <= |s|
    ensures forall i :: 0 <= i < |r| ==> IsAliasChar(r[i])
    ensures j + |r| <= |s| && r == s[j..j + |r|]
    ensures j + |r| == |s| || !IsAliasChar(s[j + |r|])
    decreases |s| - j
  {
    if j < |s| && IsAliasChar(s[j]) then [s[j]] + AliasRun(s, j + 1) else ""
  }

  /** `plugins.` ends just before position `j` of the key, and an alias character starts there:
      the regular expression `/plugins\.([\w-]+)/` matches with its group starting at `j`. */
  predicate RefAt(key: string, j: int) {
    8 <= j < |key| && key[j - 8..j] == "plugins." && IsAliasChar(key[j])
  }

  /** The captured group of `/plugins\.([\w-]+)/.exec(key)`, searching from position `i` on: the
      first `plugins.` followed by at least one alias character, and the longest such run. */
  function AliasRefFrom(key: string, i: nat): Option<string>
    requires i <= |key|
    decreases |key| - i
  {
    if i + 9 > |key| then None
    else if key[i..i + 8] == "plugins." && IsAliasChar(key[i + 8]) then Some(AliasRun(key, i + 8))
    else AliasRefFrom(key, i + 1)
  }

  /** Some match of the expression has its group starting at or after `from`. */
  ghost predicate RefFrom(key: string, from: int) {
    exists j :: from <= j && RefAt(key, j)
  }

  /** The group of the leftmost match at or after `from` starts at `j`. */
  predicate FirstRefFrom(key: string, from: int, j: int) {
    from <= j && RefAt(key, j) && forall j' :: from <= j' < j ==> !RefAt(key, j')
  }

  /** The search from `i` captures something exactly when a match starts at or after `i`; the
      capture is the non-empty maximal alias run of the leftmost such match. */
  lemma {:induction false} AliasRefFromIsAliasRun(key: string, i: nat)
    requires i <= |key|
    ensures AliasRefFrom(key, i).Some? <==> RefFrom(key, i + 8)
    ensures AliasRefFrom(key, i).Some? ==> IsAlias(AliasRefFrom(key, i).value)
    ensures AliasRefFrom(key, i).Some? ==>
      exists j :: FirstRefFrom(key, i + 8, j) && AliasRefFrom(key, i).value == AliasRun(key, j)
    decreases |key| - i
  {
    if i + 9 > |key| {
      assert forall j :: i + 8 <= j ==> !RefAt(key, j);
    } else if key[i..i + 8] == "plugins." && IsAliasChar(key[i + 8]) {
      assert key[i + 8 - 8..i + 8] == key[i..i + 8];
      assert FirstRefFrom(key, i + 8, i + 8);
    } else {
      assert key[i + 8 - 8..i + 8] == key[i..i + 8];
      assert !RefAt(key, i + 8);
      AliasRefFromIsAliasRun(key, i + 1);
      if AliasRefFrom(key, i).Some? {
        var j :| FirstRefFrom(key, i + 9, j) && AliasRefFrom(key, i).value == AliasRun(key, j);
        assert FirstRefFrom(key, i + 8, j);
      }
      if RefFrom(key, i + 8) {
        var j :| i + 8 <= j && RefAt(key, j);
        assert RefFrom(key, i + 9);
      }
    }
  }

  /** `/plugins\.([\w-]+)/.exec(key)`: the capture is present exactly when the key contains
      `plugins.` followed by an alias character, and is then the maximal alias run after the
      leftmost such `plugins.`. */
  function AliasRef(key: string): (r: Option<string>)
    ensures r.Some? <==> RefFrom(key, 0)
    ensures r.Some? ==> IsAlias(r.value)
    ensures r.Some? ==> exists j :: FirstRefFrom(key, 0, j) && r.value == AliasRun(key, j)
  {
    AliasRefFromIsAliasRun(key, 0);
    AliasRefFrom(key, 0)
  }

  /** A key that starts with `plugins.<alias>` followed by a non-alias character (or nothing)
      captures exactly that alias. */
  lemma AliasRefOfPluginsKey(alias: string, rest: string)
    requires IsAlias(alias)
    requires |rest| == 0 || !IsAliasChar(rest[0])
    ensures AliasRef("plugins." + alias + rest) == Some(alias)
  {
    var key := "plugins." + alias + rest;
    assert key[0..8] == "plugins.";
    assert key[8] == alias[0];
    AliasRunOf(key, 8, alias, rest);
  }

  lemma {:induction false} AliasRunOf(key: string, j: nat, alias: string, rest: string)
    requires j + |alias| + |rest| == |key| && key[j..] == alias + rest
    requires forall i :: 0 <= i < |alias| ==> IsAliasChar(alias[i])
    requires |rest| == 0 || !IsAliasChar(rest[0])
    ensures AliasRun(key, j) == alias
    decreases |alias|
  {
    assert j <= |key|;
    if |alias| == 0 {
      if j < |key| {
        assert key[j] == key[j..][0] == rest[0];
      }
    } else {
      assert key[j] == key[j..][0] == alias[0];
      assert key[j + 1..] == alias[1..] + rest by {
        assert key[j + 1..] == key[j..][1..];
      }
      AliasRunOf(key, j + 1, alias[1..], rest);
    }
  }

  /** `parts.slice(n)`: empty when there are fewer than `n` parts. */
  function Drop(parts: seq<string>, n: nat): seq<string> {
    if n <= |parts| then parts[n..] else []
  }

  /** The plugin path an override key is redirected to: the captured alias must be one recorded
      while rewriting the plugins object. */
  function Redirect(aliases: map<string, string>, key: string): (r: Option<string>)
    ensures !RefFrom(key, 0) ==> r.None?
    ensures r.Some? ==> r.value in aliases.Values
    ensures r.Some? <==> AliasRef(key).Some? && AliasRef(key).value in aliases
    ensures r.Some? ==> r.value == aliases[AliasRef(key).value]
  {
    match AliasRef(key)
    case None => None
    case Some(a) => if a in aliases then Some(aliases[a]) else None
  }

  /** An alias containing `_` is never the target of a redirect from an override variable, since
      every `_` of a variable name becomes a `.`. */
  lemma UnderscoreAliasUnreachable(name: string)
    requires IsOverrideName(name)
    ensures var key := OverrideKey(name);
      AliasRef(key).Some? ==> '_' !in AliasRef(key).value
  {
    var key := OverrideKey(name);
    OverrideKeyHasNoUnderscore(name);
    if AliasRef(key).Some? {
      var j :| FirstRefFrom(key, 0, j) && AliasRef(key).value == AliasRun(key, j);
      var r := AliasRef(key).value;
      forall i | 0 <= i < |r| ensures r[i] != '_' {
        assert r[i] == key[j + i];
      }
    }
  }

  // ------------------------------------------------------------------ applying overrides

  datatype EnvError =
    | PathBlocked(segment: string)   // an intermediate value on the path is not an object
    | TargetNotObject(path: string)  // the aliased plugin entry to write into is not an object

  /** `dot.str(key, value, obj)` with the string value of the variable: it fails exactly when an
      intermediate value on the dotted path is present but not an object; otherwise the value is
      found at the path and nothing outside the first segment's key changes. */
  function WriteAt(obj: Object, key: string, value: string): (r: Result<Object, EnvError>)
    ensures r.Failure? ==> exists j: nat :: BlockedAt(obj, Split(key, '.'), j)
    ensures (exists j: nat :: BlockedAt(obj, Split(key, '.'), j)) ==> r.Failure?
    ensures r.Success? ==> GetPath(r.value, Split(key, '.')) == Some(JStr(value))
    ensures r.Success? ==> r.value.Keys == obj.Keys + {Split(key, '.')[0]}
    ensures r.Success? ==> forall k :: k in obj && k != Split(key, '.')[0] ==> r.value[k] == obj[k]
    ensures r.Success? ==> OtherPathsKept(obj, r.value, Split(key, '.'))
  {
    var segs := Split(key, '.');
    SetPathFailsIffBlocked(obj, segs, JStr(value));
    match SetPath(obj, segs, JStr(value))
    case Success(o) => Success(o)
    case Failure(Blocked(s)) => Failure(PathBlocked(s))
  }

  predicate HasPluginsObject(root: Object) {
    "plugins" in root && root["plugins"].JObj?
  }

  /** The plugin entry stored under `path` is an object. */
  predicate TargetIsObject(root: Object, path: string) {
    HasPluginsObject(root) && path in root["plugins"].fields && root["plugins"].fields[path].JObj?
  }

  /** The fields an aliased override writes into: the plugin entry's own when it is an object,
      otherwise (a boolean switch, or no entry at all) a fresh empty object. */
  function EntryFields(plugins: Object, path: string): Object {
    if path in plugins && plugins[path].JObj? then plugins[path].fields else map[]
  }

  /** `key.split('.').slice(2).join('.')`: the key without `plugins.<alias>`. */
  function SubKey(key: string): string {
    Join(Drop(Split(key, '.'), 2), '.')
  }

  /** `r` is `root` with the plugin entry under `path` turned into an object holding `value` at the
      dotted key `sub`; the entry's other fields, the other plugin entries and the other top-level
      keys are as they were. */
  ghost predicate PluginEntryWritten(root: Object, r: Object, path: string, sub: string, value: string) {
    && HasPluginsObject(root) && HasPluginsObject(r)
    && r.Keys == root.Keys
    && (forall k :: k in root && k != "plugins" ==> r[k] == root[k])
    && var before, after := root["plugins"].fields, r["plugins"].fields;
       && after.Keys == before.Keys + {path}
       && (forall k :: k in before && k != path ==> after[k] == before[k])
       && after[path].JObj?
       && GetPath(after[path].fields, Split(sub, '.')) == Some(JStr(value))
       && (forall k :: k in EntryFields(before, path) && k != Split(sub, '.')[0] ==>
             k in after[path].fields && after[path].fields[k] == EntryFields(before, path)[k])
       && OtherPathsKept(EntryFields(before, path), after[path].fields, Split(sub, '.'))
  }

  /** One override. A key naming a recorded alias is written, without its first two segments, into
      the plugin entry stored under the alias's path; when that entry is not an object it is
      replaced by `{}` and the write retried, as the comment before the write describes. Any other
      key is written from the root. */
  function ApplyOverride(root: Object, aliases: map<string, string>, key: string, value: string): (r: Result<Object, EnvError>)
    ensures Redirect(aliases, key).None? && r.Failure? ==> exists j: nat :: BlockedAt(root, Split(key, '.'), j)
    ensures Redirect(aliases, key).None? && (exists j: nat :: BlockedAt(root, Split(key, '.'), j)) ==> r.Failure?
    ensures Redirect(aliases, key).None? && r.Success? ==>
      && GetPath(r.value, Split(key, '.')) == Some(JStr(value))
      && r.value.Keys == root.Keys + {Split(key, '.')[0]}
      && (forall k :: k in root && k != Split(key, '.')[0] ==> r.value[k] == root[k])
      && OtherPathsKept(root, r.value, Split(key, '.'))
    ensures Redirect(aliases, key).Some? ==>
      (r == Failure(TargetNotObject(Redirect(aliases, key).value)) <==> !HasPluginsObject(root))
    ensures Redirect(aliases, key).Some? && HasPluginsObject(root) && r.Failure? ==>
      var entry := EntryFields(root["plugins"].fields, Redirect(aliases, key).value);
      exists j: nat :: BlockedAt(entry, Split(SubKey(key), '.'), j)
    ensures Redirect(aliases, key).Some? && HasPluginsObject(root) ==>
      var entry := EntryFields(root["plugins"].fields, Redirect(aliases, key).value);
      (exists j: nat :: BlockedAt(entry, Split(SubKey(key), '.'), j)) ==> r.Failure?
    ensures Redirect(aliases, key).Some? && r.Success? ==>
      PluginEntryWritten(root, r.value, Redirect(aliases, key).value, SubKey(key), value)
  {
    match Redirect(aliases, key)
    case None => WriteAt(root, key, value)
    case Some(path) =>
      if HasPluginsObject(root) then
        var plugins := root["plugins"].fields;
        match WriteAt(EntryFields(plugins, path), SubKey(key), value)
        case Success(entry) => Success(root["plugins" := JObj(plugins[path := JObj(entry)])])
        case Failure(e) => Failure(e)
      else Failure(TargetNotObject(path))
  }

  /** `ApplyOverride` as the code is written: the write goes straight into the plugin entry, so an
      entry that is not an object (the switch `true`) makes the write fail instead of being retried
      with `{}`. Everywhere else the two agree. */
  function ApplyOverrideAsWritten(root: Object, aliases: map<string, string>, key: string, value: string): (r: Result<Object, EnvError>)
    ensures Redirect(aliases, key).None? ==> r == ApplyOverride(root, aliases, key, value)
    ensures Redirect(aliases, key).Some? && TargetIsObject(root, Redirect(aliases, key).value) ==>
      r == ApplyOverride(root, aliases, key, value)
    ensures Redirect(aliases, key).Some? && !TargetIsObject(root, Redirect(aliases, key).value) ==>
      r == Failure(TargetNotObject(Redirect(aliases, key).value))
  {
    match Redirect(aliases, key)
    case None => WriteAt(root, key, value)
    case Some(path) =>
      if TargetIsObject(root, path) then
        var plugins := root["plugins"].fields;
        match WriteAt(plugins[path].fields, SubKey(key), value)
        case Success(entry) => Success(root["plugins" := JObj(plugins[path := JObj(entry)])])
        case Failure(e) => Failure(e)
      else Failure(TargetNotObject(path))
  }

  /** The variables in order; names that are not override names are skipped, and the first write
      that throws ends the run. */
  function ApplyEnvironment(root: Object, aliases: map<string, string>, env: seq<(string, string)>): (r: Result<Object, EnvError>)
    ensures (forall k :: 0 <= k < |env| ==> !IsOverrideName(env[k].0)) ==> r == Success(root)
    ensures r.Failure? ==> exists k :: 0 <= k < |env| && IsOverrideName(env[k].0)
    decreases |env|
  {
    if |env| == 0 then Success(root)
    else
      var (name, value) := env[0];
      if !IsOverrideName(name) then ApplyEnvironment(root, aliases, env[1..])
      else match ApplyOverride(root, aliases, OverrideKey(name), value)
        case Failure(e) => Failure(e)
        case Success(r) => ApplyEnvironment(r, aliases, env[1..])
  }

  /** `ApplyEnvironment` with each override applied as the code is written. */
  function ApplyEnvironmentAsWritten(root: Object, aliases: map<string, string>, env: seq<(string, string)>): (r: Result<Object, EnvError>)
    ensures (forall k :: 0 <= k < |env| ==> !IsOverrideName(env[k].0)) ==> r == Success(root)
    ensures r.Failure? ==> exists k :: 0 <= k < |env| && IsOverrideName(env[k].0)
    decreases |env|
  {
    if |env| == 0 then Success(root)
    else
      var (name, value) := env[0];
      if !IsOverrideName(name) then ApplyEnvironmentAsWritten(root, aliases, env[1..])
      else match ApplyOverrideAsWritten(root, aliases, OverrideKey(name), value)
        case Failure(e) => Failure(e)
        case Success(r) => ApplyEnvironmentAsWritten(r, aliases, env[1..])
  }

  /** The plugins object rewritten and the alias table, for a configuration that has a plugins
      object; otherwise the configuration unchanged and no aliases. */
  function Normalise(obj: Object, pluginOrder: seq<string>): (r: Normalised)
    requires "plugins" in obj && obj["plugins"].JObj? ==> EnumeratesKeys(pluginOrder, obj["plugins"].fields)
    ensures r.plugins.Keys == obj.Keys
    ensures forall k :: k in obj && k != "plugins" ==> r.plugins[k] == obj[k]
    ensures !HasPluginsObject(obj) ==> r.aliases == map[]
  {
    if "plugins" in obj && obj["plugins"].JObj? then
      var n := NormalisePlugins(obj["plugins"].fields, pluginOrder);
      Normalised(obj["plugins" := JObj(n.plugins)], n.aliases)
    else Normalised(obj, map[])
  }

  /** `config.env(obj)`: rewrite aliased plugin keys, then apply the environment in order.
      `pluginOrder` is the insertion order of the plugins object's keys. */
  function Env(obj: Object, pluginOrder: seq<string>, env: seq<(string, string)>): (r: Result<Object, EnvError>)
    requires "plugins" in obj && obj["plugins"].JObj? ==> EnumeratesKeys(pluginOrder, obj["plugins"].fields)
    ensures (forall k :: 0 <= k < |env| ==> !IsOverrideName(env[k].0)) ==> r == Success(Normalise(obj, pluginOrder).plugins)
    ensures !HasPluginsObject(obj) && (forall k :: 0 <= k < |env| ==> !IsOverrideName(env[k].0)) ==> r == Success(obj)
    ensures r.Failure? ==> exists k :: 0 <= k < |env| && IsOverrideName(env[k].0)
  {
    var n := Normalise(obj, pluginOrder);
    ApplyEnvironment(n.plugins, n.aliases, env)
  }

  /** `config.env(obj)` as the code is written. */
  function EnvAsWritten(obj: Object, pluginOrder: seq<string>, env: seq<(string, string)>): (r: Result<Object, EnvError>)
    requires "plugins" in obj && obj["plugins"].JObj? ==> EnumeratesKeys(pluginOrder, obj["plugins"].fields)
    ensures (forall k :: 0 <= k < |env| ==> !IsOverrideName(env[k].0)) ==> r == Success(Normalise(obj, pluginOrder).plugins)
    ensures r.Failure? ==> exists k :: 0 <= k < |env| && IsOverrideName(env[k].0)
  {
    var n := Normalise(obj, pluginOrder);
    ApplyEnvironmentAsWritten(n.plugins, n.aliases, env)
  }

  /** Keeps only the override variables. */
  function OverridesOnly(env: seq<(string, string)>): (r: seq<(string, string)>)
    ensures forall k :: 0 <= k < |r| ==> IsOverrideName(r[k].0)
  {
    if |env| == 0 then []
    else (if IsOverrideName(env[0].0) then [env[0]] else []) + OverridesOnly(env[1..])
  }

  /** Variables whose lower-cased name does not start with `origami_` have no effect. */
  lemma {:induction false} OnlyOverrideNamesApply(root: Object, aliases: map<string, string>, env: seq<(string, string)>)
    ensures ApplyEnvironment(root, aliases, env) == ApplyEnvironment(root, aliases, OverridesOnly(env))
    decreases |env|
  {
    if |env| > 0 {
      var (name, value) := env[0];
      var rest := OverridesOnly(env[1..]);
      if IsOverrideName(name) {
        assert OverridesOnly(env) == [env[0]] + rest;
        assert ([env[0]] + rest)[1..] == rest;
        match ApplyOverride(root, aliases, OverrideKey(name), value)
        case Failure(e) =>
        case Success(r) => OnlyOverrideNamesApply(r, aliases, env[1..]);
      } else {
        assert OverridesOnly(env) == [] + rest == rest;
        OnlyOverrideNamesApply(root, aliases, env[1..]);
        assert ApplyEnvironment(root, aliases, env) == ApplyEnvironment(root, aliases, env[1..]);
      }
    }
  }

  /** Running two lists of variables one after the other is running their concatenation. */
  lemma {:induction false} ApplyEnvironmentAppend(root: Object, aliases: map<string, string>, env1: seq<(string, string)>, env2: seq<(string, string)>)
    ensures ApplyEnvironment(root, aliases, env1 + env2) ==
      match ApplyEnvironment(root, aliases, env1)
      case Failure(e) => Failure(e)
      case Success(r) => ApplyEnvironment(r, aliases, env2)
    decreases |env1|
  {
    if |env1| == 0 {
      assert env1 + env2 == env2;
    } else {
      assert (env1 + env2)[0] == env1[0];
      assert (env1 + env2)[1..] == env1[1..] + env2;
      var (name, value) := env1[0];
      if !IsOverrideName(name) {
        ApplyEnvironmentAppend(root, aliases, env1[1..], env2);
      } else {
        match ApplyOverride(root, aliases, OverrideKey(name), value)
        case Failure(e) =>
        case Success(r) => ApplyEnvironmentAppend(r, aliases, env1[1..], env2);
      }
    }
  }

  /** An override that names no recorded alias sets its dotted path, from the root, to the raw
      string value; since variables apply in order, the last variable for a path wins. */
  lemma LastOverrideWins(root: Object, aliases: map<string, string>, env: seq<(string, string)>, name: string, value: string)
    requires IsOverrideName(name)
    requires Redirect(aliases, OverrideKey(name)).None?
    requires ApplyEnvironment(root, aliases, env + [(name, value)]).Success?
    ensures GetPath(ApplyEnvironment(root, aliases, env + [(name, value)]).value, Split(OverrideKey(name), '.'))
      == Some(JStr(value))
  {
    ApplyEnvironmentAppend(root, aliases, env, [(name, value)]);
    var r := ApplyEnvironment(root, aliases, env).value;
    assert [(name, value)][1..] == [];
  }

  // ------------------------------------------------------------------ end to end

  lemma StorePortLower()
    ensures Lower("ORIGAMI_STORE_PORT") == "origami_" + "store_port"
  {
    var l := Lower("ORIGAMI_STORE_PORT");
    assert |l| == 18;
    assert l[0] == 'o'; assert l[1] == 'r'; assert l[2] == 'i'; assert l[3] == 'g';
    assert l[4] == 'a'; assert l[5] == 'm'; assert l[6] == 'i'; assert l[7] == '_';
    assert l[8] == 's'; assert l[9] == 't'; assert l[10] == 'o'; assert l[11] == 'r';
    assert l[12] == 'e'; assert l[13] == '_'; assert l[14] == 'p'; assert l[15] == 'o';
    assert l[16] == 'r'; assert l[17] == 't';
  }

  lemma StorePortReplace()
    ensures ReplaceChar("store_port", '_', '.') == "store" + ['.'] + "port"
  {
    var r := ReplaceChar("store_port", '_', '.');
    assert |r| == 10;
    assert r[0] == 's'; assert r[1] == 't'; assert r[2] == 'o'; assert r[3] == 'r'; assert r[4] == 'e';
    assert r[5] == '.'; assert r[6] == 'p'; assert r[7] == 'o'; assert r[8] == 'r'; assert r[9] == 't';
  }

  /** The variable name `ORIGAMI_STORE_PORT` is an override name with key `store.port`. */
  lemma StorePortKey()
    ensures IsOverrideName("ORIGAMI_STORE_PORT")
    ensures OverrideKey("ORIGAMI_STORE_PORT") == "store" + ['.'] + "port"
  {
    var name := "ORIGAMI_STORE_PORT";
    StorePortLower();
    var l := Lower(name);
    assert l[..8] == "origami_";
    assert l[8..] == "store_port";
    assert NoLineTerminator("store_port") by {
      forall i | 0 <= i < 10 ensures !IsLineTerminator("store_port"[i]) {
        assert 'a' <= "store_port"[i] <= 'z' || "store_port"[i] == '_';
      }
    }
    StorePortReplace();
  }

  /** A single override variable is a single `ApplyOverride`. */
  lemma SingleOverride(root: Object, aliases: map<string, string>, name: string, value: string)
    requires IsOverrideName(name)
    ensures ApplyEnvironment(root, aliases, [(name, value)]) == ApplyOverride(root, aliases, OverrideKey(name), value)
  {
    assert [(name, value)][1..] == [];
    match ApplyOverride(root, aliases, OverrideKey(name), value)
    case Failure(e) =>
    case Success(r) => assert ApplyEnvironment(r, aliases, []) == Success(r);
  }

  /** An override of a two-segment key `a.b` on a configuration without a plugins object: when the
      value under `a` is an object (or absent, counting as `{}`), only its field `b` is replaced by
      the raw string and everything else is kept; any other value under `a` blocks the write. */
  lemma TwoSegmentOverride(root: Object, order: seq<string>, a: string, b: string, name: string, v: string)
    requires !HasPluginsObject(root)
    requires '.' !in a && '.' !in b
    requires IsOverrideName(name) && OverrideKey(name) == a + ['.'] + b
    ensures a !in root || root[a].JObj? ==>
      Env(root, order, [(name, v)]) == Success(root[a := JObj(EntryFields(root, a)[b := JStr(v)])])
    ensures a in root && !root[a].JObj? ==> Env(root, order, [(name, v)]) == Failure(PathBlocked(a))
  {
    assert Normalise(root, order) == Normalised(root, map[]);
    assert Redirect(map[], a + ['.'] + b).None?;
    SingleOverride(root, map[], name, v);
    WriteTwoSegments(root, a, b, v);
  }

  /** Writing at `a.b` replaces the field `b` of the object under `a`, or fails there when `a`
      holds something else. */
  lemma WriteTwoSegments(root: Object, a: string, b: string, v: string)
    requires '.' !in a && '.' !in b
    ensures a !in root || root[a].JObj? ==>
      WriteAt(root, a + ['.'] + b, v) == Success(root[a := JObj(EntryFields(root, a)[b := JStr(v)])])
    ensures a in root && !root[a].JObj? ==> WriteAt(root, a + ['.'] + b, v) == Failure(PathBlocked(a))
  {
    SplitNoSep(b, '.');
    SplitAfterPart(a, b, '.');
    assert Split(a + ['.'] + b, '.') == [a, b];
    assert [a, b][1..] == [b];
    var f := EntryFields(root, a);
    assert SetPath(f, [b], JStr(v)) == Success(f[b := JStr(v)]);
    if a !in root || root[a].JObj? {
      assert SetPath(root, [a, b], JStr(v)) == Success(root[a := JObj(f[b := JStr(v)])]);
    }
  }

  /** `ORIGAMI_STORE_PORT=5432` sets `store.port` to the string "5432", keeping every other field
      of `store` and every other top-level key. */
  lemma StorePortOverride(root: Object, order: seq<string>)
    requires !HasPluginsObject(root)
    requires "store" in root && root["store"].JObj?
    ensures Env(root, order, [("ORIGAMI_STORE_PORT", "5432")])
      == Success(root["store" := JObj(root["store"].fields["port" := JStr("5432")])])
  {
    StorePortKey();
    TwoSegmentOverride(root, order, "store", "port", "ORIGAMI_STORE_PORT", "5432");
  }

  /** Rewriting a plugins object with a single key is one iteration. */
  lemma NormaliseSingle(m: Object, k: string)
    requires m.Keys == {k}
    ensures EnumeratesKeys([k], m)
    ensures NormalisePlugins(m, [k]) == NormaliseEntry(Normalised(m, map[]), k, m[k])
  {
    var st' := NormaliseEntry(Normalised(m, map[]), k, m[k]);
    assert [k][1..] == [];
    assert NormaliseFrom(st', m, []) == st';
  }

  lemma LowerKeepsAlias(a: string)
    requires IsAlias(a)
    ensures IsAlias(Lower(a))
  {
    forall i | 0 <= i < |a| ensures IsAliasChar(Lower(a)[i]) {
      assert IsAliasChar(a[i]);
    }
  }

  /** Rewriting a plugins object holding one aliased key `path:alias`. */
  lemma NormaliseAliasedSingle(p: string, a: string, opts: Json)
    requires IsLocalPath(p) && IsAlias(a)
    ensures Normalise(map["plugins" := JObj(map[p + ":" + a := opts])], [p + ":" + a])
      == Normalised(map["plugins" := JObj(map[p := opts])], map[Lower(a) := p])
  {
    var k := p + ":" + a;
    NormaliseSingle(map[k := opts], k);
    AliasedEntryMoved(p, a, opts);
    NormaliseOnlyPlugins(map[k := opts], [k]);
  }

  /** A configuration holding only a plugins object rewrites to only the rewritten plugins. */
  lemma NormaliseOnlyPlugins(m: Object, order: seq<string>)
    requires EnumeratesKeys(order, m)
    ensures Normalise(map["plugins" := JObj(m)], order)
      == Normalised(map["plugins" := JObj(NormalisePlugins(m, order).plugins)], NormalisePlugins(m, order).aliases)
  {
    var n := NormalisePlugins(m, order);
    assert map["plugins" := JObj(m)]["plugins" := JObj(n.plugins)] == map["plugins" := JObj(n.plugins)];
  }

  /** The one rewriting step for `path:alias`. */
  lemma AliasedEntryMoved(p: string, a: string, opts: Json)
    requires IsLocalPath(p) && IsAlias(a)
    ensures NormaliseEntry(Normalised(map[p + ":" + a := opts], map[]), p + ":" + a, opts)
      == Normalised(map[p := opts], map[Lower(a) := p])
  {
    var k := p + ":" + a;
    ParsesAsAliased(p, a);
    MovedToPath(k, p, opts);
  }

  lemma ParsesAsAliased(p: string, a: string)
    requires IsLocalPath(p) && IsAlias(a)
    ensures ParseAliasedKey(p + ":" + a) == Some(AliasedKey(p, a))
    ensures p + ":" + a != p
  {
    AliasedKeyDecomposition(p + ":" + a, p, a);
    assert |p + ":" + a| > |p|;
  }

  lemma MovedToPath(k: string, p: string, opts: Json)
    requires k != p
    ensures map[k := opts][p := opts] - {k} == map[p := opts]
  {
  }

  /** The key `plugins.<alias>.<field>` splits into its three segments and is redirected to the
      path recorded for the alias. */
  lemma AliasedOverrideKey(p: string, a: string, field: string)
    requires IsAlias(a)
    requires '.' !in field
    ensures var key := "plugins." + Lower(a) + "." + field;
      && Split(key, '.') == ["plugins", Lower(a), field]
      && Redirect(map[Lower(a) := p], key) == Some(p)
  {
    var l := Lower(a);
    LowerKeepsAlias(a);
    RedirectOfPluginsKey(p, l, "." + field);
    assert "plugins." + l + "." + field == "plugins." + l + ("." + field);
    PluginsKeySplit(l, field);
  }

  lemma RedirectOfPluginsKey(p: string, a: string, rest: string)
    requires IsAlias(a) && |rest| >= 1 && rest[0] == '.'
    ensures Redirect(map[a := p], "plugins." + a + rest) == Some(p)
  {
    AliasRefOfPluginsKey(a, rest);
  }

  lemma PluginsKeySplit(a: string, field: string)
    requires IsAlias(a)
    requires '.' !in field
    ensures Split("plugins." + a + "." + field, '.') == ["plugins", a, field]
  {
    var key := "plugins." + a + "." + field;
    assert key == ("plugins" + ['.'] + (a + ['.'] + field));
    assert '.' !in a by {
      forall i | 0 <= i < |a| ensures a[i] != '.' {
        assert IsAliasChar(a[i]);
      }
    }
    SplitNoSep(field, '.');
    SplitAfterPart(a, field, '.');
    SplitAfterPart("plugins", a + ['.'] + field, '.');
  }

  /** A redirected override whose entry write succeeds replaces the entry with the written one. */
  lemma ApplyRedirected(root: Object, aliases: map<string, string>, key: string, v: string, path: string, entry: Object)
    requires Redirect(aliases, key) == Some(path) && HasPluginsObject(root)
    requires WriteAt(EntryFields(root["plugins"].fields, path), SubKey(key), v) == Success(entry)
    ensures ApplyOverride(root, aliases, key, v) == Success(root["plugins" := JObj(root["plugins"].fields[path := JObj(entry)])])
  {
  }

  /** With one plugin entry `prior` under `p` and the alias recorded for it, the override of
      `plugins.<alias>.<field>` sets `field` in the entry's fields (none, when `prior` is not an
      object). */
  lemma RedirectedSingleField(p: string, a: string, prior: Json, name: string, field: string, v: string)
    requires IsAlias(a)
    requires IsOverrideName(name) && OverrideKey(name) == "plugins." + Lower(a) + "." + field
    requires '.' !in field
    ensures ApplyOverride(map["plugins" := JObj(map[p := prior])], map[Lower(a) := p], OverrideKey(name), v)
      == Success(map["plugins" := JObj(map[p := JObj(EntryFields(map[p := prior], p)[field := JStr(v)])])])
  {
    var key := OverrideKey(name);
    var root := map["plugins" := JObj(map[p := prior])];
    var entry := EntryFields(map[p := prior], p);
    AliasedOverrideKey(p, a, field);
    SubKeyOfPluginsKey(Lower(a), field);
    WriteSingleField(entry, field, v);
    ApplyRedirected(root, map[Lower(a) := p], key, v, p, entry[field := JStr(v)]);
    SinglePluginReplaced(p, prior, JObj(entry[field := JStr(v)]));
  }

  lemma SinglePluginReplaced(p: string, prior: Json, x: Json)
    ensures var root := map["plugins" := JObj(map[p := prior])];
      root["plugins" := JObj(root["plugins"].fields[p := x])] == map["plugins" := JObj(map[p := x])]
  {
    var root := map["plugins" := JObj(map[p := prior])];
    assert root["plugins"].fields[p := x] == map[p := x];
  }

  lemma SubKeyOfPluginsKey(a: string, field: string)
    requires IsAlias(a) && '.' !in field
    ensures SubKey("plugins." + a + "." + field) == field
  {
    PluginsKeySplit(a, field);
    assert Drop(["plugins", a, field], 2) == [field];
  }

  lemma WriteSingleField(obj: Object, field: string, v: string)
    requires '.' !in field
    ensures WriteAt(obj, field, v) == Success(obj[field := JStr(v)])
  {
    SplitNoSep(field, '.');
    assert SetPath(obj, [field], JStr(v)) == Success(obj[field := JStr(v)]);
  }

  /** An aliased local plugin `path:alias` whose options are an object, and a variable whose key
      is `plugins.<alias>.<field>`: the plugins object ends up keyed by the path alone, and the
      field is set inside that entry. */
  lemma AliasedPluginOverride(p: string, a: string, opts: Object, name: string, field: string, v: string)
    requires IsLocalPath(p) && IsAlias(a)
    requires IsOverrideName(name) && OverrideKey(name) == "plugins." + Lower(a) + "." + field
    requires '.' !in field
    ensures Env(map["plugins" := JObj(map[p + ":" + a := JObj(opts)])], [p + ":" + a], [(name, v)])
      == Success(map["plugins" := JObj(map[p := JObj(opts[field := JStr(v)])])])
  {
    NormaliseAliasedSingle(p, a, JObj(opts));
    RedirectedSingleField(p, a, JObj(opts), name, field, v);
    SingleOverride(map["plugins" := JObj(map[p := JObj(opts)])], map[Lower(a) := p], name, v);
  }

  /** The same aliased plugin with the options `true`, as the code is written: the rewritten
      configuration holds the switch under the path, and the override, redirected there, finds no
      object to write the field into, so it fails instead of being retried with `{}`. */
  lemma AliasedPluginSwitchCannotTakeOverride(p: string, a: string, name: string, field: string, v: string)
    requires IsLocalPath(p) && IsAlias(a)
    requires IsOverrideName(name) && OverrideKey(name) == "plugins." + Lower(a) + "." + field
    ensures Normalise(map["plugins" := JObj(map[p + ":" + a := JBool(true)])], [p + ":" + a])
      == Normalised(map["plugins" := JObj(map[p := JBool(true)])], map[Lower(a) := p])
    ensures ApplyOverrideAsWritten(map["plugins" := JObj(map[p := JBool(true)])], map[Lower(a) := p], OverrideKey(name), v)
      == Failure(TargetNotObject(p))
    ensures EnvAsWritten(map["plugins" := JObj(map[p + ":" + a := JBool(true)])], [p + ":" + a], [(name, v)])
      == Failure(TargetNotObject(p))
  {
    NormaliseAliasedSingle(p, a, JBool(true));
    RedirectedToSwitch(p, a, field, v);
  }

  /** A redirected override whose target entry is the switch `true` fails as the code is written. */
  lemma RedirectedToSwitch(p: string, a: string, field: string, v: string)
    requires IsAlias(a)
    ensures ApplyOverrideAsWritten(map["plugins" := JObj(map[p := JBool(true)])], map[Lower(a) := p],
      "plugins." + Lower(a) + "." + field, v) == Failure(TargetNotObject(p))
  {
    LowerKeepsAlias(a);
    RedirectOfPluginsKey(p, Lower(a), "." + field);
    assert "plugins." + Lower(a) + "." + field == "plugins." + Lower(a) + ("." + field);
    assert !TargetIsObject(map["plugins" := JObj(map[p := JBool(true)])], p);
  }

  /** The same aliased plugin with the options `true`, with the retry the code intends: the switch
      is replaced by an object holding just the overridden field. */
  lemma AliasedPluginSwitchTakesOverride(p: string, a: string, name: string, field: string, v: string)
    requires IsLocalPath(p) && IsAlias(a)
    requires IsOverrideName(name) && OverrideKey(name) == "plugins." + Lower(a) + "." + field
    requires '.' !in field
    ensures Env(map["plugins" := JObj(map[p + ":" + a := JBool(true)])], [p + ":" + a], [(name, v)])
      == Success(map["plugins" := JObj(map[p := JObj(map[field := JStr(v)])])])
  {
    NormaliseAliasedSingle(p, a, JBool(true));
    RedirectedSingleField(p, a, JBool(true), name, field, v);
    assert EntryFields(map[p := JBool(true)], p) == map[];
    SingleOverride(map["plugins" := JObj(map[p := JBool(true)])], map[Lower(a) := p], name, v);
  }

  lemma LowerAppend(x: string, y: string)
    ensures Lower(x + y) == Lower(x) + Lower(y)
  {
  }

  lemma ReplaceAppend(x: string, y: string)
    ensures ReplaceChar(x + y, '_', '.') == ReplaceChar(x, '_', '.') + ReplaceChar(y, '_', '.')
  {
  }

  lemma LowerOrigami()
    ensures Lower("ORIGAMI_") == "origami_"
  {
    var w := Lower("ORIGAMI_");
    assert w[0] == 'o'; assert w[1] == 'r'; assert w[2] == 'i'; assert w[3] == 'g';
    assert w[4] == 'a'; assert w[5] == 'm'; assert w[6] == 'i'; assert w[7] == '_';
  }

  lemma LowerPlugins()
    ensures Lower("PLUGINS_") == "plugins_"
  {
    var w := Lower("PLUGINS_");
    assert w[0] == 'p'; assert w[1] == 'l'; assert w[2] == 'u'; assert w[3] == 'g';
    assert w[4] == 'i'; assert w[5] == 'n'; assert w[6] == 's'; assert w[7] == '_';
  }

  lemma LowerFooAliasVar()
    ensures Lower("FOOALIAS_") == "fooalias_"
  {
    var w := Lower("FOOALIAS_");
    assert w[0] == 'f'; assert w[1] == 'o'; assert w[2] == 'o'; assert w[3] == 'a';
    assert w[4] == 'l'; assert w[5] == 'i'; assert w[6] == 'a'; assert w[7] == 's';
    assert w[8] == '_';
  }

  lemma LowerEnabled()
    ensures Lower("ENABLED") == "enabled"
  {
    var w := Lower("ENABLED");
    assert w[0] == 'e'; assert w[1] == 'n'; assert w[2] == 'a'; assert w[3] == 'b';
    assert w[4] == 'l'; assert w[5] == 'e'; assert w[6] == 'd';
  }

  lemma LowerFooAlias()
    ensures Lower("fooAlias") == "fooalias"
  {
    var w := Lower("fooAlias");
    assert w[0] == 'f'; assert w[1] == 'o'; assert w[2] == 'o'; assert w[3] == 'a';
    assert w[4] == 'l'; assert w[5] == 'i'; assert w[6] == 'a'; assert w[7] == 's';
  }

  /** The name `ORIGAMI_PLUGINS_FOOALIAS_ENABLED`, written in its four words. */
  const FooAliasVar: string := "ORIGAMI_" + "PLUGINS_" + "FOOALIAS_" + "ENABLED"

  lemma ReplaceWords()
    ensures ReplaceChar("plugins_", '_', '.') == "plugins" + "."
    ensures ReplaceChar("fooalias_", '_', '.') == "fooalias" + "."
    ensures ReplaceChar("enabled", '_', '.') == "enabled"
  {
    var r1, r2, r3 := ReplaceChar("plugins_", '_', '.'), ReplaceChar("fooalias_", '_', '.'), ReplaceChar("enabled", '_', '.');
    assert r1[7] == '.'; assert r1[6] == 's'; assert r1[5] == 'n'; assert r1[4] == 'i';
    assert r1[3] == 'g'; assert r1[2] == 'u'; assert r1[1] == 'l'; assert r1[0] == 'p';
    assert r2[8] == '.'; assert r2[7] == 's'; assert r2[6] == 'a'; assert r2[5] == 'i'; assert r2[4] == 'l';
    assert r2[3] == 'a'; assert r2[2] == 'o'; assert r2[1] == 'o'; assert r2[0] == 'f';
    assert r3[6] == 'd'; assert r3[5] == 'e'; assert r3[4] == 'l'; assert r3[3] == 'b';
    assert r3[2] == 'a'; assert r3[1] == 'n'; assert r3[0] == 'e';
  }

  lemma FooAliasVarLower()
    ensures Lower(FooAliasVar) == "origami_" + ("plugins_" + ("fooalias_" + "enabled"))
  {
    LowerOrigami(); LowerPlugins(); LowerFooAliasVar(); LowerEnabled();
    assert FooAliasVar == "ORIGAMI_" + ("PLUGINS_" + ("FOOALIAS_" + "ENABLED"));
    LowerAppend("FOOALIAS_", "ENABLED");
    LowerAppend("PLUGINS_", "FOOALIAS_" + "ENABLED");
    LowerAppend("ORIGAMI_", "PLUGINS_" + ("FOOALIAS_" + "ENABLED"));
  }

  lemma FooAliasVarIsOverride()
    ensures IsOverrideName(FooAliasVar)
    ensures Lower(FooAliasVar)[|EnvPrefix|..] == "plugins_" + ("fooalias_" + "enabled")
  {
    FooAliasVarLower();
    var rest := "plugins_" + ("fooalias_" + "enabled");
    assert Lower(FooAliasVar)[..8] == "origami_";
    assert Lower(FooAliasVar)[8..] == rest;
    FooAliasRestPlain();
  }

  lemma FooAliasRestPlain()
    ensures NoLineTerminator("plugins_" + ("fooalias_" + "enabled"))
  {
    var rest := "plugins_" + ("fooalias_" + "enabled");
    forall i | 0 <= i < |rest| ensures !IsLineTerminator(rest[i]) {
      assert 'a' <= rest[i] <= 'z' || rest[i] == '_';
    }
  }

  /** `ORIGAMI_PLUGINS_FOOALIAS_ENABLED` is an override variable with key `plugins.fooalias.enabled`. */
  lemma FooAliasKey()
    ensures IsOverrideName(FooAliasVar)
    ensures OverrideKey(FooAliasVar) == "plugins." + Lower("fooAlias") + "." + "enabled"
  {
    FooAliasVarIsOverride();
    LowerFooAlias();
    ReplaceAppend("fooalias_", "enabled");
    ReplaceAppend("plugins_", "fooalias_" + "enabled");
    ReplaceWords();
    assert "plugins." == "plugins" + ".";
  }

  /** The switched-on aliased plugin `./plugins/foo.js:fooAlias` with
      `ORIGAMI_PLUGINS_FOOALIAS_ENABLED=false`: with the retry, the entry under the path becomes
      `{enabled: 'false'}`. */
  lemma FooAliasSwitchExample()
    ensures Env(map["plugins" := JObj(map["./plugins/foo.js" + ":" + "fooAlias" := JBool(true)])],
                ["./plugins/foo.js" + ":" + "fooAlias"], [(FooAliasVar, "false")])
      == Success(map["plugins" := JObj(map["./plugins/foo.js" := JObj(map["enabled" := JStr("false")])])])
  {
    FooAliasParts();
    FooAliasKey();
    AliasedPluginSwitchTakesOverride("./plugins/foo.js", "fooAlias", FooAliasVar, "enabled", "false");
  }

  lemma FooAliasParts()
    ensures IsLocalPath("./plugins/foo.js") && IsAlias("fooAlias") && '.' !in "enabled"
  {
    var p, a := "./plugins/foo.js", "fooAlias";
    assert p[..2] == "./";
    forall i | 0 <= i < |p[2..]| ensures !IsLineTerminator(p[2..][i]) {
    }
    forall i | 0 <= i < |a| ensures IsAliasChar(a[i]) {
    }
  }
}
