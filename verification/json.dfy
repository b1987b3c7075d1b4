/** A JSON-like value tree, and the "set at a dotted path" operation the configuration loader
    delegates to the `dot-object` library (`dot.str`). */
module Json {
  import opened Wrappers

  /** A parsed configuration value. Numbers are kept as integers; nothing here computes with them. */
  datatype Json =
    | JNull
    | JBool(b: bool)
    | JNum(n: int)
    | JStr(s: string)
    | JArr(items: seq<Json>)
    | JObj(fields: map<string, Json>)

  type Object = map<string, Json>

  /** `dot.str` found a value that is present but not an object where it had to descend. */
  datatype SetError = Blocked(segment: string)

  /** The value reached by following `segs` from `obj`, if every step lands on an object key. */
  function GetPath(obj: Object, segs: seq<string>): Option<Json>
    requires |segs| >= 1
    decreases |segs|
  {
    if segs[0] !in obj then None
    else if |segs| == 1 then Some(obj[segs[0]])
    else match obj[segs[0]]
      case JObj(f) => GetPath(f, segs[1..])
      case _ => None
  }

  /** The paths `q` and `segs` part ways: at some position both have a key and the keys differ, so
      neither path is a prefix of the other. */
  predicate Diverge(q: seq<string>, segs: seq<string>)
    decreases |q|
  {
    |q| >= 1 && |segs| >= 1 && (q[0] != segs[0] || Diverge(q[1..], segs[1..]))
  }

  /** Every path that parts ways with `segs` reads the same in `r` as in `obj`. */
  ghost predicate OtherPathsKept(obj: Object, r: Object, segs: seq<string>) {
    forall q :: |q| >= 1 && Diverge(q, segs) ==> GetPath(r, q) == GetPath(obj, q)
  }

  /** Writes `v` at the path `segs`: missing intermediate keys become fresh objects, the last key is
      overwritten whatever it held, and a present intermediate that is not an object is an error. */
  function SetPath(obj: Object, segs: seq<string>, v: Json): (r: Result<Object, SetError>)
    requires |segs| >= 1
    ensures r.Success? ==> GetPath(r.value, segs) == Some(v)
    ensures r.Success? ==> r.value.Keys == obj.Keys + {segs[0]}
    ensures r.Success? ==> forall k :: k in obj && k != segs[0] ==> r.value[k] == obj[k]
    ensures r.Success? ==> OtherPathsKept(obj, r.value, segs)
    ensures r.Failure? ==> |segs| >= 2
    decreases |segs|
  {
    var k := segs[0];
    if |segs| == 1 then
      var r := obj[k := v];
      FirstKeyFrame(obj, r, segs);
      Success(r)
    else
      var child := if k in obj then obj[k] else JObj(map[]);
      match child
      case JObj(f) =>
        (match SetPath(f, segs[1..], v)
         case Success(inner) =>
           var r := obj[k := JObj(inner)];
           FirstKeyFrame(obj, r, segs);
           DescendFrame(obj, r, segs, f, inner);
           Success(r)
         case Failure(e) => Failure(e))
      case _ => Failure(Blocked(k))
  }

  /** Paths leaving through another first key read the same when only the first key changed. */
  lemma FirstKeyFrame(obj: Object, r: Object, segs: seq<string>)
    requires |segs| >= 1
    requires r.Keys == obj.Keys + {segs[0]}
    requires forall k :: k in obj && k != segs[0] ==> r[k] == obj[k]
    ensures forall q :: |q| >= 1 && q[0] != segs[0] ==> GetPath(r, q) == GetPath(obj, q)
  {
  }

  /** Paths through the written first key read the same when the object below it kept them. */
  lemma DescendFrame(obj: Object, r: Object, segs: seq<string>, f: Object, inner: Object)
    requires |segs| >= 2
    requires forall q :: |q| >= 1 && q[0] != segs[0] ==> GetPath(r, q) == GetPath(obj, q)
    requires segs[0] in r && r[segs[0]] == JObj(inner)
    requires (segs[0] in obj && obj[segs[0]] == JObj(f)) || (segs[0] !in obj && f == map[])
    requires OtherPathsKept(f, inner, segs[1..])
    ensures OtherPathsKept(obj, r, segs)
  {
    forall q | |q| >= 1 && Diverge(q, segs) ensures GetPath(r, q) == GetPath(obj, q) {
      if q[0] == segs[0] {
        assert Diverge(q[1..], segs[1..]);
        if segs[0] !in obj {
          assert GetPath(f, q[1..]) == None;
        }
      }
    }
  }

  /** The fields beside the written one, inside the object under the first key, are kept: an
      override of `store.port` keeps `store.host`. */
  lemma SetPathKeepsSiblings(obj: Object, segs: seq<string>, v: Json, f: Object)
    requires |segs| >= 2 && segs[0] in obj && obj[segs[0]] == JObj(f)
    requires SetPath(obj, segs, v).Success?
    ensures var r := SetPath(obj, segs, v).value;
      && r[segs[0]].JObj?
      && forall k :: k in f && k != segs[1] ==> k in r[segs[0]].fields && r[segs[0]].fields[k] == f[k]
  {
    var r := SetPath(obj, segs, v).value;
    assert GetPath(r, segs).Some?;
    forall k | k in f && k != segs[1]
      ensures k in r[segs[0]].fields && r[segs[0]].fields[k] == f[k]
    {
      var q := [segs[0], k];
      assert Diverge(q[1..], segs[1..]);
      assert Diverge(q, segs);
      assert GetPath(obj, q) == Some(f[k]);
    }
  }

  /** The intermediate (strict) prefix of `segs` of length `j` reaches a value that is not an object. */
  predicate BlockedAt(obj: Object, segs: seq<string>, j: nat)
    requires |segs| >= 1
  {
    1 <= j < |segs| && GetPath(obj, segs[..j]).Some? && !GetPath(obj, segs[..j]).value.JObj?
  }

  /** The write fails exactly when some intermediate prefix of the path reaches a non-object. */
  lemma {:induction false} SetPathFailsIffBlocked(obj: Object, segs: seq<string>, v: Json)
    requires |segs| >= 1
    ensures SetPath(obj, segs, v).Failure? <==> exists j :: BlockedAt(obj, segs, j)
    decreases |segs|
  {
    if |segs| == 1 {
      assert forall j :: !BlockedAt(obj, segs, j);
    } else {
      var k := segs[0];
      assert segs[..1] == [k];
      if k !in obj {
        NothingBelowMissing(obj, segs);
        SetPathIntoFresh(segs[1..], v);
      } else {
        match obj[k]
        case JObj(f) =>
          SetPathFailsIffBlocked(f, segs[1..], v);
          BlockedBelow(obj, segs, f, v);
        case _ =>
          assert BlockedAt(obj, segs, 1);
      }
    }
  }

  /** Through an object under the first key, the write is blocked exactly when it is blocked
      inside that object. */
  lemma BlockedBelow(obj: Object, segs: seq<string>, f: Object, v: Json)
    requires |segs| >= 2 && segs[0] in obj && obj[segs[0]] == JObj(f)
    requires SetPath(f, segs[1..], v).Failure? <==> exists j :: BlockedAt(f, segs[1..], j)
    ensures SetPath(obj, segs, v).Failure? <==> exists j :: BlockedAt(obj, segs, j)
  {
    if SetPath(f, segs[1..], v).Failure? {
      var j :| BlockedAt(f, segs[1..], j);
      BlockedShift(obj, segs, f, j);
    } else {
      NotBlockedBelow(obj, segs, f);
    }
  }

  /** Nothing blocks a path through an object under the first key unless something blocks it
      inside that object. */
  lemma NotBlockedBelow(obj: Object, segs: seq<string>, f: Object)
    requires |segs| >= 2 && segs[0] in obj && obj[segs[0]] == JObj(f)
    requires forall j :: !BlockedAt(f, segs[1..], j)
    ensures forall j :: !BlockedAt(obj, segs, j)
  {
    assert segs[..1] == [segs[0]];
    forall j: nat | BlockedAt(obj, segs, j) ensures false {
      assert j >= 2;
      BlockedShift(obj, segs, f, j - 1);
    }
  }

  /** Below an object reached by the first key, blocking is measured from that object. */
  lemma BlockedShift(obj: Object, segs: seq<string>, f: Object, j: nat)
    requires |segs| >= 2 && segs[0] in obj && obj[segs[0]] == JObj(f)
    requires 1 <= j < |segs| - 1
    ensures BlockedAt(obj, segs, j + 1) <==> BlockedAt(f, segs[1..], j)
  {
    assert segs[..j + 1][1..] == segs[1..][..j];
  }

  /** Under a missing first key nothing on the path is present. */
  lemma NothingBelowMissing(obj: Object, segs: seq<string>)
    requires |segs| >= 2 && segs[0] !in obj
    ensures forall j :: !BlockedAt(obj, segs, j)
  {
    forall j | 1 <= j < |segs| ensures GetPath(obj, segs[..j]).None? {
      assert segs[..j][0] == segs[0];
    }
  }

  /** Writing into a fresh empty object never fails. */
  lemma {:induction false} SetPathIntoFresh(segs: seq<string>, v: Json)
    requires |segs| >= 1
    ensures SetPath(map[], segs, v).Success?
  {
    if |segs| > 1 {
      SetPathIntoFresh(segs[1..], v);
    }
  }
}
