/**
 * Decoded JSON values as the Python runtime holds them, and the few Python
 * built-ins the order handler applies to them (`json.loads`, `str()`,
 * `int()`, `dict.get` and the `in` operator).
 *
 * `json.loads`, `str()` and `int()` are not re-implemented: they are fields of
 * a `Runtime` value, so every property of the handler is proved for every
 * runtime that behaves as `Conforms` says on the cases the handler relies on.
 */
module PyJson {

  datatype Option<+T> = None | Some(value: T)

  /** A value produced by `json.loads`; `JNull` is Python's `None`. */
  datatype Json =
    | JNull
    | JBool(b: bool)
    | JInt(i: int)
    | JFloat(x: real)
    | JString(s: string)
    | JArray(items: seq<Json>)
    | JObject(fields: map<string, Json>)

  /**
   * The built-ins the handler calls. `None` stands for an exception:
   * `loads` yields `None` where `json.loads` raises `JSONDecodeError`,
   * `toStr` and `toInt` where `str()` and `int()` raise.
   */
  datatype Runtime = Runtime(
    loads: string -> Option<Json>,
    toStr: Json -> Option<string>,
    toInt: Json -> Option<int>)

  /** What Python's `str()` and `int()` certainly do on the values that matter here. */
  ghost predicate Conforms(rt: Runtime)
  {
    && (forall s: string :: rt.toStr(JString(s)) == Some(s))
    && rt.toStr(JNull) == Some("None")
    && rt.toStr(JBool(true)) == Some("True")
    && rt.toStr(JBool(false)) == Some("False")
    && (forall n: int :: rt.toInt(JInt(n)) == Some(n))
    && rt.toInt(JBool(true)) == Some(1)
    && rt.toInt(JBool(false)) == Some(0)
    && rt.toInt(JNull) == None
    && (forall xs: seq<Json> :: rt.toInt(JArray(xs)) == None)
    && (forall m: map<string, Json> :: rt.toInt(JObject(m)) == None)
  }

  /** `d.get(key, default)` on a decoded dict. */
  function Get(d: map<string, Json>, key: string, default: Json): (v: Json)
    ensures key in d ==> v == d[key]
    ensures key !in d ==> v == default
  {
    if key in d then d[key] else default
  }

  /** Whether `p` occurs as a contiguous substring of `s` (Python's `p in s` on two strings). */
  predicate Occurs(p: string, s: string)
    decreases |s|
  {
    p <= s || (|s| > 0 && Occurs(p, s[1..]))
  }

  /** Python's `key in container` for a string `key`; `None` is the `TypeError` a scalar raises. */
  function In(key: string, container: Json): (r: Option<bool>)
    ensures r.None? <==> (container.JNull? || container.JBool? || container.JInt? || container.JFloat?)
    ensures container.JObject? ==> r == Some(key in container.fields)
    ensures container.JArray? ==> r == Some(JString(key) in container.items)
  {
    match container
    case JObject(m) => Some(key in m)
    case JArray(xs) => Some(JString(key) in xs)
    case JString(s) => Some(Occurs(key, s))
    case _ => None
  }

  /** `p` stands in `s` starting at index `i`. */
  predicate SliceAt(p: string, s: string, i: int)
  {
    0 <= i && i + |p| <= |s| && s[i..i + |p|] == p
  }

  lemma {:induction false} OccursAt(p: string, s: string, i: nat)
    requires SliceAt(p, s, i)
    ensures Occurs(p, s)
    decreases i
  {
    if i == 0 {
      assert p <= s;
    } else {
      assert s[1..][i - 1..i - 1 + |p|] == s[i..i + |p|];
      assert SliceAt(p, s[1..], i - 1);
      OccursAt(p, s[1..], i - 1);
    }
  }

  lemma {:induction false} OccursWitness(p: string, s: string) returns (i: nat)
    requires Occurs(p, s)
    ensures SliceAt(p, s, i)
    decreases |s|
  {
    if p <= s {
      i := 0;
      assert s[0..|p|] == p;
    } else {
      var j := OccursWitness(p, s[1..]);
      i := j + 1;
      assert s[1..][j..j + |p|] == s[i..i + |p|];
    }
  }

  /** `Occurs` is substring search: `p` occurs in `s` exactly when it is some slice of `s`. */
  lemma OccursIff(p: string, s: string)
    ensures Occurs(p, s) <==> exists i :: SliceAt(p, s, i)
  {
    if Occurs(p, s) {
      var i := OccursWitness(p, s);
    }
    if exists i :: SliceAt(p, s, i) {
      var i :| SliceAt(p, s, i);
      OccursAt(p, s, i);
    }
  }
}
