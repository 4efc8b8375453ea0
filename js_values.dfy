/**
 * JavaScript values as the client components and route handlers see them:
 * an optional value, the primitive values stored in plain objects, truthiness,
 * object spread with one computed key, and the `filter` idioms the components
 * use to drop rows from a list.
 */
module JsValues {

  datatype Option<+T> = None | Some(value: T)

  /** A primitive JavaScript value. Numbers are integers here (no NaN, no fractions). */
  datatype JsValue = Undefined | Null | Bool(b: bool) | Num(n: int) | Str(s: string)

  /** A plain object: property name to value. An absent property reads as `undefined`. */
  type JsObject = map<string, JsValue>

  /** `o[key]` */
  function Get(o: JsObject, key: string): JsValue
  {
    if key in o then o[key] else Undefined
  }

  /** JavaScript truthiness: `undefined`, `null`, `false`, `0` and `""` are falsy. */
  predicate Truthy(v: JsValue)
  {
    match v
    case Undefined => false
    case Null => false
    case Bool(b) => b
    case Num(n) => n != 0
    case Str(s) => s != ""
  }

  /** `{ ...o, [key]: v }`: the named property takes the new value, every other one is kept. */
  function Put(o: JsObject, key: string, v: JsValue): (r: JsObject)
    ensures Get(r, key) == v
    ensures forall k :: k != key ==> Get(r, k) == Get(o, k)
    ensures r.Keys == o.Keys + {key}
  {
    o[key := v]
  }

  /** `rows.filter((x) => x[key] !== v)` */
  function RemoveWhere(rows: seq<JsObject>, key: string, v: JsValue): (r: seq<JsObject>)
    ensures |r| <= |rows|
    ensures forall i | 0 <= i < |r| :: Get(r[i], key) != v
  {
    if rows == [] then []
    else if Get(rows[0], key) != v then [rows[0]] + RemoveWhere(rows[1..], key, v)
    else RemoveWhere(rows[1..], key, v)
  }

  /** An object survives the filter exactly when it was in the list and its key differs from `v`. */
  lemma {:induction false} RemoveWhereMembers(rows: seq<JsObject>, key: string, v: JsValue, x: JsObject)
    ensures x in RemoveWhere(rows, key, v) <==> x in rows && Get(x, key) != v
  {
    if rows != [] {
      RemoveWhereMembers(rows[1..], key, v, x);
      assert rows == [rows[0]] + rows[1..];
    }
  }

  /** Filtering distributes over concatenation, so the survivors keep their relative order. */
  lemma {:induction false} RemoveWhereAppend(xs: seq<JsObject>, ys: seq<JsObject>, key: string, v: JsValue)
    ensures RemoveWhere(xs + ys, key, v) == RemoveWhere(xs, key, v) + RemoveWhere(ys, key, v)
  {
    if xs == [] {
      assert xs + ys == ys;
    } else {
      assert (xs + ys)[1..] == xs[1..] + ys;
      RemoveWhereAppend(xs[1..], ys, key, v);
    }
  }

  /** When no object carries `v` under `key`, nothing is removed. */
  lemma {:induction false} RemoveWhereNothing(rows: seq<JsObject>, key: string, v: JsValue)
    requires forall i | 0 <= i < |rows| :: Get(rows[i], key) != v
    ensures RemoveWhere(rows, key, v) == rows
  {
    if rows != [] {
      RemoveWhereNothing(rows[1..], key, v);
    }
  }

  /** `s.filter((_, idx) => idx !== i)`, also `values.splice(i, 1)` with `i` in range. */
  function RemoveAt<T>(s: seq<T>, i: nat): (r: seq<T>)
    requires i < |s|
    ensures |r| == |s| - 1
    ensures forall k | 0 <= k < i :: r[k] == s[k]
    ensures forall k | i <= k < |r| :: r[k] == s[k + 1]
  {
    s[..i] + s[i + 1..]
  }
}
